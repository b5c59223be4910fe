/** What becomes of the PUBLISHes that the gateway has acknowledged in the client's place: the broker
    will not send them again, so one that is thrown away is lost for good. */
module SessionLosses {
  import opened SortedMap
  import opened LinkedQueue
  import opened LinkedTable
  import opened TopicTable
  import opened SessionModel
  import opened SessionRuns
  import opened SessionFlow

  /** The broker wants this PUBLISH acknowledged. */
  predicate Asks(m: GwPublish) { m.qos == 1 || m.qos == 2 }

  function Asking(ms: seq<GwPublish>): multiset<GwPublish> {
    if ms == [] then multiset{} else One(Asks(ms[0]), ms[0]) + Asking(ms[1..])
  }

  function One(counts: bool, m: GwPublish): multiset<GwPublish> { if counts then multiset{m} else multiset{} }

  /** `drained` says of each queued event whether it comes from the sleep buffer. `n` counts the PUBLISHes that
      the gateway has acknowledged: as arrived when it first did, and where they went in the end. */
  datatype Book = Book(drained: seq<bool>, n: Tally)

  const BLANK := Book([], NOTHING)

  predicate IsPublish(e: Event) { e.BrokerRecv? && e.b.BrokerPublish? }

  /** The queued PUBLISHes that were acknowledged when they were saved. */
  function Queued(es: seq<Event>, drained: seq<bool>): multiset<GwPublish>
    requires |es| == |drained|
  {
    if es == [] then multiset{}
    else OneQueued(es[0], drained[0]) + Queued(es[1..], drained[1..])
  }

  function OneQueued(e: Event, drained: bool): multiset<GwPublish> {
    if IsPublish(e) then One(drained && Asks(e.b.m), e.b.m) else multiset{}
  }

  /** From `s` to `t` the gateway has put an acknowledgement of `m` on the broker's queue. */
  predicate Acknowledges(s: State, t: State, m: GwPublish) {
    t.toBroker == s.toBroker + [PubackBroker(m.msgId)] || t.toBroker == s.toBroker + [AckBroker(PUBREC, m.msgId)]
  }

  /** The tally after a PUBLISH `m` took state `s` to `t`. */
  function PublishTally(s: State, t: State, m: GwPublish, drained: bool, n: Tally): Tally {
    if drained && Asks(m) then CountPublish(s, t, m, n)
    else if Acknowledges(s, t, m) then CountPublish(s, t, m, n.(arrived := n.arrived + multiset{m}))
    else n
  }

  function Repeated(b: bool, k: nat): (r: seq<bool>)
    ensures |r| == k && forall i :: 0 <= i < k ==> r[i] == b
  {
    seq(k, _ => b)
  }

  function BookAfter(gw: Table, r: Session, a: Act, b: Book): Book
    requires Enabled(r, a) && |b.drained| == |r.s.events|
  {
    var t := Next(gw, r, a).s;
    match a
    case Dispatch =>
      var s, rest := Popped(r.s), b.drained[1..];
      (match r.s.events[0]
       case BrokerRecv(BrokerPublish(m)) => Book(rest, PublishTally(s, t, m, b.drained[0], b.n))
       case ClientRecv(c) =>
         if Drains(s, c) then Book(rest + Repeated(true, Min(Room(s), |s.stored|)),
                                   b.n.(lost := b.n.lost + Asking(Overflow(s))))
         else Book(rest, b.n)
       case _ => Book(rest, b.n))
    case Update => b
    case ConnectSent => b
    case _ => if |t.events| > |r.s.events| then b.(drained := b.drained + [false]) else b
  }

  /** Every acknowledged PUBLISH is in exactly one place. */
  ghost predicate Balanced(s: State, b: Book) {
    && |b.drained| == |s.events|
    && b.n.arrived == Asking(s.stored) + Queued(s.events, b.drained) + Gone(b.n)
  }

  lemma {:induction false} AskingConcat(a: seq<GwPublish>, b: seq<GwPublish>)
    ensures Asking(a + b) == Asking(a) + Asking(b)
  {
    if a == [] {
      assert a + b == b;
    } else {
      assert (a + b)[1..] == a[1..] + b;
      AskingConcat(a[1..], b);
    }
  }

  lemma {:induction false} QueuedConcat(a: seq<Event>, b: seq<Event>, da: seq<bool>, db: seq<bool>)
    requires |a| == |da| && |b| == |db|
    ensures Queued(a + b, da + db) == Queued(a, da) + Queued(b, db)
  {
    if a == [] {
      assert a + b == b && da + db == db;
    } else {
      assert (a + b)[1..] == a[1..] + b && (da + db)[1..] == da[1..] + db;
      QueuedConcat(a[1..], b, da[1..], db);
    }
  }

  lemma {:induction false} QueuedRequeued(ms: seq<GwPublish>)
    ensures Queued(Requeued(ms), Repeated(true, |ms|)) == Asking(ms)
  {
    if ms != [] {
      assert Requeued(ms)[1..] == Requeued(ms[1..]);
      assert Repeated(true, |ms|)[1..] == Repeated(true, |ms[1..]|);
      QueuedRequeued(ms[1..]);
    }
  }

  // ---- a PUBLISH is handled ----

  /** By now the gateway has acknowledged the PUBLISH. */
  predicate Acknowledged(s: State, m: GwPublish, drained: bool) {
    Asks(m) && (drained || s.status == Asleep || FateOf(s, m).Refused?)
  }

  lemma AcknowledgesIff(s: State, m: GwPublish)
    ensures Acknowledges(s, HandlePublish(s, m), m) <==> Asks(m) && (s.status == Asleep || FateOf(s, m).Refused?)
  {
    AcknowledgedIff(s, m);
  }

  lemma PublishTallyIs(s: State, m: GwPublish, drained: bool, n: Tally)
    ensures var t := HandlePublish(s, m);
            var k := if drained then n else n.(arrived := n.arrived + multiset{m});
            PublishTally(s, t, m, drained, n)
            == if Acknowledged(s, m, drained) then CountFate(FateOf(s, m), m, k) else n
  {
    AcknowledgesIff(s, m);
    if drained { PublishFate(s, m, n); } else { PublishFate(s, m, n.(arrived := n.arrived + multiset{m})); }
  }

  lemma Settle(x: multiset<GwPublish>, a: multiset<GwPublish>, q: multiset<GwPublish>, g: multiset<GwPublish>)
    ensures a + (x + q) + g == (a + x) + q + g == a + q + (g + x)
    ensures a + (multiset{} + q) + g == a + q + g
    ensures a + (multiset{} + q) + g + x == (a + x) + q + g == a + q + (g + x)
  {
  }

  lemma Balances(arrived: multiset<GwPublish>, a: multiset<GwPublish>, q: multiset<GwPublish>, g: multiset<GwPublish>,
                 m: GwPublish, known: bool, asks: bool, acked: bool, saved: bool)
    requires arrived == a + (One(known, m) + q) + g
    requires (known ==> acked) && (acked ==> asks) && (saved && asks ==> acked)
    ensures (if known || !acked then arrived else arrived + multiset{m})
         == (if saved then a + One(asks, m) else a) + q + (if acked && !saved then g + multiset{m} else g)
  {
    Settle(multiset{m}, a, q, g);
  }

  lemma TallyParts(s: State, m: GwPublish, drained: bool, n: Tally)
    ensures var c := PublishTally(s, HandlePublish(s, m), m, drained, n);
            var acked, saved := Acknowledged(s, m, drained), FateOf(s, m).Saved?;
            && c.arrived == (if drained || !acked then n.arrived else n.arrived + multiset{m})
            && Gone(c) == if acked && !saved then Gone(n) + multiset{m} else Gone(n)
  {
    PublishTallyIs(s, m, drained, n);
    var k := n.(arrived := n.arrived + multiset{m});
    CountFateGone(FateOf(s, m), m, n);
    CountFateGone(FateOf(s, m), m, k);
    assert Gone(k) == Gone(n);
  }

  /** The tally `c` says of the step from `s` to `t` what it should. */
  predicate Told(s: State, t: State, m: GwPublish, drained: bool, n: Tally, c: Tally, acked: bool, saved: bool) {
    && t.events == s.events && t.stored == (if saved then s.stored + [m] else s.stored)
    && (drained && Asks(m) ==> acked) && (acked ==> Asks(m)) && (saved && Asks(m) ==> acked)
    && c.arrived == (if drained || !acked then n.arrived else n.arrived + multiset{m})
    && Gone(c) == if acked && !saved then Gone(n) + multiset{m} else Gone(n)
  }

  lemma TallyTold(s: State, m: GwPublish, drained: bool, n: Tally)
    ensures var t := HandlePublish(s, m);
            Told(s, t, m, drained, n, PublishTally(s, t, m, drained, n), Acknowledged(s, m, drained),
                 FateOf(s, m).Saved?) == true
  {
    PublishFate(s, m, n);
    TallyParts(s, m, drained, n);
  }

  lemma TallyBalances(s: State, t: State, m: GwPublish, drained: bool, rest: seq<bool>, n: Tally, c: Tally,
                      acked: bool, saved: bool)
    requires |rest| == |s.events| && Told(s, t, m, drained, n, c, acked, saved)
    requires n.arrived == Asking(s.stored) + (One(drained && Asks(m), m) + Queued(s.events, rest)) + Gone(n)
    ensures Balanced(t, Book(rest, c))
  {
    StoredAsking(s, t, m);
    Balances(n.arrived, Asking(s.stored), Queued(s.events, rest), Gone(n), m,
             drained && Asks(m), Asks(m), acked, saved);
  }

  lemma PublishBalanced(s: State, m: GwPublish, drained: bool, rest: seq<bool>, n: Tally)
    requires |rest| == |s.events|
    requires n.arrived == Asking(s.stored) + (One(drained && Asks(m), m) + Queued(s.events, rest)) + Gone(n)
    ensures var t := HandlePublish(s, m); Balanced(t, Book(rest, PublishTally(s, t, m, drained, n))) == true
  {
    var t := HandlePublish(s, m);
    TallyTold(s, m, drained, n);
    TallyBalances(s, t, m, drained, rest, n, PublishTally(s, t, m, drained, n), Acknowledged(s, m, drained),
                  FateOf(s, m).Saved?);
  }

  lemma StoredAsking(s: State, t: State, m: GwPublish)
    requires t.stored == s.stored || t.stored == s.stored + [m]
    ensures t.stored == s.stored + [m] ==> Asking(t.stored) == Asking(s.stored) + One(Asks(m), m)
  {
    AskingConcat(s.stored, [m]);
    assert Asking([m]) == One(Asks(m), m) + Asking([m][1..]);
  }

  // ---- the other steps ----

  lemma DrainBalanced(s: State, t: State, rest: seq<bool>, n: Tally)
    requires Balanced(s, Book(rest, n)) && t.stored == [] && t.events == SendStored(s).events
    ensures Balanced(t, Book(rest + Repeated(true, Min(Room(s), |s.stored|)),
                             n.(lost := n.lost + Asking(Overflow(s)))))
  {
    var k := Min(Room(s), |s.stored|);
    var a, b := s.stored[..k], s.stored[k..];
    assert s.stored == a + b;
    AskingConcat(a, b);
    QueuedConcat(s.events, Requeued(a), rest, Repeated(true, k));
    QueuedRequeued(a);
    LostAdds(n, Asking(b));
    Regroup(Asking(a), Asking(b), Queued(s.events, rest));
    Swap(multiset{} + (Queued(s.events, rest) + Asking(a)), Asking(b), Gone(n));
  }

  lemma PostBalanced(s: State, e: Event, b: Book)
    requires Balanced(s, b)
    ensures var t := PostEvent(s, e);
            Balanced(t, if |t.events| > |s.events| then b.(drained := b.drained + [false]) else b)
  {
    QueuedConcat(s.events, [e], b.drained, [false]);
    assert Queued([e][1..], [false][1..]) == multiset{};
  }

  lemma DispatchBalanced(gw: Table, r: Session, b: Book)
    requires Balanced(r.s, b) && Enabled(r, Dispatch)
    ensures Balanced(Next(gw, r, Dispatch).s, BookAfter(gw, r, Dispatch, b))
  {
    var s, e, rest := Popped(r.s), r.s.events[0], b.drained[1..];
    match e
    case Foreign =>
    case ClientRecv(c) => ClientBalanced(gw, s, c, rest, b.n);
    case BrokerRecv(p) =>
      BrokerBuffer(s, p);
      if p.BrokerPublish? { PublishBalanced(s, p.m, b.drained[0], rest, b.n); }
  }

  lemma ClientBalanced(gw: Table, s: State, c: FromClient, rest: seq<bool>, n: Tally)
    requires Balanced(s, Book(rest, n))
    ensures Balanced(HandleClient(s, gw, c),
                     if Drains(s, c) then Book(rest + Repeated(true, Min(Room(s), |s.stored|)),
                                               n.(lost := n.lost + Asking(Overflow(s))))
                     else Book(rest, n))
  {
    if Drains(s, c) {
      DrainsBuffer(s, gw, c);
      DrainBalanced(s, HandleClient(s, gw, c), rest, n);
    } else {
      ClientKeepsBuffer(s, gw, c);
    }
  }

  lemma NextBalanced(gw: Table, r: Session, a: Act, b: Book)
    requires Balanced(r.s, b) && Enabled(r, a)
    ensures Balanced(Next(gw, r, a).s, BookAfter(gw, r, a, b))
  {
    match a
    case BrokerSends(p) => PostBalanced(r.s, BrokerRecv(p), b);
    case ClientSends(c) => PostBalanced(r.s, ClientRecv(c), b);
    case OthersPost => PostBalanced(r.s, Foreign, b);
    case Dispatch => DispatchBalanced(gw, r, b);
    case Update => UpdateBalanced(r.s, r.pending.value, b);
    case ConnectSent =>
  }

  lemma UpdateBalanced(s: State, c: FromClient, b: Book)
    requires Balanced(s, b)
    ensures Balanced(UpdateStatus(s, c), b)
  {
  }

  ghost function Booked(gw: Table, r: Session, acts: seq<Act>, b: Book): Book
    requires Exec(gw, r, acts).Some? && Balanced(r.s, b)
    decreases |acts|
  {
    if acts == [] then b
    else
      NextBalanced(gw, r, acts[0], b);
      Booked(gw, Next(gw, r, acts[0]), acts[1..], BookAfter(gw, r, acts[0], b))
  }

  // ---- what the runs show ----

  /** In every run: each PUBLISH that the gateway has acknowledged is in exactly one place. It is in the sleep
      buffer, or back in the event queue, or was sent, or put on the REGACK list, or was thrown away for
      one of five counted reasons. */
  lemma {:induction false} AcknowledgedConservation(gw: Table, r: Session, acts: seq<Act>, b: Book)
    requires Balanced(r.s, b) && Exec(gw, r, acts).Some?
    ensures Balanced(Exec(gw, r, acts).value.s, Booked(gw, r, acts, b))
    decreases |acts|
  {
    if acts != [] {
      NextBalanced(gw, r, acts[0], b);
      AcknowledgedConservation(gw, Next(gw, r, acts[0]), acts[1..], BookAfter(gw, r, acts[0], b));
    }
  }

  lemma {:induction false} AskingIff(ms: seq<GwPublish>)
    ensures Asking(ms) != multiset{} <==> exists m :: m in ms && Asks(m)
  {
    if ms != [] {
      AskingIff(ms[1..]);
      assert ms == [ms[0]] + ms[1..];
      if Asks(ms[0]) { assert ms[0] in Asking(ms); }
    }
  }

  lemma MoreIff(a: multiset<GwPublish>, b: multiset<GwPublish>)
    ensures a + b != a <==> b != multiset{}
  {
    if b != multiset{} {
      assert |a + b| == |a| + |b| && |b| > 0;
    }
  }

  predicate LosesAtDrain(s: State, e: Event) {
    e.ClientRecv? && Drains(s, e.c) && exists m :: m in Overflow(s) && Asks(m)
  }

  /** The five reasons, each exactly, told from the state `s` before the event: a PUBLISH that asks for an
      acknowledgement is discarded while the client sleeps with twenty saved, or refused because no topic explains
      its name; one that was saved and has been drained is ignored because its client neither sleeps nor listens,
      or it needs one topic more than the table holds, and the gateway crashes; or a drain finds no room in the
      event queue for one that was saved. */
  predicate ReasonsIff(s: State, e: Event, drained: bool, n: Tally, c: Tally) {
    var asks := IsPublish(e) && Asks(e.b.m);
    && (c.discarded != n.discarded <==> asks && s.status == Asleep && |s.stored| >= MAX_SAVED_PUBLISH)
    && (c.refused != n.refused <==> asks && Listening(s) && Unexplained(s.topics, e.b.m))
    && (c.ignored != n.ignored <==> asks && drained && !Listening(s) && s.status != Asleep)
    && (c.fatal != n.fatal <==> asks && drained && Crashing(s, e.b.m))
    && (c.lost != n.lost <==> LosesAtDrain(s, e))
  }

  /** In every run: of the PUBLISHes that the gateway has acknowledged, a step throws one away exactly for one of
      these reasons, and any other is still in its hands, or was sent or held for the client. */
  lemma AcknowledgedLostIff(gw: Table, own: Table, acts: seq<Act>, a: Act)
    requires Configuration(own) && Exec(gw, Start(own), acts).Some? && Enabled(Exec(gw, Start(own), acts).value, a)
    ensures var r, b := Exec(gw, Start(own), acts).value, Booked(gw, Start(own), acts, BLANK);
            && |r.s.stored| <= MAX_SAVED_PUBLISH
            && Balanced(r.s, b)
            && var k := BookAfter(gw, r, a, b);
               && Balanced(Next(gw, r, a).s, k)
               && if a.Dispatch? then ReasonsIff(Popped(r.s), r.s.events[0], b.drained[0], b.n, k.n) else k.n == b.n
  {
    ExecInv(gw, Start(own), acts);
    AcknowledgedConservation(gw, Start(own), acts, BLANK);
    var r, b := Exec(gw, Start(own), acts).value, Booked(gw, Start(own), acts, BLANK);
    NextBalanced(gw, r, a, b);
    if a.Dispatch? {
      DispatchReasons(gw, r, b);
    }
  }

  lemma DispatchReasons(gw: Table, r: Session, b: Book)
    requires Enabled(r, Dispatch) && |b.drained| == |r.s.events|
    ensures ReasonsIff(Popped(r.s), r.s.events[0], b.drained[0], b.n, BookAfter(gw, r, Dispatch, b).n)
  {
    var s := Popped(r.s);
    match r.s.events[0]
    case Foreign =>
    case ClientRecv(c) =>
      MoreIff(b.n.lost, Asking(Overflow(s)));
      AskingIff(Overflow(s));
    case BrokerRecv(p) => if p.BrokerPublish? { PublishReasons(s, p.m, b.drained[0], b.n); }
  }

  lemma PublishReasons(s: State, m: GwPublish, drained: bool, n: Tally)
    ensures ReasonsIff(s, BrokerRecv(BrokerPublish(m)), drained, n, PublishTally(s, HandlePublish(s, m), m, drained, n))
  {
    PublishTallyIs(s, m, drained, n);
    FateReasons(FateOf(s, m), m, n, CountFate(FateOf(s, m), m, n));
    var k := n.(arrived := n.arrived + multiset{m});
    FateReasons(FateOf(s, m), m, k, CountFate(FateOf(s, m), m, k));
  }

  lemma FateReasons(fate: Fate, m: GwPublish, n: Tally, c: Tally)
    requires c == CountFate(fate, m, n)
    ensures (c.discarded != n.discarded <==> fate.Discarded?) && (c.refused != n.refused <==> fate.Refused?)
    ensures (c.ignored != n.ignored <==> fate.Ignored?) && (c.fatal != n.fatal <==> fate.Crashes?) && c.lost == n.lost
  {
    MoreIff(n.discarded, multiset{m});
    MoreIff(n.refused, multiset{m});
    MoreIff(n.ignored, multiset{m});
    MoreIff(n.fatal, multiset{m});
  }
}
