/** Where the broker's PUBLISHes go: none that the packet event queue has accepted gets lost
    without a reason, and none is handled twice. */
module SessionFlow {
  import opened SortedMap
  import opened LinkedQueue
  import opened LinkedTable
  import opened TopicTable
  import opened SessionModel
  import opened SessionRuns

  /** What became of the PUBLISHes, counted over a run. */
  datatype Tally = Tally(
    arrived: multiset<GwPublish>,      // accepted by the packet event queue
    sent: multiset<GwPublish>,         // sent to the client
    held: multiset<GwPublish>,         // put on the list that waits for a REGACK
    refused: multiset<GwPublish>,      // no subscription explains the topic
    discarded: multiset<GwPublish>,    // the sleep buffer was full
    lost: multiset<GwPublish>,         // the event queue was full when the buffer was drained
    ignored: multiset<GwPublish>,      // the client was not connected
    fatal: multiset<GwPublish>)        // the topic table was full, and the gateway crashed

  const NOTHING := Tally(multiset{}, multiset{}, multiset{}, multiset{}, multiset{}, multiset{}, multiset{}, multiset{})

  /** The MQTT-SN PUBLISH says what the MQTT one says. */
  predicate Carries(p: SnPublish, m: GwPublish) {
    p.dup == m.dup && p.qos == m.qos && p.retain == m.retain && p.msgId == m.msgId && p.payload == m.payload
  }

  /** From `s` to `t` one message was put on the client's queue: a PUBLISH that carries `m`. */
  predicate Sent(s: State, t: State, m: GwPublish) {
    && |t.toClient| == |s.toClient| + 1 && t.toClient[..|s.toClient|] == s.toClient
    && t.toClient[|s.toClient|].SendPublish? && Carries(t.toClient[|s.toClient|].p, m)
  }

  /** From `s` to `t` a PUBLISH that carries `m` was put on the list that waits for REGACKs. */
  predicate Held(s: State, t: State, m: GwPublish) {
    && |t.waiting| == |s.waiting| + 1 && t.waiting[..|s.waiting|] == s.waiting
    && Carries(t.waiting[|s.waiting|].p, m)
  }

  /** The topic would have to be added to a full table. */
  predicate Crashing(s: State, m: GwPublish) {
    Listening(s) && NeedsRegister(s.topics, m) && |s.topics.entries| >= MAX_TOPIC_PAR_CLIENT
  }

  /** The tally after a PUBLISH `m` took state `s` to `t`. What was saved, sent or held is seen in
      `t`; what was not must have one of the known reasons, or it is counted nowhere. */
  function CountPublish(s: State, t: State, m: GwPublish, n: Tally): Tally {
    if t.stored == s.stored + [m] then n
    else if Sent(s, t, m) then n.(sent := n.sent + multiset{m})
    else if Held(s, t, m) then n.(held := n.held + multiset{m})
    else if s.status == Asleep && |s.stored| >= MAX_SAVED_PUBLISH then n.(discarded := n.discarded + multiset{m})
    else if !Dozing(s) && s.status != Active then n.(ignored := n.ignored + multiset{m})
    else if Listening(s) && Unexplained(s.topics, m) then n.(refused := n.refused + multiset{m})
    else if Crashing(s, m) && t.crashed then n.(fatal := n.fatal + multiset{m})
    else n
  }

  function Count(gw: Table, r: Session, a: Act, n: Tally): Tally
    requires Enabled(r, a)
  {
    var t := Next(gw, r, a).s;
    match a
    case BrokerSends(BrokerPublish(m)) =>
      if |t.events| > |r.s.events| then n.(arrived := n.arrived + multiset{m}) else n
    case Dispatch =>
      var s := Popped(r.s);
      (match r.s.events[0]
       case BrokerRecv(BrokerPublish(m)) => CountPublish(s, t, m, n)
       case ClientRecv(c) =>
         if Drains(s, c) then n.(lost := n.lost + multiset(s.stored[Min(Room(s), |s.stored|)..])) else n
       case _ => n)
    case _ => n
  }

  function Tallied(gw: Table, r: Session, acts: seq<Act>, n: Tally): Tally
    requires Exec(gw, r, acts).Some?
    decreases |acts|
  {
    if acts == [] then n else Tallied(gw, Next(gw, r, acts[0]), acts[1..], Count(gw, r, acts[0], n))
  }

  /** The broker PUBLISHes in the packet event queue. */
  function Pubs(es: seq<Event>): (r: multiset<GwPublish>) {
    if es == [] then multiset{}
    else (if es[0].BrokerRecv? && es[0].b.BrokerPublish? then multiset{es[0].b.m} else multiset{}) + Pubs(es[1..])
  }

  lemma {:induction false} PubsConcat(a: seq<Event>, b: seq<Event>)
    ensures Pubs(a + b) == Pubs(a) + Pubs(b)
  {
    if a == [] {
      assert a + b == b;
    } else {
      assert (a + b)[1..] == a[1..] + b;
      PubsConcat(a[1..], b);
    }
  }

  lemma {:induction false} PubsRequeued(ms: seq<GwPublish>)
    ensures Pubs(Requeued(ms)) == multiset(ms)
  {
    if ms != [] {
      assert Requeued(ms)[1..] == Requeued(ms[1..]);
      assert ms == [ms[0]] + ms[1..];
      PubsRequeued(ms[1..]);
    }
  }

  /** Still in the gateway's hands. */
  function Kept(s: State): multiset<GwPublish> { multiset(s.stored) + Pubs(s.events) }

  /** Dealt with, one way or another. */
  function Gone(n: Tally): multiset<GwPublish> {
    n.sent + n.held + n.refused + n.discarded + n.lost + n.ignored + n.fatal
  }

  ghost predicate Conserved(s: State, n: Tally) {
    n.arrived == Kept(s) + Gone(n)
  }

  lemma PostKept(s: State, e: Event)
    ensures var t := PostEvent(s, e);
            Kept(t) == Kept(s) + (if e.BrokerRecv? && e.b.BrokerPublish? && |t.events| > |s.events|
                                  then multiset{e.b.m} else multiset{})
  {
    PubsConcat(s.events, [e]);
    assert Pubs([e][1..]) == multiset{};
  }

  lemma DrainKept(s: State)
    ensures Kept(s) == Kept(SendStored(s)) + multiset(Overflow(s))
  {
    var k := Min(Room(s), |s.stored|);
    var a, b := s.stored[..k], s.stored[k..];
    PubsConcat(s.events, Requeued(a));
    PubsRequeued(a);
    assert s.stored == a + b;
    Regroup(multiset(a), multiset(b), Pubs(s.events));
  }

  lemma Regroup(a: multiset<GwPublish>, b: multiset<GwPublish>, c: multiset<GwPublish>)
    ensures a + b + c == multiset{} + (c + a) + b
  {
  }

  /** The places a PUBLISH may end in. */
  datatype Fate = Saved | IsSent | IsHeld | Discarded | Ignored | Refused | Crashes

  /** Where a PUBLISH goes, told from the state before. */
  function FateOf(s: State, m: GwPublish): Fate {
    if s.status == Asleep then (if |s.stored| < MAX_SAVED_PUBLISH then Saved else Discarded)
    else if !Listening(s) then Ignored
    else if Unexplained(s.topics, m) then Refused
    else if !NeedsRegister(s.topics, m) then IsSent
    else if |s.topics.entries| < MAX_TOPIC_PAR_CLIENT then IsHeld
    else Crashes
  }

  /** The tally with `m` counted for this place. */
  function CountFate(fate: Fate, m: GwPublish, n: Tally): Tally {
    match fate
    case Saved => n
    case IsSent => n.(sent := n.sent + multiset{m})
    case IsHeld => n.(held := n.held + multiset{m})
    case Discarded => n.(discarded := n.discarded + multiset{m})
    case Ignored => n.(ignored := n.ignored + multiset{m})
    case Refused => n.(refused := n.refused + multiset{m})
    case Crashes => n.(fatal := n.fatal + multiset{m})
  }

  lemma SendsOrHolds(s: State, m: GwPublish)
    requires Listening(s)
    ensures var t, fate := Forward(s, m), FateOf(s, m);
            && t.stored == s.stored && t.events == s.events
            && (Sent(s, t, m) <==> fate.IsSent?) && (Held(s, t, m) <==> fate.IsHeld?)
            && (t.crashed ==> s.crashed || fate.Crashes?)
            && (fate.Crashes? ==> t.crashed)
  {
    if NeedsRegister(s.topics, m) { HoldsOrCrashes(s, m); }
  }

  lemma HoldsOrCrashes(s: State, m: GwPublish)
    requires Listening(s) && NeedsRegister(s.topics, m)
    ensures var t := Forward(s, m);
            && t.stored == s.stored && t.events == s.events && !Sent(s, t, m)
            && (if |s.topics.entries| < MAX_TOPIC_PAR_CLIENT then Held(s, t, m) && t.crashed == s.crashed
                else t.crashed && t.waiting == s.waiting)
  {
  }

  /** Where a PUBLISH goes is decided by what the gateway knows beforehand, in every case exactly:
      it is saved, sent or held as it is, or counted for its reason. */
  lemma PublishFate(s: State, m: GwPublish, n: Tally)
    ensures var t, fate := HandlePublish(s, m), FateOf(s, m);
            && (t.stored == s.stored + [m] <==> fate.Saved?)
            && (Sent(s, t, m) <==> fate.IsSent?)
            && (Held(s, t, m) <==> fate.IsHeld?)
            && (t.stored == s.stored || fate.Saved?) && t.events == s.events
            && CountPublish(s, t, m, n) == CountFate(fate, m, n)
  {
    if Listening(s) {
      SendsOrHolds(s, m);
      Longer(s.stored, m);
    } else {
      QuietWhileNotListening(s, m);
      Longer(s.stored, m);
    }
  }

  lemma Longer(ms: seq<GwPublish>, m: GwPublish)
    ensures ms + [m] != ms
  {
    assert |ms + [m]| == |ms| + 1;
  }

  lemma QuietWhileNotListening(s: State, m: GwPublish)
    requires !Listening(s)
    ensures var t := HandlePublish(s, m);
            && t.toClient == s.toClient && t.waiting == s.waiting && t.events == s.events
            && t.stored == if FateOf(s, m).Saved? then s.stored + [m] else s.stored
  {
  }

  lemma PublishKept(s: State, m: GwPublish, n: Tally)
    ensures var t := HandlePublish(s, m);
            var c := CountPublish(s, t, m, n);
            if FateOf(s, m).Saved? then Kept(t) == Kept(s) + multiset{m} && c == n
            else Kept(t) == Kept(s) && Gone(c) == Gone(n) + multiset{m} && c.arrived == n.arrived
  {
    PublishFate(s, m, n);
    if FateOf(s, m).Saved? {
      StoreKept(s, HandlePublish(s, m), m);
    } else {
      CountFateGone(FateOf(s, m), m, n);
    }
  }

  lemma StoreKept(s: State, t: State, m: GwPublish)
    requires t.events == s.events && t.stored == s.stored + [m]
    ensures Kept(t) == Kept(s) + multiset{m}
  {
    Swap(multiset(s.stored), Pubs(s.events), multiset{m});
  }

  lemma Swap(a: multiset<GwPublish>, b: multiset<GwPublish>, c: multiset<GwPublish>)
    ensures a + b + c == a + c + b
  {
  }

  lemma CountFateGone(fate: Fate, m: GwPublish, n: Tally)
    ensures var c := CountFate(fate, m, n);
            Gone(c) == (if fate.Saved? then Gone(n) else Gone(n) + multiset{m}) && c.arrived == n.arrived
  {
  }

  lemma LostAdds(n: Tally, ms: multiset<GwPublish>)
    ensures Gone(n.(lost := n.lost + ms)) == Gone(n) + ms
  {
  }

  /** What a drain loses: the stored PUBLISHes that do not find room in the event queue. */
  function Overflow(s: State): seq<GwPublish> { s.stored[Min(Room(s), |s.stored|)..] }

  lemma ClientConserves(gw: Table, s: State, c: FromClient, n: Tally)
    requires Conserved(s, n)
    ensures Conserved(HandleClient(s, gw, c), if Drains(s, c) then n.(lost := n.lost + multiset(Overflow(s))) else n)
  {
    if Drains(s, c) {
      DrainsBuffer(s, gw, c);
      DrainKept(s);
      LostAdds(n, multiset(Overflow(s)));
      Swap(Kept(SendStored(s)), multiset(Overflow(s)), Gone(n));
    } else {
      ClientKeepsBuffer(s, gw, c);
    }
  }

  lemma BrokerConserves(s: State, b: FromBroker, n: Tally)
    requires n.arrived == Kept(s) + (if b.BrokerPublish? then multiset{b.m} else multiset{}) + Gone(n)
    ensures Conserved(HandleBroker(s, b),
                      if b.BrokerPublish? then CountPublish(s, HandlePublish(s, b.m), b.m, n) else n)
  {
    BrokerBuffer(s, b);
    if b.BrokerPublish? {
      PublishKept(s, b.m, n);
      Swap(Kept(s), multiset{b.m}, Gone(n));
    }
  }

  lemma DispatchConserves(gw: Table, s: State, e: Event, n: Tally)
    requires n.arrived == Kept(s) + Pubs([e]) + Gone(n)
    ensures var t := Handled(gw, s, e);
            match e
            case BrokerRecv(BrokerPublish(m)) => Conserved(t, CountPublish(s, t, m, n))
            case ClientRecv(c) => Conserved(t, if Drains(s, c) then n.(lost := n.lost + multiset(Overflow(s))) else n)
            case _ => Conserved(t, n)
  {
    assert Pubs([e][1..]) == multiset{};
    match e
    case BrokerRecv(b) => BrokerConserves(s, b, n);
    case ClientRecv(c) => ClientConserves(gw, s, c, n);
    case Foreign =>
  }

  lemma PostConserves(s: State, e: Event, n: Tally)
    requires Conserved(s, n)
    ensures var t := PostEvent(s, e);
            if e.BrokerRecv? && e.b.BrokerPublish? && |t.events| > |s.events|
            then Conserved(t, n.(arrived := n.arrived + multiset{e.b.m})) else Conserved(t, n)
  {
    PostKept(s, e);
    if e.BrokerRecv? && e.b.BrokerPublish? {
      Swap(Kept(s), Gone(n), multiset{e.b.m});
    }
  }

  lemma PopKept(s: State)
    requires s.events != []
    ensures Kept(s) == Kept(Popped(s)) + Pubs([s.events[0]])
  {
    assert s.events == [s.events[0]] + s.events[1..];
    PubsConcat([s.events[0]], s.events[1..]);
  }

  lemma NextConserves(gw: Table, r: Session, a: Act, n: Tally)
    requires Conserved(r.s, n) && Enabled(r, a)
    ensures Conserved(Next(gw, r, a).s, Count(gw, r, a, n))
  {
    match a
    case BrokerSends(b) => PostConserves(r.s, BrokerRecv(b), n);
    case ClientSends(c) => PostConserves(r.s, ClientRecv(c), n);
    case OthersPost => PostConserves(r.s, Foreign, n);
    case Dispatch =>
      PopKept(r.s);
      DispatchConserves(gw, Popped(r.s), r.s.events[0], n);
    case Update => UpdateKept(r.s, r.pending.value);
    case ConnectSent =>
  }

  lemma UpdateKept(s: State, c: FromClient)
    ensures Kept(UpdateStatus(s, c)) == Kept(s)
  {
  }

  /** In every run: each PUBLISH the event queue accepted is in exactly one place. It waits in
      the queue or in the sleep buffer, was sent, was put on the REGACK list, or was dropped for
      one of five counted reasons. The sleep buffer never holds more than twenty. */
  lemma {:induction false} Conservation(gw: Table, r: Session, acts: seq<Act>, n: Tally)
    requires Conserved(r.s, n) && Bounded(r.s) && Exec(gw, r, acts).Some?
    ensures Conserved(Exec(gw, r, acts).value.s, Tallied(gw, r, acts, n))
    ensures |Exec(gw, r, acts).value.s.stored| <= MAX_SAVED_PUBLISH
    decreases |acts|
  {
    if acts != [] {
      NextConserves(gw, r, acts[0], n);
      StepBounded(gw, r, acts[0]);
      Conservation(gw, Next(gw, r, acts[0]), acts[1..], Count(gw, r, acts[0], n));
    }
  }

  /** The gateway acknowledges a PUBLISH itself exactly when the client sleeps or no subscription
      explains it, by QoS: PUBACK, PUBREC or nothing. */
  lemma AcknowledgedIff(s: State, m: GwPublish)
    ensures HandlePublish(s, m).toBroker == s.toBroker +
              if s.status == Asleep || FateOf(s, m).Refused? then
                (if m.qos == 1 then [PubackBroker(m.msgId)]
                 else if m.qos == 2 then [AckBroker(PUBREC, m.msgId)] else [])
              else []
  {
    if Listening(s) && !Unexplained(s.topics, m) {
      assert HandlePublish(s, m).toBroker == s.toBroker;
    }
  }

  /** A drain loses what finds no room in the event queue, so nothing exactly when all does;
      then the buffer moves behind the queued events, in the order in which it was saved. */
  lemma DrainKeepsOrder(gw: Table, r: Session, n: Tally)
    requires Enabled(r, Dispatch) && r.s.events[0].ClientRecv? && Drains(r.s, r.s.events[0].c) && Bounded(r.s)
    ensures var t, c := Next(gw, r, Dispatch).s, Count(gw, r, Dispatch, n);
            && t.stored == []
            && (c.lost == n.lost <==> |r.s.events| - 1 + |r.s.stored| <= MAX_PACKET_EVENTS)
            && (c.lost == n.lost ==> t.events == r.s.events[1..] + Requeued(r.s.stored))
  {
    var s := Popped(r.s);
    DrainsBuffer(s, gw, r.s.events[0].c);
    if |s.events| + |s.stored| <= MAX_PACKET_EVENTS {
      assert s.stored[..|s.stored|] == s.stored && Overflow(s) == [];
    } else {
      assert Overflow(s) != [] && Overflow(s)[0] in multiset(Overflow(s));
      assert |n.lost + multiset(Overflow(s))| > |n.lost|;
    }
  }
}
