/** Whether the PINGREQ of a sleeping client with stored PUBLISHes is ever forwarded. */
module SessionPing {
  import opened SortedMap
  import opened LinkedQueue
  import opened LinkedTable
  import opened TopicTable
  import opened SessionModel
  import opened SessionRuns
  import opened SessionTalk

  function Dispatches(n: nat): (acts: seq<Act>)
    ensures |acts| == n
  {
    if n == 0 then [] else [Dispatch] + Dispatches(n - 1)
  }

  /** The client answers each REGISTER that was sent for a waiting PUBLISH, once and in order. */
  function Answers(waiting: seq<Wait>): seq<Act> {
    if waiting == [] then []
    else [ClientSends(Regack(waiting[0].regackMsgId)), Dispatch, Update] + Answers(waiting[1..])
  }

  /** No PINGREQ is among the messages that `t` has for the broker and `s` had not. */
  predicate NoPingSince(s: State, t: State) {
    s.toBroker <= t.toBroker && forall i :: |s.toBroker| <= i < |t.toBroker| ==> t.toBroker[i] != PingBroker
  }

  lemma NoPingTwice(s: State, t: State, u: State)
    requires NoPingSince(s, t) && NoPingSince(t, u)
    ensures NoPingSince(s, u)
  {
  }

  // ---- the drained PUBLISHes ----

  /** An awake client's session: only what Forward changes differs later. */
  predicate Draining(r: Session, ms: seq<GwPublish>) {
    && r.pending.None? && r.s.status == Awake && r.s.stored == [] && r.s.events == Requeued(ms) && !r.s.crashed
  }

  predicate AnyNeedsRegister(t: Table, ms: seq<GwPublish>) { exists m :: m in ms && NeedsRegister(t, m) }

  lemma ForwardOne(s: State, m: GwPublish)
    requires s.status == Awake && !s.crashed
    ensures var t := HandlePublish(s, m);
            && t.status == Awake && t.stored == s.stored && t.events == s.events && t.hold == s.hold
            && NoPingSince(s, t)
            && (!t.crashed ==> |t.waiting| == |s.waiting| + (if NeedsRegister(s.topics, m) then 1 else 0))
            && s.waiting <= t.waiting
            && (!NeedsRegister(s.topics, m) ==> t.topics == s.topics && t.waiting == s.waiting)
  {
  }

  lemma {:induction false} DrainAll(gw: Table, r: Session, ms: seq<GwPublish>)
    requires Draining(r, ms) && Exec(gw, r, Dispatches(|ms|)).Some?
    requires !Exec(gw, r, Dispatches(|ms|)).value.s.crashed
    ensures var t := Exec(gw, r, Dispatches(|ms|)).value;
            && Draining(t, []) && t.s.hold == r.s.hold && NoPingSince(r.s, t.s)
            && r.s.waiting <= t.s.waiting && |t.s.waiting| <= |r.s.waiting| + |ms|
            && (|t.s.waiting| > |r.s.waiting| <==> AnyNeedsRegister(r.s.topics, ms))
    decreases |ms|
  {
    if ms != [] {
      var s, m := Popped(r.s), ms[0];
      ForwardOne(s, m);
      var n := Next(gw, r, Dispatch);
      assert n.s == HandlePublish(s, m);
      assert Requeued(ms)[1..] == Requeued(ms[1..]);
      ExecFirst(gw, r, n, Dispatches(|ms|));
      if !n.s.crashed {
        DrainAll(gw, n, ms[1..]);
        NoPingTwice(r.s, n.s, Exec(gw, r, Dispatches(|ms|)).value.s);
        FirstOrRest(r.s.topics, ms);
      }
    }
  }

  lemma FirstOrRest(t: Table, ms: seq<GwPublish>)
    requires ms != []
    ensures AnyNeedsRegister(t, ms) <==> NeedsRegister(t, ms[0]) || AnyNeedsRegister(t, ms[1..])
  {
    assert ms == [ms[0]] + ms[1..];
  }

  // ---- the REGACKs ----

  /** How many of the answers for `n` waiting PUBLISHes it takes until a held PINGREQ is passed on: until
      a multiple of 256 remains. */
  function Needed(n: nat): nat
    requires n >= 1
  {
    (n - 1) % 256 + 1
  }

  lemma AnswerOne(gw: Table, r: Session)
    requires Draining(r, []) && r.s.waiting != []
    ensures var w := r.s.waiting;
            var t := Exec(gw, r, [ClientSends(Regack(w[0].regackMsgId)), Dispatch, Update]);
            && t.Some? && Draining(t.value, []) && t.value.s.waiting == w[1..]
            && t.value.s.hold == (r.s.hold && Needed(|w|) > 1)
            && t.value.s.toBroker == r.s.toBroker + (if r.s.hold && Needed(|w|) == 1 then [PingBroker] else [])
  {
    var w := r.s.waiting;
    var turn := FromC(Regack(w[0].regackMsgId));
    assert ByRegack(w[0].regackMsgId)(w[0]);
    assert WithoutFirst(w, w[0].regackMsgId) == w[1..];
    TurnRuns(gw, r.s, turn);
  }

  lemma OneLess(n: nat)
    requires n >= 2 && Needed(n) > 1
    ensures Needed(n - 1) == Needed(n) - 1
  {
  }

  /** After the first `k` answers a held PINGREQ has been passed on if and only if `k` has reached the
      number needed. */
  lemma {:induction false} AnswerSome(gw: Table, r: Session, k: nat)
    requires Draining(r, []) && k <= |r.s.waiting|
    ensures var w := r.s.waiting;
            var t := Exec(gw, r, Answers(w[..k]));
            var passed := r.s.hold && w != [] && k >= Needed(|w|);
            && t.Some? && Draining(t.value, []) && t.value.s.waiting == w[k..]
            && t.value.s.hold == (r.s.hold && !passed)
            && t.value.s.toBroker == r.s.toBroker + (if passed then [PingBroker] else [])
    decreases k
  {
    var w := r.s.waiting;
    if k > 0 {
      var first := [ClientSends(Regack(w[0].regackMsgId)), Dispatch, Update];
      AnswerOne(gw, r);
      var n := Exec(gw, r, first).value;
      assert w[..k][1..] == w[1..][..k - 1];
      ExecConcat(gw, r, first, Answers(w[1..][..k - 1]));
      AnswerSome(gw, n, k - 1);
      if |w| >= 2 && Needed(|w|) > 1 { OneLess(|w|); }
    }
  }

  // ---- the whole exchange ----

  /** PINGREQ and status update, then one event for each stored PUBLISH. */
  function DrainActs(s: State): seq<Act> { [Dispatch, Update] + Dispatches(|s.stored|) }

  /** A dozing client whose PINGREQ is next, with PUBLISHes stored and nothing else queued. */
  predicate AboutToPing(r: Session) {
    && r.pending.None? && Dozing(r.s) && !r.s.crashed && r.s.events == [ClientRecv(Pingreq)]
    && 0 < |r.s.stored| <= MAX_SAVED_PUBLISH
  }

  lemma PingDrains(gw: Table, r: Session)
    requires AboutToPing(r)
    ensures var t := Exec(gw, r, [Dispatch, Update]);
            && t.Some? && Draining(t.value, r.s.stored) && t.value.s.hold && t.value.s.toBroker == r.s.toBroker
            && t.value.s.waiting == r.s.waiting && t.value.s.topics == r.s.topics
  {
    var s1 := HandlePingreq(Popped(r.s));
    var n := Session(s1, Some(Pingreq));
    assert r.s.stored[..|r.s.stored|] == r.s.stored;
    assert s1.events == [] + Requeued(r.s.stored) == Requeued(r.s.stored);
    ExecFirst(gw, r, n, [Dispatch, Update]);
    var t := Session(UpdateStatus(s1, Pingreq), None);
    ExecFirst(gw, n, t, [Dispatch, Update][1..]);
  }

  lemma PingDrained(gw: Table, r: Session)
    requires AboutToPing(r)
    requires Exec(gw, r, DrainActs(r.s)).Some? && !Exec(gw, r, DrainActs(r.s)).value.s.crashed
    ensures var d := Exec(gw, r, DrainActs(r.s)).value;
            && Draining(d, []) && d.s.hold && NoPingSince(r.s, d.s)
            && |r.s.waiting| <= |d.s.waiting| <= |r.s.waiting| + |r.s.stored|
            && (|d.s.waiting| > |r.s.waiting| <==> AnyNeedsRegister(r.s.topics, r.s.stored))
  {
    PingDrains(gw, r);
    ExecConcat(gw, r, [Dispatch, Update], Dispatches(|r.s.stored|));
    DrainAll(gw, Exec(gw, r, [Dispatch, Update]).value, r.s.stored);
  }

  lemma AllAnswered(gw: Table, d: Session)
    requires Draining(d, []) && d.s.hold
    ensures var t := Exec(gw, d, Answers(d.s.waiting));
            && t.Some? && t.value.s.waiting == [] && (t.value.s.hold <==> d.s.waiting == [])
            && t.value.s.toBroker == d.s.toBroker + (if d.s.waiting == [] then [] else [PingBroker])
  {
    var w := d.s.waiting;
    assert w[..|w|] == w && w[|w|..] == [];
    AnswerSome(gw, d, |w|);
  }

  lemma OnePing(s: State, d: State, t: State, due: bool)
    requires NoPingSince(s, d) && t.toBroker == d.toBroker + (if due then [PingBroker] else [])
    ensures NoPingSince(s, t) <==> !due
  {
    if due { assert t.toBroker[|d.toBroker|] == PingBroker; }
  }

  /** For every dozing client: once its stored PUBLISHes have been dealt with, the PINGREQ is held and has not
      been forwarded. After every PUBLISH that waits is answered for, it has been forwarded if and only if one
      waited before, or one of the stored was for a topic that only a wildcard explains; otherwise no answer
      is due, and it stays held. */
  lemma PingForwardedIff(gw: Table, r: Session)
    requires AboutToPing(r)
    requires Exec(gw, r, DrainActs(r.s)).Some? && !Exec(gw, r, DrainActs(r.s)).value.s.crashed
    ensures var d := Exec(gw, r, DrainActs(r.s)).value;
            var t := Exec(gw, d, Answers(d.s.waiting));
            var due := r.s.waiting != [] || AnyNeedsRegister(r.s.topics, r.s.stored);
            && Draining(d, []) && d.s.hold && NoPingSince(r.s, d.s)
            && t.Some? && t.value.s.waiting == []
            && (NoPingSince(r.s, t.value.s) <==> !due) && (t.value.s.hold <==> !due) && (d.s.waiting == [] <==> !due)
  {
    PingDrained(gw, r);
    var d := Exec(gw, r, DrainActs(r.s)).value;
    AllAnswered(gw, d);
    OnePing(r.s, d.s, Exec(gw, d, Answers(d.s.waiting)).value.s, d.s.waiting != []);
  }

  /** The count of the waiting PUBLISHes has eight bits. For every awake client whose PINGREQ is held: after the
      first `k` answers it has been forwarded exactly when `k` is at least the number needed; and this happens
      while PUBLISHes still wait if and only if there were more than 256. */
  lemma PassedEarlyIff(gw: Table, r: Session, k: nat)
    requires Draining(r, []) && r.s.hold && r.s.waiting != [] && k <= |r.s.waiting|
    ensures var w := r.s.waiting;
            var t := Exec(gw, r, Answers(w[..k]));
            && t.Some? && |t.value.s.waiting| == |w| - k
            && (NoPingSince(r.s, t.value.s) <==> k < Needed(|w|))
            && (Needed(|w|) < |w| <==> |w| > 256)
  {
    AnswerSome(gw, r, k);
    var t := Exec(gw, r, Answers(r.s.waiting[..k])).value;
    if k < Needed(|r.s.waiting|) {
      assert t.s.toBroker == r.s.toBroker;
    } else {
      assert t.s.toBroker[|r.s.toBroker|] == PingBroker;
    }
  }

  /** With room in the topic table for all that is stored, the gateway survives the exchange. */
  lemma {:induction false} DrainSurvives(gw: Table, r: Session, ms: seq<GwPublish>)
    requires Draining(r, ms) && |r.s.topics.entries| + |ms| <= MAX_TOPIC_PAR_CLIENT
    ensures Exec(gw, r, Dispatches(|ms|)).Some? && !Exec(gw, r, Dispatches(|ms|)).value.s.crashed
    decreases |ms|
  {
    if ms != [] {
      var s, m := Popped(r.s), ms[0];
      ForwardOne(s, m);
      ForwardGrows(s, m);
      var n := Next(gw, r, Dispatch);
      assert n.s == HandlePublish(s, m);
      assert Requeued(ms)[1..] == Requeued(ms[1..]);
      ExecFirst(gw, r, n, Dispatches(|ms|));
      DrainSurvives(gw, n, ms[1..]);
    }
  }

  lemma ForwardGrows(s: State, m: GwPublish)
    requires s.status == Awake && !s.crashed && |s.topics.entries| < MAX_TOPIC_PAR_CLIENT
    ensures !HandlePublish(s, m).crashed
    ensures |HandlePublish(s, m).topics.entries| <= |s.topics.entries| + 1
  {
  }

  lemma PingSurvives(gw: Table, r: Session)
    requires AboutToPing(r) && |r.s.topics.entries| + |r.s.stored| <= MAX_TOPIC_PAR_CLIENT
    ensures Exec(gw, r, DrainActs(r.s)).Some? && !Exec(gw, r, DrainActs(r.s)).value.s.crashed
  {
    PingDrains(gw, r);
    ExecConcat(gw, r, [Dispatch, Update], Dispatches(|r.s.stored|));
    DrainSurvives(gw, Exec(gw, r, [Dispatch, Update]).value, r.s.stored);
  }

  // ---- a PINGREQ that is never forwarded ----

  /** CONNECT, CONNACK, REGISTER for "abc", and to sleep, where a PUBLISH for "abc" arrives. */
  const SLEEP: seq<Turn> := [
    FromC(Connect(false, false)), FromB(BrokerConnack(0)), FromC(Register(1, "abc")), FromC(Disconnect(60)),
    FromB(BrokerPublish(ToAbc([])))]

  /** The client registers "abc" as its first topic. */
  lemma RegistersAbc(s: State)
    requires s.topics == EMPTY && s.status == Active
    ensures HandleRegister(s, 1, "abc") == s.(topics := Table([Entry(NORMAL, 1, "abc")], 1),
                                              toClient := s.toClient + [SendRegack(1, 1, RC_ACCEPTED)])
  {
    assert CStr("abc") == "abc" by {
      assert '\0' !in "abc";
    }
  }

  lemma FallsAsleep(s: State)
    requires s.status == Active
    ensures UpdateStatus(HandleDisconnect(s, 60), Disconnect(60))
            == s.(status := Asleep, toClient := s.toClient + [SendDisconnect])
  {
  }

  function JoinedWithAbc(s: State): State {
    HandleRegister(HandleConnack(HandleConnect(s, false, false), 0), 1, "abc")
  }

  lemma JoinsWithAbc(gw: Table, s: State)
    requires Fresh(s) && s.stored == [] && s.toBroker == []
    ensures var t := JoinedWithAbc(s);
            && Talk(gw, s, SLEEP) == Talk(gw, t, SLEEP[3..])
            && Idle(t) && t.status == Active && t.waiting == [] && t.stored == []
            && t.topics.entries == [Entry(NORMAL, 1, "abc")] && t.toBroker == [ConnectBroker]
  {
    var s1 := HandleConnect(s, false, false);
    TalkStep(gw, s, SLEEP, s1);
    var s2 := HandleConnack(s1, 0);
    TalkStep(gw, s1, SLEEP[1..], s2);
    RegistersAbc(s2);
    TalkStep(gw, s2, SLEEP[2..], HandleRegister(s2, 1, "abc"));
  }

  lemma Sleeps(gw: Table, s: State)
    requires Fresh(s) && s.stored == [] && s.toBroker == []
    ensures var t := Talk(gw, s, SLEEP);
            && t.Some? && Idle(t.value) && t.value.status == Asleep && t.value.waiting == []
            && t.value.stored == [ToAbc([])] && t.value.topics.entries == [Entry(NORMAL, 1, "abc")]
            && t.value.toBroker == [ConnectBroker]
  {
    JoinsWithAbc(gw, s);
    var s3 := JoinedWithAbc(s);
    FallsAsleep(s3);
    var s4 := s3.(status := Asleep, toClient := s3.toClient + [SendDisconnect]);
    TalkStep(gw, s3, SLEEP[3..], s4);
    TalkStep(gw, s4, SLEEP[4..], HandlePublish(s4, ToAbc([])));
  }

  predicate PingStuck(s: State) {
    && s.status == Awake && s.hold && s.waiting == [] && s.stored == [] && s.events == []
    && PingBroker !in s.toBroker
  }

  lemma PingSticks(gw: Table, s: State) returns (acts: seq<Act>)
    requires Fresh(s) && s.stored == [] && s.toBroker == []
    ensures Exec(gw, Session(s, None), acts).Some? && PingStuck(Exec(gw, Session(s, None), acts).value.s)
  {
    Sleeps(gw, s);
    TalkRuns(gw, s, SLEEP);
    var s1 := Talk(gw, s, SLEEP).value;
    var r := Next(gw, Session(s1, None), ClientSends(Pingreq));
    assert s1.events + [ClientRecv(Pingreq)] == [ClientRecv(Pingreq)];
    PingSurvives(gw, r);
    PingForwardedIff(gw, r);
    assert FindName(s1.topics.entries, "abc").Some?;
    assert !AnyNeedsRegister(r.s.topics, r.s.stored);
    acts := TalkActs(SLEEP) + ([ClientSends(Pingreq)] + DrainActs(r.s));
    ExecConcat(gw, Session(s, None), TalkActs(SLEEP), [ClientSends(Pingreq)] + DrainActs(r.s));
    ExecFirst(gw, Session(s1, None), r, [ClientSends(Pingreq)] + DrainActs(r.s));
    assert ([ClientSends(Pingreq)] + DrainActs(r.s))[1..] == DrainActs(r.s);
  }

  /** A run in which the drain leaves the PINGREQ held with no REGACK to come. */
  lemma PingUnanswered() returns (acts: seq<Act>)
    ensures Exec(EMPTY, Start(EMPTY), acts).Some? && PingStuck(Exec(EMPTY, Start(EMPTY), acts).value.s)
  {
    acts := PingSticks(EMPTY, INITIAL);
  }
}
