/** Runs from the start in which a promise fails: a PUBLISH acknowledged and lost, a crash over a full
    topic table, a PINGREQ passed on too early. */
module SessionExamples {
  import opened SortedMap
  import opened LinkedQueue
  import opened LinkedTable
  import opened TopicTable
  import TopicIds
  import opened SessionModel
  import opened SessionRuns
  import opened SessionTalk
  import opened SessionPing

  // ---- asleep ----

  const DOZE: seq<Turn> := [FromC(Connect(false, false)), FromB(BrokerConnack(0)), FromC(Disconnect(60))]

  /** Asleep, with nothing under way. */
  predicate Sleeping(s: State) {
    && Idle(s) && s.status == Asleep && s.waiting == [] && s.stored == [] && s.pubIds == []
    && s.toBroker == [ConnectBroker] && s.toClient == [SendConnack(RC_ACCEPTED), SendDisconnect]
  }

  lemma Dozes(gw: Table, s: State)
    requires Fresh(s) && s.stored == [] && s.pubIds == [] && s.toBroker == []
    ensures Talk(gw, s, DOZE).Some? && Sleeping(Talk(gw, s, DOZE).value)
  {
    var s1 := HandleConnect(s, false, false);
    TalkStep(gw, s, DOZE, s1);
    var s2 := HandleConnack(s1, 0);
    TalkStep(gw, s1, DOZE[1..], s2);
    FallsAsleep(s2);
    TalkStep(gw, s2, DOZE[2..], UpdateStatus(HandleDisconnect(s2, 60), Disconnect(60)));
  }

  function Numbered(k: nat): GwPublish { GwPublish(false, 1, false, "abc", k, []) }

  // ---- acknowledged, saved, drained and ignored ----

  function Arrivals(m: GwPublish): seq<Act> {
    [BrokerSends(BrokerPublish(m)), ClientSends(Pingreq), ClientSends(Disconnect(0))]
  }

  const DRAIN: seq<Act> := [Dispatch, Dispatch, Update]
  const LEAVE: seq<Act> := [Dispatch, Update, Dispatch]

  /** The broker has its PUBACK, the client got nothing, and the PUBLISH is nowhere. */
  predicate LostForGood(s: State) {
    && s.toBroker == [ConnectBroker, PubackBroker(9), DisconnectBroker]
    && s.toClient == [SendConnack(RC_ACCEPTED), SendDisconnect, SendDisconnect]
    && s.stored == [] && s.events == [] && s.waiting == []
  }

  /** A PUBLISH, a PINGREQ and a DISCONNECT are queued. */
  lemma Arrive(gw: Table, s: State, m: GwPublish)
    requires Idle(s)
    ensures Exec(gw, Session(s, None), Arrivals(m))
            == Some(Session(s.(events := [BrokerRecv(BrokerPublish(m)), ClientRecv(Pingreq),
                                          ClientRecv(Disconnect(0))]), None))
  {
    var acts := Arrivals(m);
    var publish, ping, bye := BrokerRecv(BrokerPublish(m)), ClientRecv(Pingreq), ClientRecv(Disconnect(0));
    var s1, s2, s3 := s.(events := [publish]), s.(events := [publish, ping]), s.(events := [publish, ping, bye]);
    ExecFirst(gw, Session(s, None), Session(s1, None), acts);
    ExecFirst(gw, Session(s1, None), Session(s2, None), acts[1..]);
    ExecFirst(gw, Session(s2, None), Session(s3, None), acts[2..]);
  }

  /** The PUBLISH is saved and acknowledged, and the PINGREQ drains it behind the DISCONNECT. */
  lemma SavedAndDrained(gw: Table, s: State, m: GwPublish, ping: Event, bye: Event)
    requires s.status == Asleep && !s.crashed && s.stored == [] && m.qos == 1
    requires s.events == [BrokerRecv(BrokerPublish(m)), ping, bye] && ping == ClientRecv(Pingreq)
    ensures Exec(gw, Session(s, None), DRAIN)
            == Some(Session(s.(status := Awake, hold := true, toBroker := s.toBroker + [PubackBroker(m.msgId)],
                               events := [bye, BrokerRecv(BrokerPublish(m))]), None))
  {
    var s4 := s.(events := [ping, bye], stored := [m], toBroker := s.toBroker + [PubackBroker(m.msgId)]);
    ExecFirst(gw, Session(s, None), Session(s4, None), DRAIN);
    var s5 := s4.(events := [bye, BrokerRecv(BrokerPublish(m))], stored := [], hold := true);
    assert Requeued([m][..1]) == [BrokerRecv(BrokerPublish(m))];
    ExecFirst(gw, Session(s4, None), Session(s5, Some(Pingreq)), DRAIN[1..]);
    ExecFirst(gw, Session(s5, Some(Pingreq)), Session(s5.(status := Awake), None), DRAIN[2..]);
  }

  /** The DISCONNECT is handled, and then nobody wants the PUBLISH. */
  lemma LeftAndIgnored(gw: Table, s: State, m: GwPublish)
    requires s.status == Awake && !s.crashed && s.events == [ClientRecv(Disconnect(0)), BrokerRecv(BrokerPublish(m))]
    ensures Exec(gw, Session(s, None), LEAVE)
            == Some(Session(s.(status := Disconnected, toBroker := s.toBroker + [DisconnectBroker],
                               toClient := s.toClient + [SendDisconnect], events := []), None))
  {
    var s1 := s.(toBroker := s.toBroker + [DisconnectBroker], toClient := s.toClient + [SendDisconnect],
                 events := [BrokerRecv(BrokerPublish(m))]);
    ExecFirst(gw, Session(s, None), Session(s1, Some(Disconnect(0))), LEAVE);
    var s2 := s1.(status := Disconnected);
    ExecFirst(gw, Session(s1, Some(Disconnect(0))), Session(s2, None), LEAVE[1..]);
    ExecFirst(gw, Session(s2, None), Session(s2.(events := []), None), LEAVE[2..]);
  }

  lemma SleepsAndLeaves(gw: Table, s: State, m: GwPublish)
    requires Sleeping(s) && m.qos == 1 && m.msgId == 9
    ensures var t := Exec(gw, Session(s, None), Arrivals(m) + DRAIN + LEAVE); t.Some? && LostForGood(t.value.s)
  {
    Arrive(gw, s, m);
    var r1 := Exec(gw, Session(s, None), Arrivals(m)).value;
    SavedAndDrained(gw, r1.s, m, ClientRecv(Pingreq), ClientRecv(Disconnect(0)));
    ExecConcat(gw, Session(s, None), Arrivals(m), DRAIN);
    var r2 := Exec(gw, r1, DRAIN).value;
    LeftAndIgnored(gw, r2.s, m);
    ExecConcat(gw, Session(s, None), Arrivals(m) + DRAIN, LEAVE);
  }

  lemma LeaveLoses(gw: Table, s: State, m: GwPublish) returns (acts: seq<Act>)
    requires Fresh(s) && s.stored == [] && s.pubIds == [] && s.toBroker == [] && m.qos == 1 && m.msgId == 9
    ensures Exec(gw, Session(s, None), acts).Some? && LostForGood(Exec(gw, Session(s, None), acts).value.s)
  {
    Dozes(gw, s);
    TalkRuns(gw, s, DOZE);
    SleepsAndLeaves(gw, Talk(gw, s, DOZE).value, m);
    acts := TalkActs(DOZE) + (Arrivals(m) + DRAIN + LEAVE);
    ExecConcat(gw, Session(s, None), TalkActs(DOZE), Arrivals(m) + DRAIN + LEAVE);
  }

  /** A QoS 1 PUBLISH is acknowledged and saved; the PINGREQ behind it puts it back in the event queue, where a
      DISCONNECT is already waiting. It is ignored, although fewer than twenty were ever saved. */
  lemma AcknowledgedThenIgnored() returns (acts: seq<Act>)
    ensures Exec(EMPTY, Start(EMPTY), acts).Some? && LostForGood(Exec(EMPTY, Start(EMPTY), acts).value.s)
  {
    acts := LeaveLoses(EMPTY, INITIAL, Numbered(9));
  }

  // ---- twenty saved ----

  function Saves(k: nat): (turns: seq<Turn>)
    ensures |turns| == k
  {
    if k == 0 then [] else Saves(k - 1) + [FromB(BrokerPublish(Numbered(k)))]
  }

  /** `k` PUBLISHes have been saved and acknowledged. */
  predicate Saved(s: State, k: nat) {
    Idle(s) && s.status == Asleep && |s.stored| == k && forall m :: m in s.stored ==> m.msgId <= k
  }

  lemma {:induction false} SavesMany(gw: Table, s: State, k: nat)
    requires Sleeping(s) && k <= MAX_SAVED_PUBLISH
    ensures Talk(gw, s, Saves(k)).Some? && Saved(Talk(gw, s, Saves(k)).value, k)
    decreases k
  {
    if k > 0 {
      SavesMany(gw, s, k - 1);
      var t := Talk(gw, s, Saves(k - 1)).value;
      SavesOne(gw, t, k);
      TalkConcat(gw, s, Saves(k - 1), [FromB(BrokerPublish(Numbered(k)))]);
    }
  }

  lemma SavesOne(gw: Table, s: State, k: nat)
    requires 1 <= k <= MAX_SAVED_PUBLISH && Saved(s, k - 1)
    ensures var t := Talk(gw, s, [FromB(BrokerPublish(Numbered(k)))]); t.Some? && Saved(t.value, k)
  {
    TalkStep(gw, s, [FromB(BrokerPublish(Numbered(k)))], HandlePublish(s, Numbered(k)));
  }

  /** The last thing the broker got is the acknowledgement of a PUBLISH that was not saved. */
  predicate OneTooMany(s: State) {
    && s.status == Asleep && |s.stored| == MAX_SAVED_PUBLISH && s.toBroker != []
    && s.toBroker[|s.toBroker| - 1] == PubackBroker(21) && s.events == []
    && forall m :: m in s.stored ==> m.msgId != 21
  }

  lemma DiscardsOne(gw: Table, s: State)
    requires Saved(s, MAX_SAVED_PUBLISH)
    ensures var t := Talk(gw, s, [FromB(BrokerPublish(Numbered(21)))]); t.Some? && OneTooMany(t.value)
  {
    TalkStep(gw, s, [FromB(BrokerPublish(Numbered(21)))], HandlePublish(s, Numbered(21)));
  }

  lemma DiscardsAfterTwenty(gw: Table, s: State) returns (turns: seq<Turn>)
    requires Fresh(s) && s.stored == [] && s.pubIds == [] && s.toBroker == []
    ensures Talk(gw, s, turns).Some? && OneTooMany(Talk(gw, s, turns).value)
  {
    var k := MAX_SAVED_PUBLISH;
    var last := [FromB(BrokerPublish(Numbered(21)))];
    Dozes(gw, s);
    var s1 := Talk(gw, s, DOZE).value;
    SavesMany(gw, s1, k);
    TalkConcat(gw, s, DOZE, Saves(k));
    DiscardsOne(gw, Talk(gw, s1, Saves(k)).value);
    TalkConcat(gw, s, DOZE + Saves(k), last);
    turns := DOZE + Saves(k) + last;
  }

  /** The twenty-first PUBLISH for a sleeping client is acknowledged and thrown away. */
  lemma TwentySaved() returns (acts: seq<Act>)
    ensures Exec(EMPTY, Start(EMPTY), acts).Some? && OneTooMany(Exec(EMPTY, Start(EMPTY), acts).value.s)
  {
    var turns := DiscardsAfterTwenty(EMPTY, INITIAL);
    TalkRuns(EMPTY, INITIAL, turns);
    acts := TalkActs(turns);
  }

  // ---- one topic too many ----

  const WAKE: seq<Turn> := [FromC(Connect(false, false)), FromB(BrokerConnack(0))]

  function Name(k: nat): (s: string)
    ensures |s| == k && '\0' !in s
  {
    seq(k, _ => 'a')
  }

  function Registers(k: nat): (turns: seq<Turn>)
    ensures |turns| == k
  {
    if k == 0 then [] else Registers(k - 1) + [FromC(Register(1, Name(k)))]
  }

  /** `k` names are registered, none of them longer. */
  predicate Filled(s: State, k: nat) {
    Idle(s) && s.status == Active && |s.topics.entries| == k && forall e :: e in s.topics.entries ==> |e.name| <= k
  }

  lemma Wakes(gw: Table, s: State)
    requires Fresh(s)
    ensures Talk(gw, s, WAKE).Some? && Filled(Talk(gw, s, WAKE).value, 0)
    ensures Talk(gw, s, WAKE).value.pubIds == s.pubIds
  {
    var s1 := HandleConnect(s, false, false);
    TalkStep(gw, s, WAKE, s1);
    TalkStep(gw, s1, WAKE[1..], HandleConnack(s1, 0));
  }

  lemma NameIsNew(s: State, k: nat, n: nat)
    requires Filled(s, k) && n > k
    ensures FindName(s.topics.entries, Name(n)).None? && CStr(Name(n)) == Name(n)
  {
  }

  lemma RegistersOne(gw: Table, s: State, k: nat)
    requires 1 <= k <= MAX_TOPIC_PAR_CLIENT && Filled(s, k - 1)
    ensures var t := Talk(gw, s, [FromC(Register(1, Name(k)))]); t.Some? && Filled(t.value, k)
  {
    NameIsNew(s, k - 1, k);
    var t := HandleRegister(s, 1, Name(k));
    TalkStep(gw, s, [FromC(Register(1, Name(k)))], t);
  }

  lemma {:induction false} RegistersMany(gw: Table, s: State, k: nat)
    requires Filled(s, 0) && k <= MAX_TOPIC_PAR_CLIENT
    ensures Talk(gw, s, Registers(k)).Some? && Filled(Talk(gw, s, Registers(k)).value, k)
    decreases k
  {
    if k > 0 {
      RegistersMany(gw, s, k - 1);
      RegistersOne(gw, Talk(gw, s, Registers(k - 1)).value, k);
      TalkConcat(gw, s, Registers(k - 1), [FromC(Register(1, Name(k)))]);
    }
  }

  lemma OneMoreCrashes(gw: Table, s: State, n: nat)
    requires Filled(s, MAX_TOPIC_PAR_CLIENT) && n > MAX_TOPIC_PAR_CLIENT
    ensures var t := Exec(gw, Session(s, None), [ClientSends(Register(1, Name(n))), Dispatch]);
            t.Some? && t.value.s.crashed
  {
    NameIsNew(s, MAX_TOPIC_PAR_CLIENT, n);
    var acts := [ClientSends(Register(1, Name(n))), Dispatch];
    var r1 := Session(s.(events := [ClientRecv(Register(1, Name(n)))]), None);
    ExecFirst(gw, Session(s, None), r1, acts);
    ExecFirst(gw, r1, Next(gw, r1, Dispatch), acts[1..]);
    CrashIff(gw, r1, Dispatch);
  }

  lemma FillsAndCrashes(gw: Table, s: State, k: nat) returns (acts: seq<Act>)
    requires Fresh(s) && k == MAX_TOPIC_PAR_CLIENT
    ensures Exec(gw, Session(s, None), acts).Some? && Exec(gw, Session(s, None), acts).value.s.crashed
  {
    Wakes(gw, s);
    var s1 := Talk(gw, s, WAKE).value;
    RegistersMany(gw, s1, k);
    TalkConcat(gw, s, WAKE, Registers(k));
    TalkRuns(gw, s, WAKE + Registers(k));
    var last := [ClientSends(Register(1, Name(k + 1))), Dispatch];
    OneMoreCrashes(gw, Talk(gw, s1, Registers(k)).value, k + 1);
    acts := TalkActs(WAKE + Registers(k)) + last;
    ExecConcat(gw, Session(s, None), TalkActs(WAKE + Registers(k)), last);
  }

  /** A client registers fifty-one names: the gateway is gone. */
  lemma FullTable() returns (acts: seq<Act>)
    ensures Exec(EMPTY, Start(EMPTY), acts).Some? && Exec(EMPTY, Start(EMPTY), acts).value.s.crashed
  {
    acts := FillsAndCrashes(EMPTY, INITIAL, MAX_TOPIC_PAR_CLIENT);
  }

  // ---- a PINGREQ passed on while 256 PUBLISHes wait ----

  /** `k` PUBLISHes wait, and the session has just begun anew. */
  ghost predicate Piled(s: State, k: nat) { Joined(s) && |s.waiting| == k && !s.hold && s.stored == [] }

  lemma PilesOne(gw: Table, s: State, k: nat, payload: Bytes)
    requires Piled(s, k)
    ensures var turns := [FromB(BrokerPublish(ToAbc(payload)))] + REJOIN;
            Talk(gw, s, turns).Some? && Piled(Talk(gw, s, turns).value, k + 1)
  {
    var publish := [FromB(BrokerPublish(ToAbc(payload)))];
    Holds(gw, s, payload);
    SessionTalk.Joins(gw, Talk(gw, s, publish).value, true);
    TalkConcat(gw, s, publish, REJOIN);
  }

  lemma {:induction false} PilesMany(gw: Table, s: State, k: nat, payload: Bytes) returns (turns: seq<Turn>)
    requires Piled(s, 0)
    ensures Talk(gw, s, turns).Some? && Piled(Talk(gw, s, turns).value, k)
    decreases k
  {
    if k == 0 {
      turns := [];
    } else {
      var before := PilesMany(gw, s, k - 1, payload);
      var round := [FromB(BrokerPublish(ToAbc(payload)))] + REJOIN;
      PilesOne(gw, Talk(gw, s, before).value, k - 1, payload);
      TalkConcat(gw, s, before, round);
      turns := before + round;
    }
  }

  /** Asleep, with `k` PUBLISHes waiting and one stored that a wildcard explains. */
  ghost predicate PiledAsleep(s: State, k: nat) {
    && Idle(s) && s.status == Asleep && |s.waiting| == k && !s.hold && |s.stored| == 1 && |s.topics.entries| == 1
    && NeedsRegister(s.topics, s.stored[0])
  }

  lemma PileSleeps(gw: Table, s: State, k: nat, m: GwPublish)
    requires Piled(s, k) && NeedsRegister(s.topics, m)
    ensures var t := Talk(gw, s, [FromC(Disconnect(60)), FromB(BrokerPublish(m))]);
            t.Some? && PiledAsleep(t.value, k)
  {
    var turns := [FromC(Disconnect(60)), FromB(BrokerPublish(m))];
    FallsAsleep(s);
    var s1 := s.(status := Asleep, toClient := s.toClient + [SendDisconnect]);
    TalkStep(gw, s, turns, s1);
    TalkStep(gw, s1, turns[1..], HandlePublish(s1, m));
  }

  /** The PINGREQ is with the broker, and `k` PUBLISHes still wait. */
  predicate PassedEarly(s: State, k: nat) {
    |s.waiting| == k && !s.hold && s.toBroker != [] && s.toBroker[|s.toBroker| - 1] == PingBroker
  }

  /** The PINGREQ drains the stored PUBLISH, which is held like the others. */
  lemma PileDrains(gw: Table, s: State, k: nat)
    requires PiledAsleep(s, k)
    ensures var r := Session(s.(events := [ClientRecv(Pingreq)]), None);
            var d := Exec(gw, r, DrainActs(r.s));
            d.Some? && Draining(d.value, []) && d.value.s.hold && |d.value.s.waiting| == k + 1
  {
    var r := Session(s.(events := [ClientRecv(Pingreq)]), None);
    PingSurvives(gw, r);
    PingDrained(gw, r);
    assert r.s.stored[0] in r.s.stored;
  }

  lemma PilePings(gw: Table, s: State, k: nat) returns (acts: seq<Act>)
    requires PiledAsleep(s, k) && k == 256
    ensures Exec(gw, Session(s, None), acts).Some? && PassedEarly(Exec(gw, Session(s, None), acts).value.s, k)
  {
    var r := Session(s.(events := [ClientRecv(Pingreq)]), None);
    PileDrains(gw, s, k);
    var d := Exec(gw, r, DrainActs(r.s)).value;
    AnswerSome(gw, d, 1);
    var answer := Answers(d.s.waiting[..1]);
    ExecConcat(gw, r, DrainActs(r.s), answer);
    acts := [ClientSends(Pingreq)] + (DrainActs(r.s) + answer);
    ExecFirst(gw, Session(s, None), r, acts);
    assert acts[1..] == DrainActs(r.s) + answer;
  }

  lemma PilesAndPings(gw: Table, s: State) returns (acts: seq<Act>)
    requires Fresh(s) && s.stored == []
    ensures Exec(gw, Session(s, None), acts).Some? && PassedEarly(Exec(gw, Session(s, None), acts).value.s, 256)
  {
    SessionTalk.Joins(gw, s, false);
    var s1 := Talk(gw, s, JOIN).value;
    var pile := PilesMany(gw, s1, 256, []);
    TalkConcat(gw, s, JOIN, pile);
    var s2 := Talk(gw, s1, pile).value;
    var id :| s2.topics.entries == [Entry(NORMAL, id, "#")];
    AbcIsHeld(s2, id, []);
    var sleep := [FromC(Disconnect(60)), FromB(BrokerPublish(ToAbc([])))];
    PileSleeps(gw, s2, 256, ToAbc([]));
    TalkConcat(gw, s, JOIN + pile, sleep);
    TalkRuns(gw, s, JOIN + pile + sleep);
    var last := PilePings(gw, Talk(gw, s2, sleep).value, 256);
    acts := TalkActs(JOIN + pile + sleep) + last;
    ExecConcat(gw, Session(s, None), TalkActs(JOIN + pile + sleep), last);
  }

  /** A client that restarts 256 times before it answers has 256 PUBLISHes waiting; then a PINGREQ that is held
      for one more is passed on by the first answer. */
  lemma PingTooEarly() returns (acts: seq<Act>)
    ensures Exec(EMPTY, Start(EMPTY), acts).Some? && PassedEarly(Exec(EMPTY, Start(EMPTY), acts).value.s, 256)
  {
    acts := PilesAndPings(EMPTY, INITIAL);
  }

  // ---- a PUBACK that is not passed on ----

  function ToAb(qos: nat, k: nat): SnPublish { SnPublish(false, qos, false, ByShortName('a', 'b'), k, []) }

  /** A QoS 2 PUBLISH of the client and its whole handshake. */
  function Handshake(k: nat): seq<Turn> {
    [FromC(Publish(ToAb(2, k))), FromB(BrokerAck(PUBREC, k)), FromC(Ack(PUBREL, k)), FromB(BrokerAck(PUBCOMP, k))]
  }

  function Handshakes(k: nat): seq<Turn> { if k == 0 then [] else Handshakes(k - 1) + Handshake(k) }

  /** `k` records are kept, for the message ids up to `k`. */
  predicate Recorded(s: State, k: nat) {
    Idle(s) && s.status == Active && |s.pubIds| == k && forall r :: r in s.pubIds ==> r.msgId <= k
  }

  lemma RecordsOne(s: State, k: nat)
    requires 1 <= k <= 21 && Recorded(s, k - 1)
    ensures TopicIds.Insert(s.pubIds, TopicIds.IdRec(k, RefId(ByShortName('a', 'b')), SHORT))
            == s.pubIds + [TopicIds.IdRec(k, RefId(ByShortName('a', 'b')), SHORT)]
  {
    assert FirstIndex(s.pubIds, TopicIds.ById(k)) == |s.pubIds|;
  }

  lemma ShakesHands(gw: Table, s: State, k: nat)
    requires 1 <= k <= 21 && Recorded(s, k - 1)
    ensures Talk(gw, s, Handshake(k)).Some? && Recorded(Talk(gw, s, Handshake(k)).value, k)
  {
    var turns := Handshake(k);
    RecordsOne(s, k);
    var s1 := HandleClientPublish(s, gw, ToAb(2, k));
    TalkStep(gw, s, turns, s1);
    var s2 := ToC(s1, SendAck(PUBREC, k));
    TalkStep(gw, s1, turns[1..], s2);
    var s3 := ToB(s2, AckBroker(PUBREL, k));
    TalkStep(gw, s2, turns[2..], s3);
    TalkStep(gw, s3, turns[3..], ToC(s3, SendAck(PUBCOMP, k)));
  }

  lemma {:induction false} ShakesManyHands(gw: Table, s: State, k: nat)
    requires Recorded(s, 0) && k <= 21
    ensures Talk(gw, s, Handshakes(k)).Some? && Recorded(Talk(gw, s, Handshakes(k)).value, k)
    decreases k
  {
    if k > 0 {
      ShakesManyHands(gw, s, k - 1);
      ShakesHands(gw, Talk(gw, s, Handshakes(k - 1)).value, k);
      TalkConcat(gw, s, Handshakes(k - 1), Handshake(k));
    }
  }

  /** The broker answers a QoS 1 PUBLISH of the client, the last it was sent, and the client is not told. */
  predicate PubackDropped(gw: Table, r: Session) {
    && Enabled(r, Dispatch) && r.s.events[0] == BrokerRecv(BrokerPuback(22))
    && r.s.toBroker != [] && r.s.toBroker[|r.s.toBroker| - 1] == PublishBroker(ToGw(ToAb(1, 22), "ab"))
    && Next(gw, r, Dispatch).s.toClient == r.s.toClient
  }

  lemma DropsPuback(gw: Table, s: State)
    requires Recorded(s, 21)
    ensures var acts := TurnActs(FromC(Publish(ToAb(1, 22)))) + [BrokerSends(BrokerPuback(22))];
            var t := Exec(gw, Session(s, None), acts);
            t.Some? && PubackDropped(gw, t.value)
  {
    var turn := FromC(Publish(ToAb(1, 22)));
    var s1 := AfterTurn(gw, s, turn);
    TurnRuns(gw, s, turn);
    ExecConcat(gw, Session(s, None), TurnActs(turn), [BrokerSends(BrokerPuback(22))]);
    assert FirstIndex(s1.pubIds, TopicIds.ById(22)) == |s1.pubIds|;
  }

  lemma FillsAndDrops(gw: Table, s: State) returns (acts: seq<Act>)
    requires Fresh(s) && s.pubIds == []
    ensures Exec(gw, Session(s, None), acts).Some? && PubackDropped(gw, Exec(gw, Session(s, None), acts).value)
  {
    Wakes(gw, s);
    var s1 := Talk(gw, s, WAKE).value;
    ShakesManyHands(gw, s1, 21);
    TalkConcat(gw, s, WAKE, Handshakes(21));
    TalkRuns(gw, s, WAKE + Handshakes(21));
    DropsPuback(gw, Talk(gw, s1, Handshakes(21)).value);
    var last := TurnActs(FromC(Publish(ToAb(1, 22)))) + [BrokerSends(BrokerPuback(22))];
    acts := TalkActs(WAKE + Handshakes(21)) + last;
    ExecConcat(gw, Session(s, None), TalkActs(WAKE + Handshakes(21)), last);
  }

  /** Twenty-one QoS 2 handshakes have come to their ends; the PUBACK for a QoS 1 PUBLISH then gets lost. */
  lemma PubackLost() returns (acts: seq<Act>)
    ensures Exec(EMPTY, Start(EMPTY), acts).Some? && PubackDropped(EMPTY, Exec(EMPTY, Start(EMPTY), acts).value)
  {
    acts := FillsAndDrops(EMPTY, INITIAL);
  }
}
