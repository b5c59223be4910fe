/** Runs in which one packet is dealt with before the next arrives, and what such runs show. */
module SessionTalk {
  import opened SortedMap
  import opened LinkedQueue
  import opened LinkedTable
  import opened TopicFilter
  import opened TopicTable
  import opened SessionModel
  import opened SessionRuns

  datatype Turn = FromB(b: FromBroker) | FromC(c: FromClient)

  function TurnActs(turn: Turn): seq<Act> {
    match turn
    case FromB(b) => [BrokerSends(b), Dispatch]
    case FromC(c) => [ClientSends(c), Dispatch, Update]
  }

  function TalkActs(turns: seq<Turn>): seq<Act> {
    if turns == [] then [] else TurnActs(turns[0]) + TalkActs(turns[1..])
  }

  function HandledTurn(gw: Table, s: State, turn: Turn): State {
    match turn
    case FromB(b) => HandleBroker(s, b)
    case FromC(c) => HandleClient(s, gw, c)
  }

  function AfterTurn(gw: Table, s: State, turn: Turn): State {
    var t := HandledTurn(gw, s, turn);
    if turn.FromC? then UpdateStatus(t, turn.c) else t
  }

  /** Nothing is queued, and the gateway is alive. */
  predicate Idle(s: State) { s.events == [] && !s.crashed }

  lemma {:induction false} ExecConcat(gw: Table, r: Session, a: seq<Act>, b: seq<Act>)
    requires Exec(gw, r, a).Some?
    ensures Exec(gw, r, a + b) == Exec(gw, Exec(gw, r, a).value, b)
    decreases |a|
  {
    if a == [] {
      assert a + b == b;
    } else {
      assert (a + b)[1..] == a[1..] + b;
      ExecConcat(gw, Next(gw, r, a[0]), a[1..], b);
    }
  }

  lemma ExecFirst(gw: Table, r: Session, t: Session, acts: seq<Act>)
    requires acts != [] && Enabled(r, acts[0]) && Next(gw, r, acts[0]) == t
    ensures Exec(gw, r, acts) == Exec(gw, t, acts[1..])
  {
  }

  lemma TurnRuns(gw: Table, s: State, turn: Turn)
    requires Idle(s) && !HandledTurn(gw, s, turn).crashed
    ensures Exec(gw, Session(s, None), TurnActs(turn)) == Some(Session(AfterTurn(gw, s, turn), None))
  {
    var e := if turn.FromB? then BrokerRecv(turn.b) else ClientRecv(turn.c);
    var acts := TurnActs(turn);
    var s1 := s.(events := [e]);
    assert PostEvent(s, e) == s1 && Popped(s1) == s;
    ExecFirst(gw, Session(s, None), Session(s1, None), acts);
    var r2 := Session(HandledTurn(gw, s, turn), if turn.FromC? then Some(turn.c) else None);
    ExecFirst(gw, Session(s1, None), r2, acts[1..]);
    if turn.FromC? {
      ExecFirst(gw, r2, Session(AfterTurn(gw, s, turn), None), acts[2..]);
    }
  }

  /** The state after the turns, if nothing is ever left queued and the gateway lives. */
  function Talk(gw: Table, s: State, turns: seq<Turn>): Option<State>
    decreases |turns|
  {
    if turns == [] then Some(s)
    else if Idle(s) && !HandledTurn(gw, s, turns[0]).crashed then Talk(gw, AfterTurn(gw, s, turns[0]), turns[1..])
    else None
  }

  lemma {:induction false} TalkRuns(gw: Table, s: State, turns: seq<Turn>)
    requires Talk(gw, s, turns).Some?
    ensures Exec(gw, Session(s, None), TalkActs(turns)) == Some(Session(Talk(gw, s, turns).value, None))
    decreases |turns|
  {
    if turns != [] {
      TurnRuns(gw, s, turns[0]);
      TalkRuns(gw, AfterTurn(gw, s, turns[0]), turns[1..]);
      ExecConcat(gw, Session(s, None), TurnActs(turns[0]), TalkActs(turns[1..]));
    }
  }

  lemma TalkStep(gw: Table, s: State, turns: seq<Turn>, t: State)
    requires turns != [] && Idle(s) && !HandledTurn(gw, s, turns[0]).crashed && AfterTurn(gw, s, turns[0]) == t
    ensures Talk(gw, s, turns) == Talk(gw, t, turns[1..])
  {
  }

  // ---- an active client that has subscribed to everything ----

  function ToAbc(payload: Bytes): GwPublish { GwPublish(false, 0, false, "abc", 0, payload) }

  /** A PUBLISH for "abc" is not known by name, and "#" explains it. */
  lemma AbcIsHeld(s: State, id: nat, payload: Bytes)
    requires Listening(s) && s.topics.entries == [Entry(NORMAL, id, "#")]
    ensures var newId, t := NextTopicId(s.topics.next), HandlePublish(s, ToAbc(payload));
            && NeedsRegister(s.topics, ToAbc(payload))
            && t == HoldBack(s.(topics := Table([Entry(NORMAL, id, "#"), Entry(NORMAL, newId, "abc")], newId)),
                             newId, ToAbc(payload))
  {
    HashMatches("abc");
    assert CStr("abc") == "abc" by {
      assert '\0' !in "abc";
    }
    assert FindName(s.topics.entries, "abc") == None;
    assert s.topics.entries[0].name == "#";
    assert s.topics.entries + [Entry(NORMAL, NextTopicId(s.topics.next), "abc")]
        == [Entry(NORMAL, id, "#"), Entry(NORMAL, NextTopicId(s.topics.next), "abc")];
  }

  /** CONNECT without and with a clean session, CONNACK, SUBSCRIBE to everything. */
  const JOIN: seq<Turn> := [FromC(Connect(false, false)), FromB(BrokerConnack(0)), FromC(Subscribe(0, 1, Named("#")))]
  const REJOIN: seq<Turn> := [FromC(Connect(true, false)), FromB(BrokerConnack(0)), FromC(Subscribe(0, 1, Named("#")))]

  /** Active, with "#" as the only topic. */
  ghost predicate Joined(s: State) {
    Idle(s) && s.status == Active && exists id :: s.topics.entries == [Entry(NORMAL, id, "#")]
  }

  lemma {:induction false} TalkConcat(gw: Table, s: State, a: seq<Turn>, b: seq<Turn>)
    requires Talk(gw, s, a).Some?
    ensures Talk(gw, s, a + b) == Talk(gw, Talk(gw, s, a).value, b)
    decreases |a|
  {
    if a == [] {
      assert a + b == b;
    } else {
      assert (a + b)[1..] == a[1..] + b;
      TalkConcat(gw, AfterTurn(gw, s, a[0]), a[1..], b);
    }
  }

  /** An empty table takes "#" in. */
  lemma SubscribeJoins(s: State)
    requires s.topics.entries == []
    ensures var id := NextTopicId(s.topics.next);
            SubscribeNamed(s, 0, 1, "#") ==
              ToB(s.(topics := Table([Entry(NORMAL, id, "#")], id)), SubscribeBroker("#", 0, 1))
  {
    assert CStr("#") == "#" by {
      assert '\0' !in "#";
    }
    assert [] + [Entry(NORMAL, NextTopicId(s.topics.next), "#")] == [Entry(NORMAL, NextTopicId(s.topics.next), "#")];
  }

  /** What joining changes: the CONNACK is sent, the table is "#" alone, and the rest stays. */
  lemma Joins(gw: Table, s: State, clean: bool)
    requires Idle(s) && !Dozing(s) && (if clean then Others(s.topics.entries) == [] else s.topics.entries == [])
    ensures var t := Talk(gw, s, if clean then REJOIN else JOIN);
            && t.Some? && Joined(t.value)
            && t.value.waiting == s.waiting && t.value.snMsgId == s.snMsgId && t.value.hold == s.hold
            && t.value.stored == s.stored && t.value.toClient == s.toClient + [SendConnack(RC_ACCEPTED)]
  {
    var turns := if clean then REJOIN else JOIN;
    var s1 := HandleConnect(s, clean, false);
    TalkStep(gw, s, turns, s1);
    var s2 := HandleConnack(s1, 0);
    TalkStep(gw, s1, turns[1..], s2);
    var s3 := SubscribeNamed(s2, 0, 1, "#");
    SubscribeJoins(s2);
    TalkStep(gw, s2, turns[2..], s3);
    assert s3.topics.entries == [Entry(NORMAL, s3.topics.next, "#")];
  }

  /** From `s` to `t` the PUBLISH `p` was held behind the REGISTER with message id `id`. */
  predicate HoldsOne(s: State, t: State, id: nat, p: SnPublish) {
    && t.snMsgId == id && t.waiting == s.waiting + [Wait(id, p)]
    && p.topic.ById? && t.toClient == s.toClient + [SendRegister(p.topic.id, id, "abc")]
  }

  /** A PUBLISH to a client that has joined is held. */
  lemma Holds(gw: Table, s: State, payload: Bytes)
    requires Joined(s)
    ensures var t := Talk(gw, s, [FromB(BrokerPublish(ToAbc(payload)))]);
            && t.Some? && Idle(t.value) && t.value.status == Active && t.value.hold == s.hold
            && Others(t.value.topics.entries) == [] && t.value.stored == s.stored
            && HoldsOne(s, t.value, NextSnMsgId(s.snMsgId),
                        ToSn(ToAbc(payload), ById(NORMAL, NextTopicId(s.topics.next))))
  {
    var id :| s.topics.entries == [Entry(NORMAL, id, "#")];
    AbcIsHeld(s, id, payload);
    var t := HandlePublish(s, ToAbc(payload));
    TalkStep(gw, s, [FromB(BrokerPublish(ToAbc(payload)))], t);
    NoOthers(t.topics.entries);
  }

  lemma NoOthers(entries: seq<Entry>)
    requires |entries| == 2 && entries[0].typ == entries[1].typ == NORMAL
    ensures Others(entries) == []
  {
    assert entries[1..][1..] == [];
    assert Others(entries[1..]) == [];
  }

  // ---- a PUBLISH that outlives its session ----

  /** A client that nothing is known of yet. */
  predicate Fresh(s: State) {
    && Idle(s) && s.status == Disconnected && s.topics == EMPTY && s.waiting == [] && s.snMsgId == 0
    && s.toClient == [] && !s.hold
  }

  /** It has joined, and nothing has been held for it. */
  ghost predicate JoinedFirst(s: State) {
    && Joined(s) && s.topics.next == 1 && s.waiting == [] && s.snMsgId == 0 && !s.hold
    && s.toClient == [SendConnack(RC_ACCEPTED)]
  }

  lemma JoinedFresh(gw: Table, s: State)
    requires Fresh(s)
    ensures Talk(gw, s, JOIN).Some? && JoinedFirst(Talk(gw, s, JOIN).value)
  {
    Joins(gw, s, false);
    var s1 := HandleConnect(s, false, false);
    TalkStep(gw, s, JOIN, s1);
    var s2 := HandleConnack(s1, 0);
    TalkStep(gw, s1, JOIN[1..], s2);
    SubscribeJoins(s2);
    TalkStep(gw, s2, JOIN[2..], SubscribeNamed(s2, 0, 1, "#"));
  }

  const LATE: seq<Turn> := [FromC(Connect(true, false)), FromB(BrokerConnack(0)), FromC(Regack(1))]

  /** What a clean CONNECT, its CONNACK and a REGACK for the waiting PUBLISH do. */
  lemma LateRegack(gw: Table, s: State)
    requires Idle(s) && !Dozing(s) && Others(s.topics.entries) == [] && !s.hold
    requires |s.waiting| == 1 && s.waiting[0].regackMsgId == 1
    ensures var t := Talk(gw, s, LATE);
            && t.Some? && t.value.topics.entries == [] && t.value.status == Active
            && t.value.toClient == s.toClient + [SendConnack(RC_ACCEPTED), SendPublish(s.waiting[0].p)]
  {
    var s1 := HandleConnect(s, true, false);
    TalkStep(gw, s, LATE, s1);
    var s2 := HandleConnack(s1, 0);
    TalkStep(gw, s1, LATE[1..], s2);
    assert ByRegack(1)(s2.waiting[0]);
    var s3 := HandleRegAck(s2, 1);
    TalkStep(gw, s2, LATE[2..], s3);
  }

  /** A PUBLISH for "abc" waits for REGACK 1, behind its REGISTER with id 2. */
  predicate HeldFirst(s: State, payload: Bytes) {
    && Idle(s) && s.status == Active && Others(s.topics.entries) == [] && !s.hold && s.snMsgId == 1
    && s.waiting == [Wait(1, ToSn(ToAbc(payload), ById(NORMAL, 2)))]
    && s.toClient == [SendConnack(RC_ACCEPTED), SendRegister(2, 1, "abc")]
  }

  lemma HoldsFirst(gw: Table, s: State, payload: Bytes)
    requires JoinedFirst(s)
    ensures var t := Talk(gw, s, [FromB(BrokerPublish(ToAbc(payload)))]); t.Some? && HeldFirst(t.value, payload)
  {
    Holds(gw, s, payload);
    FirstIsHeld(s, Talk(gw, s, [FromB(BrokerPublish(ToAbc(payload)))]).value, payload);
  }

  lemma FirstIsHeld(s: State, t: State, payload: Bytes)
    requires JoinedFirst(s) && Idle(t) && t.status == Active && Others(t.topics.entries) == [] && t.hold == s.hold
    requires HoldsOne(s, t, NextSnMsgId(s.snMsgId), ToSn(ToAbc(payload), ById(NORMAL, NextTopicId(s.topics.next))))
    ensures HeldFirst(t, payload)
  {
    assert NextTopicId(1) == 2;
  }

  lemma OneHeld(gw: Table, s: State, payload: Bytes) returns (turns: seq<Turn>)
    requires Fresh(s)
    ensures Talk(gw, s, turns).Some? && HeldFirst(Talk(gw, s, turns).value, payload) == true
  {
    var publish := [FromB(BrokerPublish(ToAbc(payload)))];
    JoinedFresh(gw, s);
    HoldsFirst(gw, Talk(gw, s, JOIN).value, payload);
    TalkConcat(gw, s, JOIN, publish);
    turns := JOIN + publish;
  }

  /** The client is Active without a topic, and the last it was sent is a PUBLISH under id 2; the
      REGISTER for this id lies before the CONNACK of the present session. */
  predicate UsesErasedId(s: State) {
    && s.topics.entries == [] && s.status == Active
    && |s.toClient| == 4 && s.toClient[1] == SendRegister(2, 1, "abc") && s.toClient[2] == SendConnack(RC_ACCEPTED)
    && s.toClient[3].SendPublish? && s.toClient[3].p.topic == ById(NORMAL, 2)
  }

  lemma ErasedIdUsed(gw: Table, s: State) returns (turns: seq<Turn>)
    requires Fresh(s)
    ensures Talk(gw, s, turns).Some? && UsesErasedId(Talk(gw, s, turns).value)
  {
    var before := OneHeld(gw, s, []);
    LateRegack(gw, Talk(gw, s, before).value);
    TalkConcat(gw, s, before, LATE);
    turns := before + LATE;
  }

  /** A REGACK that comes after a clean CONNECT still releases the PUBLISH: it goes out under an id
      that has been erased, with nothing about it said in the new session. */
  lemma ReleasedAfterErasure() returns (turns: seq<Turn>)
    ensures Exec(EMPTY, Start(EMPTY), TalkActs(turns)).Some?
    ensures UsesErasedId(Exec(EMPTY, Start(EMPTY), TalkActs(turns)).value.s)
  {
    turns := ErasedIdUsed(EMPTY, INITIAL);
    TalkRuns(EMPTY, INITIAL, turns);
  }

  // ---- 255 REGISTERs later ----

  /** A PUBLISH that waits for message id 1, `k` ids having been issued. */
  ghost predicate Waits(s: State, w: Wait, k: nat) {
    Joined(s) && s.waiting == [w] && w.regackMsgId == 1 && s.snMsgId == k && !s.hold
  }

  /** The second of two waiting PUBLISHes is released by its REGACK. */
  lemma ReleasesSecond(gw: Table, s: State, w: Wait, id: nat)
    requires Idle(s) && s.status == Active && !s.hold
    requires |s.waiting| == 2 && s.waiting[0] == w && w.regackMsgId != id && s.waiting[1].regackMsgId == id
    ensures var t := Talk(gw, s, [FromC(Regack(id))]);
            && t.Some? && Idle(t.value) && t.value.status == Active && !t.value.hold && t.value.waiting == [w]
            && t.value.snMsgId == s.snMsgId && t.value.topics == s.topics
  {
    assert !ByRegack(id)(s.waiting[0]) && ByRegack(id)(s.waiting[1]);
    assert FirstIndex(s.waiting, ByRegack(id)) == 1;
    var t := HandleRegAck(s, id);
    assert t.waiting == [w];
    TalkStep(gw, s, [FromC(Regack(id))], t);
  }

  /** A second PUBLISH waits, for message id `k`. */
  predicate SecondHeld(s: State, w: Wait, k: nat) {
    && Idle(s) && s.status == Active && !s.hold && s.snMsgId == k && Others(s.topics.entries) == []
    && |s.waiting| == 2 && s.waiting[0] == w && s.waiting[1].regackMsgId == k
  }

  lemma HoldsSecond(gw: Table, s: State, w: Wait, k: nat, payload: Bytes) returns (turns: seq<Turn>)
    requires Waits(s, w, k) && 1 <= k < 255
    ensures Talk(gw, s, turns).Some? && SecondHeld(Talk(gw, s, turns).value, w, k + 1) == true
  {
    assert NextSnMsgId(k) == k + 1;
    turns := [FromB(BrokerPublish(ToAbc(payload)))];
    Holds(gw, s, payload);
  }

  /** One PUBLISH waits, and nothing but it outlives a clean CONNECT. */
  predicate OneWaits(s: State, w: Wait, k: nat) {
    && Idle(s) && s.status == Active && !s.hold && s.waiting == [w] && s.snMsgId == k && w.regackMsgId == 1
    && Others(s.topics.entries) == []
  }

  lemma SecondReleased(gw: Table, s: State, w: Wait, k: nat) returns (turns: seq<Turn>)
    requires SecondHeld(s, w, k) && w.regackMsgId == 1 && k > 1
    ensures Talk(gw, s, turns).Some? && OneWaits(Talk(gw, s, turns).value, w, k) == true
  {
    ReleasesSecond(gw, s, w, k);
    turns := [FromC(Regack(k))];
  }

  lemma Rejoins(gw: Table, s: State, w: Wait, k: nat) returns (turns: seq<Turn>)
    requires OneWaits(s, w, k)
    ensures Talk(gw, s, turns).Some? && Waits(Talk(gw, s, turns).value, w, k) == true
  {
    Joins(gw, s, true);
    turns := REJOIN;
  }

  /** One more PUBLISH is held and released, and the session begins anew. */
  lemma OneRound(gw: Table, s: State, w: Wait, k: nat) returns (turns: seq<Turn>)
    requires Waits(s, w, k) && 1 <= k < 255
    ensures Talk(gw, s, turns).Some? && Waits(Talk(gw, s, turns).value, w, k + 1) == true
  {
    var a := HoldsSecond(gw, s, w, k, []);
    var s1 := Talk(gw, s, a).value;
    var b := SecondReleased(gw, s1, w, k + 1);
    var c := Rejoins(gw, Talk(gw, s1, b).value, w, k + 1);
    TalkConcat(gw, s, a, b);
    TalkConcat(gw, s, a + b, c);
    turns := a + b + c;
  }

  lemma {:induction false} AllRounds(gw: Table, s: State, w: Wait, k: nat) returns (turns: seq<Turn>)
    requires Waits(s, w, k) && 1 <= k <= 255
    ensures Talk(gw, s, turns).Some? && Waits(Talk(gw, s, turns).value, w, 255)
    decreases 255 - k
  {
    if k == 255 {
      turns := [];
    } else {
      var round := OneRound(gw, s, w, k);
      var rest := AllRounds(gw, Talk(gw, s, round).value, w, k + 1);
      TalkConcat(gw, s, round, rest);
      turns := round + rest;
    }
  }

  /** The first PUBLISH waits, and the session has begun anew. */
  lemma FirstWaits(gw: Table, s: State, payload: Bytes)
    requires HeldFirst(s, payload)
    ensures Talk(gw, s, REJOIN).Some? && Waits(Talk(gw, s, REJOIN).value, s.waiting[0], 1)
  {
    Joins(gw, s, true);
  }

  /** Two PUBLISHes wait for REGACK 1. */
  predicate TwoWait(s: State, first: Bytes, second: Bytes) {
    && |s.waiting| == 2 && s.waiting[0].regackMsgId == s.waiting[1].regackMsgId == 1
    && s.waiting[0].p.payload == first && s.waiting[1].p.payload == second
  }

  lemma SecondWaits(gw: Table, s: State, w: Wait, payload: Bytes) returns (turns: seq<Turn>)
    requires Waits(s, w, 255)
    ensures Talk(gw, s, turns).Some? && TwoWait(Talk(gw, s, turns).value, w.p.payload, payload) == true
  {
    assert NextSnMsgId(255) == 1;
    Holds(gw, s, payload);
    turns := [FromB(BrokerPublish(ToAbc(payload)))];
  }

  lemma TwoWithOneId(gw: Table, s: State, first: Bytes, second: Bytes) returns (turns: seq<Turn>)
    requires Fresh(s)
    ensures Talk(gw, s, turns).Some? && TwoWait(Talk(gw, s, turns).value, first, second) == true
  {
    turns := OneHeld(gw, s, first);
    var s1 := Talk(gw, s, turns).value;
    var w := s1.waiting[0];
    FirstWaits(gw, s1, first);
    var s2 := Talk(gw, s1, REJOIN).value;
    TalkConcat(gw, s, turns, REJOIN);
    turns := turns + REJOIN;
    var rounds := AllRounds(gw, s2, w, 1);
    TalkConcat(gw, s, turns, rounds);
    turns := turns + rounds;
    var last := SecondWaits(gw, Talk(gw, s2, rounds).value, w, second);
    TalkConcat(gw, s, turns, last);
    turns := turns + last;
  }

  /** After 255 REGISTERs a message id comes again: the REGACK for the later PUBLISH releases the
      one that has waited since. */
  lemma OldWaitShadowsNew() returns (turns: seq<Turn>)
    ensures Exec(EMPTY, Start(EMPTY), TalkActs(turns)).Some?
    ensures var s := Exec(EMPTY, Start(EMPTY), TalkActs(turns)).value.s;
            && |s.waiting| == 2 && s.waiting[0].regackMsgId == s.waiting[1].regackMsgId
            && s.waiting[0].p.payload != s.waiting[1].p.payload
            && Released(s, s.waiting[1].regackMsgId).toClient == s.toClient + [SendPublish(s.waiting[0].p)]
  {
    turns := TwoWithOneId(EMPTY, INITIAL, [1], [2]);
    TalkRuns(EMPTY, INITIAL, turns);
    var w := Exec(EMPTY, Start(EMPTY), TalkActs(turns)).value.s.waiting;
    assert ByRegack(w[1].regackMsgId)(w[0]);
  }
}
