/** PUBACKs over whole runs: the broker knows no topic ids, so the gateway must put back the
    one the client published to. */
module SessionAcks {
  import opened SortedMap
  import opened LinkedTable
  import opened TopicTable
  import opened TopicIds
  import opened SessionModel
  import opened SessionRuns
  import opened SessionAnswers

  /** Whether and how the handler of an event works on the map of topic ids. */
  function OpsOf(s: State, gw: Table, e: Event): seq<TopicIds.Op> {
    match e
    case ClientRecv(Connect(true, _)) => if Dozing(s) then [] else [Cleared]
    case ClientRecv(Publish(p)) =>
      if Records(s, gw, p) then [Recorded(IdRec(p.msgId, RefId(p.topic), RefType(p.topic)))] else []
    case BrokerRecv(BrokerPuback(msgId)) => [Pubacked(msgId)]
    case _ => []
  }

  function OpsAt(gw: Table, r: Session, a: Act): seq<TopicIds.Op>
    requires Enabled(r, a)
  {
    if a.Dispatch? then OpsOf(Popped(r.s), gw, r.s.events[0]) else []
  }

  /** `before`, and then what the run has done to the map. */
  function Ops(gw: Table, r: Session, acts: seq<Act>, before: seq<TopicIds.Op>): seq<TopicIds.Op>
    requires Exec(gw, r, acts).Some?
    decreases |acts|
  {
    if acts == [] then before else Ops(gw, Next(gw, r, acts[0]), acts[1..], before + OpsAt(gw, r, acts[0]))
  }

  lemma OpMakesPubIds(gw: Table, s: State, e: Event)
    ensures var ops := OpsOf(s, gw, e);
            |ops| <= 1 && Handled(gw, s, e).pubIds == if ops == [] then s.pubIds else TopicIds.Step(s.pubIds, ops[0])
  {
    PubIdsAfter(gw, s, e);
  }

  lemma NextPubIds(gw: Table, r: Session, a: Act, before: seq<TopicIds.Op>)
    requires Enabled(r, a) && r.s.pubIds == TopicIds.After(before)
    ensures Next(gw, r, a).s.pubIds == TopicIds.After(before + OpsAt(gw, r, a))
  {
    var ops := OpsAt(gw, r, a);
    if a.Dispatch? {
      OpMakesPubIds(gw, Popped(r.s), r.s.events[0]);
    }
    if ops == [] {
      assert before + ops == before;
    } else {
      assert (before + ops)[..|before|] == before;
    }
  }

  /** The map is what the operations so far have made of it. */
  lemma {:induction false} PubIdsAreOps(gw: Table, r: Session, acts: seq<Act>, before: seq<TopicIds.Op>)
    requires Exec(gw, r, acts).Some? && r.s.pubIds == TopicIds.After(before)
    ensures Exec(gw, r, acts).value.s.pubIds == TopicIds.After(Ops(gw, r, acts, before))
    decreases |acts|
  {
    if acts != [] {
      NextPubIds(gw, r, acts[0], before);
      PubIdsAreOps(gw, Next(gw, r, acts[0]), acts[1..], before + OpsAt(gw, r, acts[0]));
    }
  }

  // ---- the PUBLISH that a PUBACK is for ----

  /** The reference has an id that a PUBACK can carry. */
  predicate HasId(r: TopicRef) { r.ByShortName? || r.typ == SHORT || r.id != 0 }

  /** The number stands for the topic in a PUBACK: the id itself; or the two characters of a short name, the first of
      which is the low byte, the order in which a little-endian machine has them. */
  predicate IdIs(r: TopicRef, n: nat) {
    match r
    case ById(_, id) => n == id
    case ByShortName(c0, c1) => n % 256 == c0 as int % 256 && n / 256 == c1 as int % 256
  }

  /** The client's PUBLISH goes to the broker, which is to answer it, and there is room to note its topic. */
  ghost predicate Noted(gw: Table, s: State, p: SnPublish) {
    && p.msgId != 0 && 0 < p.qos < 3 && (exists name :: Means(s.topics, gw, p.topic, name))
    && |s.pubIds| <= 20 && HasId(p.topic)
  }

  /** The PUBLISH that a PUBACK with this message id is for: the latest of those noted that has not been answered or
      forgotten since. */
  ghost function LatestNow(gw: Table, s: State, e: Event, m: nat, last: Option<SnPublish>): Option<SnPublish> {
    match e
    case ClientRecv(Publish(p)) => if p.msgId == m && Noted(gw, s, p) then Some(p) else last
    case ClientRecv(Connect(true, _)) => if Dozing(s) then last else None
    case BrokerRecv(BrokerPuback(k)) => if k == m then None else last
    case _ => last
  }

  ghost function LatestOf(gw: Table, r: Session, acts: seq<Act>, m: nat, last: Option<SnPublish>): Option<SnPublish>
    requires Exec(gw, r, acts).Some?
    decreases |acts|
  {
    if acts == [] then last
    else LatestOf(gw, Next(gw, r, acts[0]), acts[1..], m,
                  if acts[0].Dispatch? then LatestNow(gw, Popped(r.s), r.s.events[0], m, last) else last)
  }

  /** The map has the topic of this PUBLISH under its message id, or nothing. */
  predicate Keeps(recs: seq<IdRec>, m: nat, last: Option<SnPublish>) {
    match last
    case None => Lookup(recs, m) == None
    case Some(p) => p.msgId == m && Lookup(recs, m) == Some(IdRec(m, RefId(p.topic), RefType(p.topic)))
  }

  lemma NotedIff(gw: Table, s: State, p: SnPublish)
    ensures Noted(gw, s, p) <==> Records(s, gw, p) && Accepts(s.pubIds, RefId(p.topic), RefType(p.topic))
  {
    NoTopicIff(gw, s, p.topic);
    var name := Resolve(s.topics, gw, p.topic).1;
    if name.Some? {
      assert Means(s.topics, gw, p.topic, name.value);
    }
  }

  /** What an insertion makes of a lookup, and what a deletion. */
  lemma LookupAfter(recs: seq<IdRec>, r: IdRec, k: nat, m: nat)
    requires Unique(recs)
    ensures Lookup(Insert(recs, r), m)
            == if m == r.msgId && Accepts(recs, r.topicId, r.typ) then Some(r) else Lookup(recs, m)
    ensures Lookup(Drop(recs, k), m) == if k == m then None else Lookup(recs, m)
  {
    InsertUnique(recs, r);
    DropUnique(recs, k);
    forall x ensures Lookup(Insert(recs, r), m) == Some(x) <==> x in Insert(recs, r) && x.msgId == m {
      LookupMember(Insert(recs, r), m, x);
    }
    forall x ensures Lookup(Drop(recs, k), m) == Some(x) <==> x in Drop(recs, k) && x.msgId == m {
      LookupMember(Drop(recs, k), m, x);
    }
    forall x ensures Lookup(recs, m) == Some(x) <==> x in recs && x.msgId == m {
      LookupMember(recs, m, x);
    }
  }

  lemma NowKeeps(gw: Table, s: State, e: Event, m: nat, last: Option<SnPublish>)
    requires Unique(s.pubIds) && Keeps(s.pubIds, m, last)
    ensures Keeps(Handled(gw, s, e).pubIds, m, LatestNow(gw, s, e, m, last))
  {
    PubIdsAfter(gw, s, e);
    match e
    case ClientRecv(Publish(p)) =>
      NotedIff(gw, s, p);
      LookupAfter(s.pubIds, IdRec(p.msgId, RefId(p.topic), RefType(p.topic)), m, m);
    case BrokerRecv(BrokerPuback(k)) => LookupAfter(s.pubIds, IdRec(0, 0, NORMAL), k, m);
    case _ =>
  }

  lemma {:induction false} ExecKeeps(gw: Table, r: Session, acts: seq<Act>, m: nat, last: Option<SnPublish>)
    requires Exec(gw, r, acts).Some? && Unique(r.s.pubIds) && FewIds(r.s.pubIds) && Keeps(r.s.pubIds, m, last)
    ensures var t := Exec(gw, r, acts).value.s;
            Unique(t.pubIds) && FewIds(t.pubIds) && Keeps(t.pubIds, m, LatestOf(gw, r, acts, m, last))
    decreases |acts|
  {
    if acts != [] {
      var now := last;
      if acts[0].Dispatch? {
        var s, e := Popped(r.s), r.s.events[0];
        HandledKeepsIds(gw, s, e);
        NowKeeps(gw, s, e, m, last);
        now := LatestNow(gw, s, e, m, last);
      }
      ExecKeeps(gw, Next(gw, r, acts[0]), acts[1..], m, now);
    }
  }

  lemma RefIdIs(r: TopicRef, n: nat)
    ensures IdIs(r, n) <==> n == RefId(r)
  {
  }

  /** In every run: the broker's PUBACK for a message id is passed on exactly when the latest
      PUBLISH noted with this id has not been answered or cleared since, and it then carries
      the id that stands in that PUBLISH. */
  lemma PubackCarriesLatest(gw: Table, own: Table, acts: seq<Act>, m: nat, out: ToClient)
    requires Exec(gw, Start(own), acts).Some? && Enabled(Exec(gw, Start(own), acts).value, Dispatch)
    requires Exec(gw, Start(own), acts).value.s.events[0] == BrokerRecv(BrokerPuback(m))
    ensures var r := Exec(gw, Start(own), acts).value;
            var t, last := Next(gw, r, Dispatch).s, LatestOf(gw, Start(own), acts, m, None);
            && (t.toClient == r.s.toClient + [out] <==>
                  last.Some? && out.SendPuback? && IdIs(last.value.topic, out.topicId) && out.msgId == m && out.rc == 0)
            && (last.None? ==> t.toClient == r.s.toClient)
            && (last.Some? ==> last.value.msgId == m && |t.toClient| == |r.s.toClient| + 1)
            && Lookup(t.pubIds, m) == None
    ensures |Exec(gw, Start(own), acts).value.s.pubIds| <= 21
  {
    var r := Exec(gw, Start(own), acts).value;
    ExecKeeps(gw, Start(own), acts, m, None);
    NowKeeps(gw, Popped(r.s), r.s.events[0], m, LatestOf(gw, Start(own), acts, m, None));
    var last := LatestOf(gw, Start(own), acts, m, None);
    OneMore(r.s.toClient, Next(gw, r, Dispatch).s.toClient, out);
    if last.Some? && out.SendPuback? { RefIdIs(last.value.topic, out.topicId); }
  }

  // ---- the broker's answers to a client's PUBLISH ----

  /** The event uses, answers or clears the message id. */
  predicate Disturbs(s: State, e: Event, m: nat) {
    match e
    case ClientRecv(Publish(p)) => p.msgId == m && 0 < p.qos < 3
    case ClientRecv(Connect(true, _)) => !Dozing(s)
    case BrokerRecv(BrokerPuback(k)) => k == m
    case _ => false
  }

  predicate Undisturbed(gw: Table, r: Session, acts: seq<Act>, m: nat)
    requires Exec(gw, r, acts).Some?
    decreases |acts|
  {
    acts == [] ||
    (!(acts[0].Dispatch? && Disturbs(Popped(r.s), r.s.events[0], m))
     && Undisturbed(gw, Next(gw, r, acts[0]), acts[1..], m))
  }

  lemma {:induction false} StaysLatest(gw: Table, r: Session, acts: seq<Act>, m: nat, last: Option<SnPublish>)
    requires Exec(gw, r, acts).Some? && Undisturbed(gw, r, acts, m)
    ensures LatestOf(gw, r, acts, m, last) == last
    decreases |acts|
  {
    if acts != [] {
      StaysLatest(gw, Next(gw, r, acts[0]), acts[1..], m, last);
    }
  }

  /** A client's PUBLISH at QoS 1 or 2 goes to the broker as `m`. In every run the broker's answers with the message
      id of `m` are answers to that PUBLISH: the PUBACK, if its topic was noted and its message id has not been used,
      answered or cleared since, tells the client the topic of the PUBLISH; a PUBREC or PUBCOMP is passed on
      to a client that listens; and all with the message id of the client's PUBLISH. */
  lemma BrokerAnswers(gw: Table, own: Table, before: seq<Act>, later: seq<Act>,
                      p: SnPublish, m: GwPublish, b: FromBroker)
    requires Exec(gw, Start(own), before).Some? && Enabled(Exec(gw, Start(own), before).value, Dispatch)
    requires 0 < p.qos < 3 && p.msgId != 0
    requires Exec(gw, Start(own), before).value.s.events[0] == ClientRecv(Publish(p))
    requires var r := Exec(gw, Start(own), before).value;
             Next(gw, r, Dispatch).s.toBroker == r.s.toBroker + [PublishBroker(m)]
    requires var r1 := Next(gw, Exec(gw, Start(own), before).value, Dispatch);
             && Exec(gw, r1, later).Some? && Enabled(Exec(gw, r1, later).value, Dispatch)
             && Exec(gw, r1, later).value.s.events[0] == BrokerRecv(b)
    ensures var r := Exec(gw, Start(own), before).value;
            var r1 := Next(gw, r, Dispatch);
            var r2 := Exec(gw, r1, later).value;
            var told := Next(gw, r2, Dispatch).s.toClient;
            && (b == BrokerPuback(m.msgId) && |r.s.pubIds| <= 20 && HasId(p.topic)
                && Undisturbed(gw, r1, later, m.msgId) ==>
                  exists id :: IdIs(p.topic, id) && told == r2.s.toClient + [SendPuback(id, p.msgId, 0)])
            && (b.BrokerAck? && b.msgId == m.msgId ==>
                  told == r2.s.toClient + if Listening(r2.s) then [SendAck(b.typ, p.msgId)] else [])
  {
    var r := Exec(gw, Start(own), before).value;
    var r1 := Next(gw, r, Dispatch);
    var s := Popped(r.s);
    PublishAsked(gw, s, p, PublishBroker(m));
    NoTopicIff(gw, s, p.topic);
    if b == BrokerPuback(m.msgId) && |r.s.pubIds| <= 20 && HasId(p.topic) && Undisturbed(gw, r1, later, m.msgId) {
      ExecKeeps(gw, Start(own), before, p.msgId, None);
      var last := LatestOf(gw, Start(own), before, p.msgId, None);
      HandledKeepsIds(gw, s, r.s.events[0]);
      NowKeeps(gw, s, r.s.events[0], p.msgId, last);
      assert LatestNow(gw, s, r.s.events[0], p.msgId, last) == Some(p);
      ExecKeeps(gw, r1, later, p.msgId, Some(p));
      StaysLatest(gw, r1, later, p.msgId, Some(p));
      RefIdIs(p.topic, RefId(p.topic));
    }
  }

  lemma {:induction false} OpsFrom(gw: Table, r: Session, acts: seq<Act>, before: seq<TopicIds.Op>)
    requires Exec(gw, r, acts).Some?
    ensures Ops(gw, r, acts, before) == before + Ops(gw, r, acts, [])
    decreases |acts|
  {
    if acts == [] {
      assert before + [] == before;
    } else {
      var n, op := Next(gw, r, acts[0]), OpsAt(gw, r, acts[0]);
      OpsFrom(gw, n, acts[1..], before + op);
      OpsFrom(gw, n, acts[1..], [] + op);
      assert [] + op == op;
      assert before + op + Ops(gw, n, acts[1..], []) == before + (op + Ops(gw, n, acts[1..], []));
    }
  }

  /** A PUBLISH with QoS 1 or 2 that reaches the broker, and the broker's PUBACK for it, with nothing between that
      has to do with its message id: the client is not told of the PUBACK exactly when more than twenty
      records were kept at the time of the PUBLISH (or it has no topic id), and none for its message id.
      Of what a QoS 2 PUBLISH has recorded, PUBREC and PUBCOMP take nothing away. */
  lemma PubackLostIff(gw: Table, own: Table, before: seq<Act>, later: seq<Act>, p: SnPublish)
    requires Exec(gw, Start(own), before).Some? && Enabled(Exec(gw, Start(own), before).value, Dispatch)
    requires var r := Exec(gw, Start(own), before).value;
             r.s.events[0] == ClientRecv(Publish(p)) && Records(Popped(r.s), gw, p)
    requires var r1 := Next(gw, Exec(gw, Start(own), before).value, Dispatch);
             && Exec(gw, r1, later).Some? && Enabled(Exec(gw, r1, later).value, Dispatch)
             && Exec(gw, r1, later).value.s.events[0] == BrokerRecv(BrokerPuback(p.msgId))
             && forall e :: e in Ops(gw, r1, later, []) ==> !Touches(e, p.msgId)
    ensures var r := Exec(gw, Start(own), before).value;
            var r2 := Exec(gw, Next(gw, r, Dispatch), later).value;
            Next(gw, r2, Dispatch).s.toClient == r2.s.toClient
            <==> (|r.s.pubIds| > 20 || !HasId(p.topic)) && Lookup(r.s.pubIds, p.msgId) == None
  {
    var r := Exec(gw, Start(own), before).value;
    var r1 := Next(gw, r, Dispatch);
    var rec := IdRec(p.msgId, RefId(p.topic), RefType(p.topic));
    var ops, more := Ops(gw, Start(own), before, []), Ops(gw, r1, later, []);
    PubIdsAreOps(gw, Start(own), before, []);
    NextPubIds(gw, r, Dispatch, ops);
    assert OpsAt(gw, r, Dispatch) == [Recorded(rec)];
    PubIdsAreOps(gw, r1, later, ops + [Recorded(rec)]);
    OpsFrom(gw, r1, later, ops + [Recorded(rec)]);
    LostIff(ops, rec, more);
    PubackTold(gw, Exec(gw, r1, later).value, p.msgId);
  }

  lemma PubackTold(gw: Table, r: Session, m: nat)
    requires Enabled(r, Dispatch) && r.s.events[0] == BrokerRecv(BrokerPuback(m))
    ensures Next(gw, r, Dispatch).s.toClient == r.s.toClient <==> Lookup(r.s.pubIds, m) == None
  {
  }
}
