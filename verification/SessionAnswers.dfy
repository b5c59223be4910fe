/** Who is sent what, and why: for every packet that a handler puts on a send queue the event that calls for it, told
    from the packets and by membership in the tables. */
module SessionAnswers {
  import opened SortedMap
  import opened LinkedTable
  import opened TopicFilter
  import opened TopicTable
  import opened TopicIds
  import opened SessionModel
  import opened SessionRuns

  // ---- what a topic is called ----

  predicate Has(es: seq<Entry>, typ: TopicType, id: nat) { exists e :: e in es && e.typ == typ && e.id == id }

  predicate HasName(es: seq<Entry>, name: string) { exists e :: e in es && e.name == name }

  /** The entry is the first of its type and id. */
  predicate IsFirst(es: seq<Entry>, e: Entry) {
    exists i :: 0 <= i < |es| && es[i] == e && forall j :: 0 <= j < i ==> !(es[j].typ == e.typ && es[j].id == e.id)
  }

  /** The name that a table has for an id. */
  predicate Calls(es: seq<Entry>, typ: TopicType, id: nat, name: string) {
    exists e :: e in es && IsFirst(es, e) && e.typ == typ && e.id == id && e.name == name
  }

  /** The topic that a client means: a short name is spelt out; an id is one of the client's own table, or else of
      the gateway's, if there is room to copy its topic. */
  predicate Means(t: Table, gw: Table, r: TopicRef, name: string) {
    match r
    case ByShortName(c0, c1) => name == [c0, c1]
    case ById(typ, id) =>
      || Calls(t.entries, typ, id, name)
      || (!Has(t.entries, typ, id) && |t.entries| < 50 && Calls(gw.entries, typ, id, name))
  }

  lemma FirstBehind(es: seq<Entry>, e: Entry)
    requires es != [] && !(es[0].typ == e.typ && es[0].id == e.id) && IsFirst(es[1..], e)
    ensures IsFirst(es, e)
  {
    var rest := es[1..];
    var i :| 0 <= i < |rest| && rest[i] == e
             && forall j :: 0 <= j < i ==> !(rest[j].typ == e.typ && rest[j].id == e.id);
    assert es[i + 1] == e && forall j :: 0 < j < i + 1 ==> es[j] == rest[j - 1];
  }

  lemma {:induction false} FindIdIs(es: seq<Entry>, typ: TopicType, id: nat)
    ensures var r := FindId(es, typ, id);
            && (r.Some? <==> Has(es, typ, id))
            && (r.Some? ==> IsFirst(es, r.value) && r.value in es && r.value.typ == typ && r.value.id == id)
  {
    var r := FindId(es, typ, id);
    if es != [] && !(es[0].typ == typ && es[0].id == id) {
      FindIdIs(es[1..], typ, id);
      if r.Some? { FirstBehind(es, r.value); }
    } else if es != [] {
      assert es[0] == r.value;
    }
  }

  lemma CallsIs(es: seq<Entry>, typ: TopicType, id: nat, name: string)
    ensures Calls(es, typ, id, name) <==> FindId(es, typ, id).Some? && FindId(es, typ, id).value.name == name
  {
    FindIdIs(es, typ, id);
    if Calls(es, typ, id, name) {
      var e :| e in es && IsFirst(es, e) && e.typ == typ && e.id == id && e.name == name;
      FirstUnique(es, e, FindId(es, typ, id).value);
    }
  }

  lemma FirstUnique(es: seq<Entry>, a: Entry, b: Entry)
    requires IsFirst(es, a) && IsFirst(es, b) && a.typ == b.typ && a.id == b.id
    ensures a == b
  {
  }

  /** A client's reference is resolved to the topic it means, and to nothing else; the table keeps its topics, and gains
      at most the one that was copied. */
  lemma ResolveIs(t: Table, gw: Table, r: TopicRef, name: string)
    ensures var (u, n) := Resolve(t, gw, r);
            && (n == Some(name) <==> Means(t, gw, r, name))
            && (n == Some(name) && u != t && r.id != 0 ==>
                  && r.ById? && !Has(t.entries, r.typ, r.id) && !HasName(t.entries, name)
                  && u == Table(t.entries + [Entry(PREDEFINED, r.id, name)], t.next))
            && (n.None? ==> u == t)
  {
    if r.ById? {
      CallsIs(t.entries, r.typ, r.id, name);
      CallsIs(gw.entries, r.typ, r.id, name);
      FindIdIs(t.entries, r.typ, r.id);
      FindIdIs(gw.entries, r.typ, r.id);
    }
  }

  /** What a C function reads of a name: all that precedes its first NUL. */
  predicate IsCString(c: string, name: string) {
    c <= name && '\0' !in c && (|c| < |name| ==> name[|c|] == '\0')
  }

  lemma {:induction false} CStrIs(name: string, c: string)
    ensures IsCString(c, name) <==> c == CStr(name)
  {
    if name != "" && name[0] != '\0' {
      var tail := if c == "" then "" else c[1..];
      CStrIs(name[1..], tail);
      assert name == [name[0]] + name[1..];
      if c != "" && c[0] == name[0] {
        assert c == [c[0]] + tail;
      }
    }
  }

  /** The topic that a client gets when it registers a name: the one of this name; or, if there is room, the one
      of what a C function reads of it, which is made if there is none. */
  predicate Registers(t: Table, name: string, x: Entry) {
    if HasName(t.entries, name) then x in t.entries && x.name == name
    else
      && |t.entries| < 50 && IsCString(x.name, name)
      && if HasName(t.entries, x.name) then x in t.entries
         else x.typ == NORMAL && x.id == if t.next == 0xfffe then 1 else t.next + 1
  }

  lemma RegisterIs(t: Table, name: string, x: Entry)
    requires TopicTable.Inv(t)
    ensures TopicTable.Register(t, NORMAL, name).1 == Some(x) <==> Registers(t, name, x)
  {
    CStrIs(name, x.name);
    var byName, byCStr := FindName(t.entries, name), FindName(t.entries, CStr(name));
    if byName.Some? && x in t.entries { InvMeaning(t, x, byName.value); }
    if byCStr.Some? && x in t.entries { InvMeaning(t, x, byCStr.value); }
  }

  lemma RegistersId(t: Table, name: string, id: nat)
    requires TopicTable.Inv(t)
    ensures (exists x :: Registers(t, name, x) && x.id == id)
            <==> var e := TopicTable.Register(t, NORMAL, name).1; e.Some? && e.value.id == id
  {
    var e := TopicTable.Register(t, NORMAL, name).1;
    forall x ensures Registers(t, name, x) <==> e == Some(x) { RegisterIs(t, name, x); }
  }

  // ---- the client and its subscriptions ----

  predicate Awaken(s: State) { s.status == Active || s.status == Awake }

  predicate Sleepy(s: State) { s.status == Asleep || s.status == Awake }

  /** One of the table's topics, read as a filter, matches the name. */
  predicate Subscribed(t: Table, name: string) { exists x :: x in t.entries && ScanAt(x.name, 0, name, 0) }

  /** The topic is neither a short one nor one of the table: only a filter can explain it. */
  predicate Strange(t: Table, m: GwPublish) { |m.topic| > 2 && !HasName(t.entries, m.topic) }

  lemma StrangeIs(t: Table, m: GwPublish)
    ensures NeedsRegister(t, m) <==> Strange(t, m) && Subscribed(t, m.topic)
    ensures Unexplained(t, m) <==> Strange(t, m) && !Subscribed(t, m.topic)
  {
  }

  /** How many wait once the REGACK has released one. */
  function LeftWaiting(waiting: seq<Wait>, msgId: nat): nat {
    if exists w :: w in waiting && w.regackMsgId == msgId then |waiting| - 1 else |waiting|
  }

  /** A PINGREQ has nothing to wait for, or no PUBLISH waits any more, counted in eight bits. */
  predicate PingNow(s: State, e: Event) {
    e.ClientRecv? &&
    match e.c
    case Pingreq => !(Sleepy(s) && s.stored != [])
    case Regack(msgId) => Awaken(s) && s.hold && LeftWaiting(s.waiting, msgId) % 256 == 0
    case _ => false
  }

  lemma PingNowIs(s: State, e: Event)
    ensures PingNow(s, e) <==> PingDue(s, e)
  {
    if e.ClientRecv? && e.c.Regack? {
      var k, id := FirstIndex(s.waiting, ByRegack(e.c.msgId)), e.c.msgId;
      assert forall w: Wait :: ByRegack(id)(w) <==> w.regackMsgId == id;
      assert k < |s.waiting| ==> s.waiting[k] in s.waiting;
      if w :| w in s.waiting && w.regackMsgId == id {
        var j :| 0 <= j < |s.waiting| && s.waiting[j] == w;
        assert ByRegack(id)(s.waiting[j]);
      }
    }
  }

  // ---- what the client is sent ----

  /** The gateway has learnt the client's own id of a topic that the broker's PUBLISH is about. */
  predicate NamedBy(t: Table, r: TopicRef, m: GwPublish) {
    if |m.topic| <= 2 then r == ShortName(m)
    else r.ById? && exists x :: x in t.entries && x.name == m.topic && x.typ == r.typ && x.id == r.id
  }

  predicate SaysSame(p: SnPublish, m: GwPublish) {
    p.dup == m.dup && p.qos == m.qos && p.retain == m.retain && p.msgId == m.msgId && p.payload == m.payload
  }

  /** The PUBLISH has waited longest for this REGACK. */
  predicate WaitsFirst(waiting: seq<Wait>, msgId: nat, p: SnPublish) {
    exists i :: 0 <= i < |waiting| && waiting[i] == Wait(msgId, p)
                && forall j :: 0 <= j < i ==> waiting[j].regackMsgId != msgId
  }

  /** The event calls for this packet to the client. */
  ghost predicate Owed(gw: Table, s: State, e: Event, out: ToClient) {
    match out
    case SendConnack(rc) =>
      || (e.BrokerRecv? && e.b.BrokerConnack? && rc == if e.b.rc == 0 then 0 else if e.b.rc == 3 then 1 else 3)
      || (e.ClientRecv? && e.c.Connect? && Sleepy(s) && rc == 0)
    case SendWillTopicReq => e.ClientRecv? && e.c.Connect? && e.c.will && !Sleepy(s)
    case SendDisconnect => e.ClientRecv? && e.c.Disconnect?
    case SendPingresp => e == BrokerRecv(BrokerPingresp)
    case SendPublish(p) =>
      || (e.BrokerRecv? && e.b.BrokerPublish? && Awaken(s)
          && SaysSame(p, e.b.m) && NamedBy(s.topics, p.topic, e.b.m))
      || (e.ClientRecv? && e.c.Regack? && Awaken(s) && WaitsFirst(s.waiting, e.c.msgId, p))
    case SendRegister(id, msgId, name) =>
      && e.BrokerRecv? && e.b.BrokerPublish? && Awaken(s) && Strange(s.topics, e.b.m)
      && Subscribed(s.topics, e.b.m.topic) && name == e.b.m.topic
      && msgId == (if s.snMsgId % 256 == 255 then 1 else s.snMsgId % 256 + 1)
      && exists x :: Registers(s.topics, name, x) && x.id == id
    case SendPuback(id, msgId, rc) =>
      || (e == BrokerRecv(BrokerPuback(msgId)) && rc == 0
          && exists r :: r in s.pubIds && r.msgId == msgId && r.topicId == id)
      || (e.ClientRecv? && e.c.Publish? && Rejected(gw, s, e.c.p) && rc == 2
          && msgId == e.c.p.msgId && e.c.p.topic.ById? && id == e.c.p.topic.id)
    case SendAck(typ, msgId) => e == BrokerRecv(BrokerAck(typ, msgId)) && Awaken(s)
    case SendRegack(id, msgId, rc) =>
      && e.ClientRecv? && e.c.Register? && Awaken(s) && msgId == e.c.msgId && rc == 0
      && exists x :: Registers(s.topics, e.c.name, x) && x.id == id
    case SendSuback(qos, id, msgId, rc) =>
      && e == ClientRecv(Subscribe(qos, msgId, Predefined(id))) && msgId != 0 && rc == 3
      && !Has(s.topics.entries, PREDEFINED, id) && !Has(gw.entries, PREDEFINED, id)
  }

  /** A PUBLISH for which the client expects an answer, and whose topic it does not have. */
  ghost predicate Rejected(gw: Table, s: State, p: SnPublish) {
    p.msgId != 0 && 0 < p.qos < 3 && forall name :: !Means(s.topics, gw, p.topic, name)
  }

  // ---- what the broker is sent ----

  /** The event calls for this packet to the broker. */
  ghost predicate OwedToBroker(gw: Table, s: State, e: Event, out: ToBroker) {
    match out
    case ConnectBroker => e.ClientRecv? && e.c.Connect? && !e.c.will && !Sleepy(s)
    case DisconnectBroker => e == ClientRecv(Disconnect(0))
    case PingBroker => PingNow(s, e)
    case PublishBroker(m) => e.ClientRecv? && e.c.Publish? && Passes(gw, s, e.c.p, m)
    case PubackBroker(msgId) =>
      || (e == ClientRecv(Puback(msgId, 0)) && s.status == Active)
      || (e.BrokerRecv? && e.b.BrokerPublish? && e.b.m.qos == 1 && e.b.m.msgId == msgId && AnsweredHere(s, e.b.m))
    case AckBroker(typ, msgId) =>
      || (e == ClientRecv(Ack(typ, msgId)) && s.status == Active)
      || (typ == PUBREC && e.BrokerRecv? && e.b.BrokerPublish? && e.b.m.qos == 2 && e.b.m.msgId == msgId
          && AnsweredHere(s, e.b.m))
      || (typ == PUBCOMP && e == BrokerRecv(BrokerAck(PUBREL, msgId)) && s.status == Asleep)
    case SubscribeBroker(name, qos, msgId) =>
      && e.ClientRecv? && e.c.Subscribe? && e.c.qos == qos && e.c.msgId == msgId != 0
      && FilterIs(gw, s, e.c.filter, name)
  }

  /** The PUBLISH that the broker gets for a client's: QoS -1 becomes 0; one without a topic goes on without a name if
      no answer is expected. */
  ghost predicate Passes(gw: Table, s: State, p: SnPublish, m: GwPublish) {
    && m.dup == p.dup && m.qos == (if p.qos == 3 then 0 else p.qos) && m.retain == p.retain
    && m.msgId == p.msgId && m.payload == p.payload
    && (|| Means(s.topics, gw, p.topic, m.topic)
        || (p.qos != 3 && !(p.msgId != 0 && 0 < p.qos < 3) && m.topic == ""
            && forall name :: !Means(s.topics, gw, p.topic, name)))
  }

  /** The gateway acknowledges the broker's PUBLISH itself: the client sleeps, or no subscription explains it. */
  predicate AnsweredHere(s: State, m: GwPublish) {
    s.status == Asleep || (Awaken(s) && Strange(s.topics, m) && !Subscribed(s.topics, m.topic))
  }

  /** What the broker is asked for on a SUBSCRIBE: the name as a C function reads it, the topic of the predefined id,
      or the two characters. */
  ghost predicate FilterIs(gw: Table, s: State, filter: Filter, name: string) {
    match filter
    case Named(f) => (exists x :: Registers(s.topics, f, x) && x.name == name)
    case Predefined(id) => Means(s.topics, gw, TopicRef.ById(PREDEFINED, id), name)
    case Short(c0, c1) => IsCString(name, [c0, c1])
  }

  // ---- packet by packet ----

  lemma OneMore<T>(log: seq<T>, t: seq<T>, x: T)
    ensures t == log + [x] <==> |t| == |log| + 1 && log <= t && t[|log|] == x
  {
  }

  lemma PlainTold(gw: Table, s: State, c: FromClient, out: ToClient)
    requires !c.Publish? && !c.Subscribe? && !c.Register? && !c.Regack?
    ensures HandleClient(s, gw, c).toClient == s.toClient + [out] <==> Owed(gw, s, ClientRecv(c), out)
  {
    OneMore(s.toClient, HandleClient(s, gw, c).toClient, out);
  }

  lemma RegisterTold(gw: Table, s: State, msgId: nat, name: string, out: ToClient)
    requires TopicTable.Inv(s.topics)
    ensures HandleRegister(s, msgId, name).toClient == s.toClient + [out]
            <==> Owed(gw, s, ClientRecv(FromClient.Register(msgId, name)), out)
  {
    OneMore(s.toClient, HandleRegister(s, msgId, name).toClient, out);
    if out.SendRegack? { RegistersId(s.topics, name, out.id); }
  }

  lemma RegackTold(gw: Table, s: State, msgId: nat, out: ToClient)
    ensures HandleRegAck(s, msgId).toClient == s.toClient + [out] <==> Owed(gw, s, ClientRecv(Regack(msgId)), out)
  {
    OneMore(s.toClient, HandleRegAck(s, msgId).toClient, out);
    var i := FirstIndex(s.waiting, ByRegack(msgId));
    assert forall j :: 0 <= j < |s.waiting| ==> (ByRegack(msgId)(s.waiting[j]) <==> s.waiting[j].regackMsgId == msgId);
  }

  lemma SubscribeTold(gw: Table, s: State, qos: nat, msgId: nat, filter: Filter, out: ToClient)
    ensures HandleSubscribe(s, gw, qos, msgId, filter).toClient == s.toClient + [out]
            <==> Owed(gw, s, ClientRecv(Subscribe(qos, msgId, filter)), out)
  {
    OneMore(s.toClient, HandleSubscribe(s, gw, qos, msgId, filter).toClient, out);
    if filter.Predefined? {
      FindIdIs(s.topics.entries, PREDEFINED, filter.id);
      FindIdIs(gw.entries, PREDEFINED, filter.id);
    }
  }

  lemma PublishTold(gw: Table, s: State, p: SnPublish, out: ToClient)
    ensures HandleClientPublish(s, gw, p).toClient == s.toClient + [out] <==> Owed(gw, s, ClientRecv(Publish(p)), out)
  {
    OneMore(s.toClient, HandleClientPublish(s, gw, p).toClient, out);
    NoTopicIff(gw, s, p.topic);
  }

  /** Nothing resolves a reference that means no topic. */
  lemma NoTopicIff(gw: Table, s: State, r: TopicRef)
    ensures Resolve(s.topics, gw, r).1.None? <==> forall name :: !Means(s.topics, gw, r, name)
    ensures forall name :: Resolve(s.topics, gw, r).1 == Some(name) <==> Means(s.topics, gw, r, name)
  {
    forall name ensures Resolve(s.topics, gw, r).1 == Some(name) <==> Means(s.topics, gw, r, name) {
      ResolveIs(s.topics, gw, r, name);
    }
  }

  lemma ClientTold(gw: Table, s: State, c: FromClient, out: ToClient)
    requires TopicTable.Inv(s.topics)
    ensures HandleClient(s, gw, c).toClient == s.toClient + [out] <==> Owed(gw, s, ClientRecv(c), out)
  {
    match c
    case Publish(p) => PublishTold(gw, s, p, out);
    case Register(msgId, name) => RegisterTold(gw, s, msgId, name, out);
    case Regack(msgId) => RegackTold(gw, s, msgId, out);
    case Subscribe(qos, msgId, filter) => SubscribeTold(gw, s, qos, msgId, filter, out);
    case _ => PlainTold(gw, s, c, out);
  }

  lemma KnownOwed(gw: Table, s: State, m: GwPublish, out: ToClient)
    requires TopicTable.Inv(s.topics) && Listening(s) && !NeedsRegister(s.topics, m)
    ensures Owed(gw, s, BrokerRecv(BrokerPublish(m)), out)
            <==> && out.SendPublish? && SaysSame(out.p, m)
                 && if |m.topic| <= 2 then out.p.topic == ShortName(m)
                    else var e := FindName(s.topics.entries, m.topic);
                         e.Some? && out.p.topic == TopicRef.ById(e.value.typ, e.value.id)
  {
    StrangeIs(s.topics, m);
    var known := FindName(s.topics.entries, m.topic);
    if known.Some? {
      forall x | x in s.topics.entries && x.name == m.topic ensures x == known.value {
        InvMeaning(s.topics, x, known.value);
      }
    }
  }

  lemma KnownSent(s: State, m: GwPublish)
    requires !NeedsRegister(s.topics, m)
    ensures var t, e := Forward(s, m), FindName(s.topics.entries, m.topic);
            t.toClient == if |m.topic| <= 2 then s.toClient + [SendPublish(ToSn(m, ShortName(m)))]
                          else if e.Some? then
                            s.toClient + [SendPublish(ToSn(m, TopicRef.ById(e.value.typ, e.value.id)))]
                          else s.toClient
  {
  }

  lemma HeldOwed(gw: Table, s: State, m: GwPublish, out: ToClient)
    requires TopicTable.Inv(s.topics) && Listening(s) && NeedsRegister(s.topics, m)
    ensures Owed(gw, s, BrokerRecv(BrokerPublish(m)), out)
            <==> && out.SendRegister? && out.name == m.topic && out.msgId == NextSnMsgId(s.snMsgId)
                 && var e := TopicTable.Register(s.topics, NORMAL, m.topic).1;
                    e.Some? && out.id == e.value.id
  {
    NextSnMsgIdIs(s.snMsgId);
    StrangeIs(s.topics, m);
    if out.SendRegister? {
      RegistersId(s.topics, m.topic, out.id);
    } else if out.SendPublish? {
      assert !NamedBy(s.topics, out.p.topic, m);
    }
  }

  lemma NextSnMsgIdIs(id: nat)
    ensures NextSnMsgId(id) == if id % 256 == 255 then 1 else id % 256 + 1
  {
  }

  lemma HeldSent(s: State, m: GwPublish)
    requires NeedsRegister(s.topics, m)
    ensures var t, e := Forward(s, m), TopicTable.Register(s.topics, NORMAL, m.topic).1;
            t.toClient == if e.Some? then s.toClient + [SendRegister(e.value.id, NextSnMsgId(s.snMsgId), m.topic)]
                          else s.toClient
  {
  }

  lemma ForwardTold(gw: Table, s: State, m: GwPublish, out: ToClient)
    requires TopicTable.Inv(s.topics)
    ensures HandlePublish(s, m).toClient == s.toClient + [out] <==> Owed(gw, s, BrokerRecv(BrokerPublish(m)), out)
  {
    OneMore(s.toClient, HandlePublish(s, m).toClient, out);
    if !Listening(s) {
      assert HandlePublish(s, m).toClient == s.toClient;
    } else if NeedsRegister(s.topics, m) {
      HeldOwed(gw, s, m, out);
      HeldSent(s, m);
    } else {
      KnownOwed(gw, s, m, out);
      KnownSent(s, m);
    }
  }

  lemma PubackOwed(gw: Table, s: State, msgId: nat, out: ToClient)
    requires TopicIds.Unique(s.pubIds)
    ensures Owed(gw, s, BrokerRecv(BrokerPuback(msgId)), out)
            <==> var r := Lookup(s.pubIds, msgId);
                 r.Some? && out == SendPuback(r.value.topicId, msgId, 0)
  {
    forall r ensures Lookup(s.pubIds, msgId) == Some(r) <==> r in s.pubIds && r.msgId == msgId {
      LookupMember(s.pubIds, msgId, r);
    }
  }

  lemma BrokerTold(gw: Table, s: State, b: FromBroker, out: ToClient)
    requires Tables(s)
    ensures HandleBroker(s, b).toClient == s.toClient + [out] <==> Owed(gw, s, BrokerRecv(b), out)
  {
    match b
    case BrokerPublish(m) => ForwardTold(gw, s, m, out);
    case BrokerPuback(msgId) =>
      OneMore(s.toClient, HandlePuback(s, msgId).toClient, out);
      PubackOwed(gw, s, msgId, out);
    case _ => OneMore(s.toClient, HandleBroker(s, b).toClient, out);
  }

  // ---- packet by packet, to the broker ----

  lemma RegackAsked(gw: Table, s: State, msgId: nat, out: ToBroker)
    ensures HandleRegAck(s, msgId).toBroker == s.toBroker + [out]
            <==> OwedToBroker(gw, s, ClientRecv(Regack(msgId)), out)
  {
    OneMore(s.toBroker, HandleRegAck(s, msgId).toBroker, out);
    PingNowIs(s, ClientRecv(Regack(msgId)));
  }

  lemma PlainAsked(gw: Table, s: State, c: FromClient, out: ToBroker)
    requires !c.Publish? && !c.Subscribe? && !c.Regack?
    ensures HandleClient(s, gw, c).toBroker == s.toBroker + [out] <==> OwedToBroker(gw, s, ClientRecv(c), out)
  {
    OneMore(s.toBroker, HandleClient(s, gw, c).toBroker, out);
  }

  lemma PublishAsked(gw: Table, s: State, p: SnPublish, out: ToBroker)
    ensures HandleClientPublish(s, gw, p).toBroker == s.toBroker + [out]
            <==> OwedToBroker(gw, s, ClientRecv(Publish(p)), out)
  {
    OneMore(s.toBroker, HandleClientPublish(s, gw, p).toBroker, out);
    NoTopicIff(gw, s, p.topic);
  }

  lemma FilterAsked(gw: Table, s: State, filter: Filter, name: string)
    requires TopicTable.Inv(s.topics)
    ensures FilterIs(gw, s, filter, name)
            <==> match filter
                 case Named(f) =>
                   var e := TopicTable.Register(s.topics, NORMAL, f).1; e.Some? && e.value.name == name
                 case Predefined(id) => Resolve(s.topics, gw, TopicRef.ById(PREDEFINED, id)).1 == Some(name)
                 case Short(c0, c1) => name == CStr([c0, c1])
  {
    match filter
    case Named(f) =>
      var e := TopicTable.Register(s.topics, NORMAL, f).1;
      forall x ensures Registers(s.topics, f, x) <==> e == Some(x) { RegisterIs(s.topics, f, x); }
    case Predefined(id) => NoTopicIff(gw, s, TopicRef.ById(PREDEFINED, id));
    case Short(c0, c1) => CStrIs([c0, c1], name);
  }

  lemma SubscribeAsked(gw: Table, s: State, qos: nat, msgId: nat, filter: Filter, out: ToBroker)
    requires TopicTable.Inv(s.topics)
    ensures HandleSubscribe(s, gw, qos, msgId, filter).toBroker == s.toBroker + [out]
            <==> OwedToBroker(gw, s, ClientRecv(Subscribe(qos, msgId, filter)), out)
  {
    OneMore(s.toBroker, HandleSubscribe(s, gw, qos, msgId, filter).toBroker, out);
    if out.SubscribeBroker? { FilterAsked(gw, s, filter, out.name); }
  }

  lemma ForwardAsked(gw: Table, s: State, m: GwPublish, out: ToBroker)
    ensures HandlePublish(s, m).toBroker == s.toBroker + [out]
            <==> OwedToBroker(gw, s, BrokerRecv(BrokerPublish(m)), out)
  {
    OneMore(s.toBroker, HandlePublish(s, m).toBroker, out);
    AnswersIff(s, m);
  }

  lemma AnswersIff(s: State, m: GwPublish)
    ensures HandlePublish(s, m).toBroker == if AnsweredHere(s, m) then ReplyAck(s, m).toBroker else s.toBroker
  {
    StrangeIs(s.topics, m);
  }

  lemma BrokerAsked(gw: Table, s: State, b: FromBroker, out: ToBroker)
    ensures HandleBroker(s, b).toBroker == s.toBroker + [out] <==> OwedToBroker(gw, s, BrokerRecv(b), out)
  {
    match b
    case BrokerPublish(m) => ForwardAsked(gw, s, m, out);
    case _ => OneMore(s.toBroker, HandleBroker(s, b).toBroker, out);
  }

  lemma ClientAsked(gw: Table, s: State, c: FromClient, out: ToBroker)
    requires TopicTable.Inv(s.topics)
    ensures HandleClient(s, gw, c).toBroker == s.toBroker + [out] <==> OwedToBroker(gw, s, ClientRecv(c), out)
  {
    match c
    case Publish(p) => PublishAsked(gw, s, p, out);
    case Subscribe(qos, msgId, filter) => SubscribeAsked(gw, s, qos, msgId, filter, out);
    case Regack(msgId) => RegackAsked(gw, s, msgId, out);
    case _ => PlainAsked(gw, s, c, out);
  }

  // ---- every run ----

  /** A log that has grown by one packet at most. */
  predicate GrownByOne<T(==)>(log: seq<T>, now: seq<T>) { log <= now && |now| <= |log| + 1 }

  lemma OneEach(gw: Table, s: State, e: Event)
    ensures GrownByOne(s.toClient, Handled(gw, s, e).toClient) && GrownByOne(s.toBroker, Handled(gw, s, e).toBroker)
  {
    match e
    case BrokerRecv(b) => if b.BrokerPublish? { OneForPublish(s, b.m); }
    case ClientRecv(c) => OneForClient(gw, s, c);
    case Foreign =>
  }

  lemma OneForPublish(s: State, m: GwPublish)
    ensures GrownByOne(s.toClient, HandlePublish(s, m).toClient) && GrownByOne(s.toBroker, HandlePublish(s, m).toBroker)
  {
  }

  lemma OneForClient(gw: Table, s: State, c: FromClient)
    ensures GrownByOne(s.toClient, HandleClient(s, gw, c).toClient)
    ensures GrownByOne(s.toBroker, HandleClient(s, gw, c).toBroker)
  {
    match c
    case Publish(p) => OneForClientPublish(gw, s, p);
    case Subscribe(qos, msgId, filter) => OneForSubscribe(gw, s, qos, msgId, filter);
    case _ =>
  }

  lemma OneForClientPublish(gw: Table, s: State, p: SnPublish)
    ensures GrownByOne(s.toClient, HandleClientPublish(s, gw, p).toClient)
    ensures GrownByOne(s.toBroker, HandleClientPublish(s, gw, p).toBroker)
  {
  }

  lemma OneForSubscribe(gw: Table, s: State, qos: nat, msgId: nat, filter: Filter)
    ensures GrownByOne(s.toClient, HandleSubscribe(s, gw, qos, msgId, filter).toClient)
    ensures GrownByOne(s.toBroker, HandleSubscribe(s, gw, qos, msgId, filter).toBroker)
  {
  }

  /** In every run each step puts at most one packet on each of the two send queues, and exactly the one that the
      event calls for: nothing owed is left out, nothing else is sent. */
  lemma SentIff(gw: Table, own: Table, acts: seq<Act>, a: Act, out: ToClient, ask: ToBroker)
    requires TopicTable.Inv(own) && Exec(gw, Start(own), acts).Some? && Enabled(Exec(gw, Start(own), acts).value, a)
    ensures var r := Exec(gw, Start(own), acts).value;
            var t := Next(gw, r, a).s;
            && GrownByOne(r.s.toClient, t.toClient) && GrownByOne(r.s.toBroker, t.toBroker)
            && (t.toClient == r.s.toClient + [out] <==> a.Dispatch? && Owed(gw, Popped(r.s), r.s.events[0], out))
            && (t.toBroker == r.s.toBroker + [ask] <==>
                  a.Dispatch? && OwedToBroker(gw, Popped(r.s), r.s.events[0], ask))
  {
    ExecInv(gw, Start(own), acts);
    var r := Exec(gw, Start(own), acts).value;
    if a.Dispatch? {
      HandledSentIff(gw, Popped(r.s), r.s.events[0], out, ask);
    }
  }

  lemma HandledSentIff(gw: Table, s: State, e: Event, out: ToClient, ask: ToBroker)
    requires Tables(s)
    ensures var t := Handled(gw, s, e);
            && GrownByOne(s.toClient, t.toClient) && GrownByOne(s.toBroker, t.toBroker)
            && (t.toClient == s.toClient + [out] <==> Owed(gw, s, e, out))
            && (t.toBroker == s.toBroker + [ask] <==> OwedToBroker(gw, s, e, ask))
  {
    OneEach(gw, s, e);
    match e
    case ClientRecv(c) =>
      ClientTold(gw, s, c, out);
      ClientAsked(gw, s, c, ask);
    case BrokerRecv(b) =>
      BrokerTold(gw, s, b, out);
      BrokerAsked(gw, s, b, ask);
    case Foreign =>
  }

  /** The only packet with which a PUBLISH of the client is answered at once is the PUBACK that rejects it: it carries
      the id and the message id of the PUBLISH and return code 2, and is sent exactly when an answer is expected
      and there is no such topic; the broker is then sent nothing. */
  lemma RejectedIff(gw: Table, own: Table, acts: seq<Act>, p: SnPublish, out: ToClient)
    requires TopicTable.Inv(own)
    requires Exec(gw, Start(own), acts).Some? && Enabled(Exec(gw, Start(own), acts).value, Dispatch)
    requires Exec(gw, Start(own), acts).value.s.events[0] == ClientRecv(Publish(p))
    ensures var r := Exec(gw, Start(own), acts).value;
            var t := Next(gw, r, Dispatch).s;
            && (t.toClient == r.s.toClient + [out] <==>
                  Rejected(gw, r.s, p) && p.topic.ById? && out == SendPuback(p.topic.id, p.msgId, 2))
            && (Rejected(gw, r.s, p) ==> p.topic.ById? && t.toBroker == r.s.toBroker)
            && (!Rejected(gw, r.s, p) ==> t.toClient == r.s.toClient)
  {
    var r := Exec(gw, Start(own), acts).value;
    RejectedMeans(gw, Popped(r.s), p);
    OneMore(r.s.toClient, Next(gw, r, Dispatch).s.toClient, out);
  }

  lemma RejectedMeans(gw: Table, s: State, p: SnPublish)
    ensures var t := HandleClientPublish(s, gw, p);
            if Rejected(gw, s, p) then
              && p.topic.ById? && t.toBroker == s.toBroker
              && t.toClient == s.toClient + [SendPuback(p.topic.id, p.msgId, 2)]
            else t.toClient == s.toClient
  {
    NoTopicIff(gw, s, p.topic);
    if p.topic.ByShortName? {
      assert Means(s.topics, gw, p.topic, [p.topic.c0, p.topic.c1]);
    }
  }

  /** A SUBSCRIBE goes on to the broker. */
  predicate Reaches(gw: Table, es: seq<Entry>, msgId: nat, filter: Filter) {
    msgId != 0 &&
    match filter
    case Named(f) => |es| < 50 || HasName(es, f)
    case Predefined(id) => Has(es, PREDEFINED, id) || (|es| < 50 && Has(gw.entries, PREDEFINED, id))
    case Short(_, _) => true
  }

  /** The filter that the broker is told. */
  predicate FilterTold(gw: Table, es: seq<Entry>, filter: Filter, name: string) {
    match filter
    case Named(f) => IsCString(name, f)
    case Predefined(id) =>
      if Has(es, PREDEFINED, id) then Calls(es, PREDEFINED, id, name) else Calls(gw.entries, PREDEFINED, id, name)
    case Short(c0, c1) => IsCString(name, [c0, c1])
  }

  lemma TheName(gw: Table, s: State, filter: Filter) returns (name: string)
    requires TopicTable.Inv(s.topics) && CNames(s.topics) && Reaches(gw, s.topics.entries, 1, filter)
    ensures FilterIs(gw, s, filter, name) && FilterTold(gw, s.topics.entries, filter, name)
  {
    var es := s.topics.entries;
    match filter
    case Named(f) =>
      var e := TopicTable.Register(s.topics, NORMAL, f).1.value;
      RegisterIs(s.topics, f, e);
      name := e.name;
    case Predefined(id) =>
      FindIdIs(es, PREDEFINED, id);
      FindIdIs(gw.entries, PREDEFINED, id);
      var e := if Has(es, PREDEFINED, id) then FindId(es, PREDEFINED, id) else FindId(gw.entries, PREDEFINED, id);
      name := e.value.name;
      CallsIs(es, PREDEFINED, id, name);
      CallsIs(gw.entries, PREDEFINED, id, name);
    case Short(c0, c1) =>
      name := CStr([c0, c1]);
      CStrIs([c0, c1], name);
  }

  lemma NotReached(gw: Table, s: State, qos: nat, msgId: nat, filter: Filter)
    requires !Reaches(gw, s.topics.entries, msgId, filter)
    ensures HandleSubscribe(s, gw, qos, msgId, filter).toBroker == s.toBroker
  {
    if filter.Predefined? {
      FindIdIs(s.topics.entries, PREDEFINED, filter.id);
      FindIdIs(gw.entries, PREDEFINED, filter.id);
    }
  }

  lemma FilterPassed(gw: Table, s: State, qos: nat, msgId: nat, filter: Filter) returns (name: string)
    requires TopicTable.Inv(s.topics) && CNames(s.topics) && Reaches(gw, s.topics.entries, msgId, filter)
    ensures FilterTold(gw, s.topics.entries, filter, name)
    ensures HandleSubscribe(s, gw, qos, msgId, filter).toBroker == s.toBroker + [SubscribeBroker(name, qos, msgId)]
  {
    name := TheName(gw, s, filter);
    SubscribeAsked(gw, s, qos, msgId, filter, SubscribeBroker(name, qos, msgId));
  }

  lemma SubscribePassed(gw: Table, s: State, qos: nat, msgId: nat, filter: Filter)
    requires TopicTable.Inv(s.topics) && CNames(s.topics)
    ensures var es, asked := s.topics.entries, HandleSubscribe(s, gw, qos, msgId, filter).toBroker;
            if Reaches(gw, es, msgId, filter) then
              exists name :: FilterTold(gw, es, filter, name)
                             && asked == s.toBroker + [SubscribeBroker(name, qos, msgId)]
            else asked == s.toBroker
  {
    if Reaches(gw, s.topics.entries, msgId, filter) {
      var name := FilterPassed(gw, s, qos, msgId, filter);
    } else {
      NotReached(gw, s, qos, msgId, filter);
    }
  }

  /** In every run a client's SUBSCRIBE with a message id reaches the broker as exactly one SUBSCRIBE, with the same QoS
      and message id, unless the topic table is full and does not have the topic, or nobody has the predefined id.
      The filter is the name as a C function reads it, the topic that the client's table, or else the
      gateway's, has for the predefined id, or the two characters. For an id that neither has the client, and
      only then, is told: SUBACK with return code 3. */
  lemma SubscribeIff(gw: Table, own: Table, acts: seq<Act>, qos: nat, msgId: nat, filter: Filter, out: ToClient)
    requires Configuration(own) && Configuration(gw)
    requires Exec(gw, Start(own), acts).Some? && Enabled(Exec(gw, Start(own), acts).value, Dispatch)
    requires Exec(gw, Start(own), acts).value.s.events[0] == ClientRecv(Subscribe(qos, msgId, filter))
    ensures var r := Exec(gw, Start(own), acts).value;
            var es, t := r.s.topics.entries, Next(gw, r, Dispatch).s;
            && (if Reaches(gw, es, msgId, filter) then
                  exists name :: FilterTold(gw, es, filter, name)
                                 && t.toBroker == r.s.toBroker + [SubscribeBroker(name, qos, msgId)]
                else t.toBroker == r.s.toBroker)
            && (t.toClient == r.s.toClient + [out] <==>
                  && msgId != 0 && filter.Predefined? && out == SendSuback(qos, filter.id, msgId, 3)
                  && !Has(es, PREDEFINED, filter.id) && !Has(gw.entries, PREDEFINED, filter.id))
  {
    ExecInv(gw, Start(own), acts);
    ExecCNames(gw, Start(own), acts);
    var r := Exec(gw, Start(own), acts).value;
    SubscribePassed(gw, Popped(r.s), qos, msgId, filter);
    SubscribeTold(gw, Popped(r.s), qos, msgId, filter, out);
  }

  /** A topic of two characters is its own short name; one of one character takes the byte behind it in the packet, that
      of the message id or else of the payload, for its second. */
  lemma ShortNameIs(m: GwPublish)
    requires 1 <= |m.topic| <= 2
    ensures var r := ShortName(m);
            && r.ByShortName? && r.c0 == m.topic[0]
            && (|m.topic| == 2 ==> r.c1 == m.topic[1])
            && (|m.topic| == 1 && m.qos > 0 ==> r.c1 as int == m.msgId / 256 % 256)
            && (|m.topic| == 1 && m.qos == 0 && m.payload != [] ==> r.c1 as int == m.payload[0])
  {
  }

  /** What a handler has done to the buffer and the event queue. */
  predicate BufferIs(s: State, t: State)
    requires s.events != []
  {
    match s.events[0]
    case BrokerRecv(BrokerPublish(m)) =>
      && t.events == s.events[1..]
      && t.stored == if s.status == Asleep && |s.stored| < 20 then s.stored + [m] else s.stored
    case ClientRecv(c) =>
      if Sleepy(s) && (c.Connect? || c.Pingreq?) then
        var n := |s.events| - 1;
        && t.stored == [] && s.events[1..] <= t.events
        && |t.events| == (if n + |s.stored| < 1000 then n + |s.stored| else 1000)
        && forall i :: n <= i < |t.events| ==> t.events[i] == BrokerRecv(BrokerPublish(s.stored[i - n]))
      else t.events == s.events[1..] && t.stored == s.stored
    case _ => t.events == s.events[1..] && t.stored == s.stored
  }

  lemma HandledRoom(gw: Table, s: State)
    requires s.events != [] && |s.events| <= 1000
    ensures BufferIs(s, Handled(gw, Popped(s), s.events[0]))
  {
    BufferAfter(gw, Popped(s), s.events[0]);
  }

  /** In every run, what there is room for: an event is queued exactly while fewer than 1000 are, a PUBLISH for a
      sleeping client is saved exactly while fewer than twenty are, and a drain fills the event queue up to 1000. */
  lemma RoomIff(gw: Table, own: Table, acts: seq<Act>, a: Act)
    requires TopicTable.Inv(own) && Exec(gw, Start(own), acts).Some? && Enabled(Exec(gw, Start(own), acts).value, a)
    ensures var r := Exec(gw, Start(own), acts).value;
            var s, t := r.s, Next(gw, r, a).s;
            && |s.events| <= 1000 && |s.stored| <= 20
            && (match a
                case BrokerSends(b) => t.events == if |s.events| < 1000 then s.events + [BrokerRecv(b)] else s.events
                case ClientSends(c) => t.events == if |s.events| < 1000 then s.events + [ClientRecv(c)] else s.events
                case OthersPost => t.events == if |s.events| < 1000 then s.events + [Foreign] else s.events
                case Dispatch => BufferIs(s, t)
                case _ => t.events == s.events && t.stored == s.stored)
  {
    ExecInv(gw, Start(own), acts);
    var r := Exec(gw, Start(own), acts).value;
    if a.Dispatch? {
      HandledRoom(gw, r.s);
    }
  }
}
