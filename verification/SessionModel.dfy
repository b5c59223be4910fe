/** One client's session in the gateway, as the thread that handles packets sees it: its state,
    the packet event queue it is fed from, and what the handlers put on the send queues.
    Every handler is a function from state to state. */
module SessionModel {
  import opened SortedMap
  import Wire
  import opened LinkedQueue
  import opened LinkedTable
  import opened TopicTable
  import opened TopicIds

  const MAX_SAVED_PUBLISH := 20
  const MAX_PACKET_EVENTS := 1000   // MAX_INFLIGHTMESSAGES * MAX_CLIENTS

  const RC_ACCEPTED := 0
  const RC_REJECTED_CONGESTED := 1
  const RC_REJECTED_INVALID_TOPIC_ID := 2
  const RC_NOT_SUPPORTED := 3

  const MQTT_CONNECTION_ACCEPTED := 0
  const MQTT_SERVER_UNAVAILABLE := 3

  type Bytes = Wire.Bytes

  datatype Status = Disconnected | TryConnecting | Connecting | Active | Asleep | Awake | Lost

  datatype AckType = PUBREC | PUBREL | PUBCOMP

  /** How an MQTT-SN PUBLISH names its topic. */
  datatype TopicRef = ById(typ: TopicType, id: nat) | ByShortName(c0: char, c1: char)

  /** An MQTT PUBLISH. */
  datatype GwPublish = GwPublish(dup: bool, qos: nat, retain: bool, topic: string, msgId: nat, payload: Bytes)

  /** An MQTT-SN PUBLISH. */
  datatype SnPublish = SnPublish(dup: bool, qos: nat, retain: bool, topic: TopicRef, msgId: nat, payload: Bytes)

  /** What a SUBSCRIBE is to: a NORMAL topic by its name, a predefined id, or a short name. */
  datatype Filter = Named(name: string) | Predefined(id: nat) | Short(c0: char, c1: char)

  datatype FromClient =
    | Connect(cleanSession: bool, will: bool)
    | Disconnect(duration: nat)
    | Pingreq
    | Publish(p: SnPublish)
    | Puback(msgId: nat, rc: nat)
    | Ack(typ: AckType, msgId: nat)
    | Register(msgId: nat, name: string)
    | Regack(msgId: nat)
    | Subscribe(qos: nat, msgId: nat, filter: Filter)
    | Pingresp

  datatype FromBroker =
    | BrokerConnack(rc: nat)
    | BrokerPingresp
    | BrokerPublish(m: GwPublish)
    | BrokerPuback(msgId: nat)
    | BrokerAck(typ: AckType, msgId: nat)

  datatype Event = ClientRecv(c: FromClient) | BrokerRecv(b: FromBroker) | Foreign   // Foreign: another client's

  datatype ToClient =
    | SendConnack(rc: nat)
    | SendWillTopicReq
    | SendDisconnect
    | SendPingresp
    | SendPublish(p: SnPublish)
    | SendRegister(id: nat, msgId: nat, name: string)
    | SendPuback(topicId: nat, msgId: nat, rc: nat)
    | SendAck(typ: AckType, msgId: nat)
    | SendRegack(id: nat, msgId: nat, rc: nat)
    | SendSuback(qos: nat, id: nat, msgId: nat, rc: nat)

  datatype ToBroker =
    | ConnectBroker
    | DisconnectBroker
    | PingBroker
    | PublishBroker(m: GwPublish)
    | PubackBroker(msgId: nat)
    | AckBroker(typ: AckType, msgId: nat)
    | SubscribeBroker(name: string, qos: nat, msgId: nat)

  /** A PUBLISH that waits for the REGACK of the REGISTER sent before it. */
  datatype Wait = Wait(regackMsgId: nat, p: SnPublish)

  datatype State = State(
    status: Status,
    topics: Table,
    pubIds: seq<IdRec>,
    waiting: seq<Wait>,
    snMsgId: nat,
    stored: seq<GwPublish>,
    hold: bool,
    events: seq<Event>,
    toClient: seq<ToClient>,
    toBroker: seq<ToBroker>,
    crashed: bool)               // a null pointer was followed: the gateway is gone

  const INITIAL := State(Disconnected, EMPTY, [], [], 0, [], false, [], [], [], false)

  // ---- small steps shared by the handlers ----

  function ToC(s: State, m: ToClient): State { s.(toClient := s.toClient + [m]) }

  function ToB(s: State, m: ToBroker): State { s.(toBroker := s.toBroker + [m]) }

  function PostEvent(s: State, e: Event): State {
    if HasRoom(|s.events|, MAX_PACKET_EVENTS) then s.(events := s.events + [e]) else s
  }

  /** Client::getNextSnMsgId on a uint8_t. */
  function NextSnMsgId(id: nat): nat {
    var n := (id + 1) % 256;
    if n == 0 then 1 else n
  }

  predicate Dozing(s: State) { s.status == Asleep || s.status == Awake }

  predicate Listening(s: State) { s.status == Active || s.status == Awake }

  function Requeued(ms: seq<GwPublish>): (r: seq<Event>)
    ensures |r| == |ms| && forall i :: 0 <= i < |ms| ==> r[i] == BrokerRecv(BrokerPublish(ms[i]))
  {
    seq(|ms|, i requires 0 <= i < |ms| => BrokerRecv(BrokerPublish(ms[i])))
  }

  function Min(a: nat, b: nat): nat { if a < b then a else b }

  /** How many more events the packet event queue takes. */
  function Room(s: State): nat { if |s.events| < MAX_PACKET_EVENTS then MAX_PACKET_EVENTS - |s.events| else 0 }

  /** sendStoredPublish: the whole buffer goes back to the event queue, in saved order;
      what finds the queue full is lost. */
  function SendStored(s: State): State {
    s.(stored := [], events := s.events + Requeued(s.stored[..Min(Room(s), |s.stored|)]))
  }

  // ---- packets from the broker ----

  function ReplyAck(s: State, m: GwPublish): State {
    if m.qos == 1 then ToB(s, PubackBroker(m.msgId))
    else if m.qos == 2 then ToB(s, AckBroker(PUBREC, m.msgId))
    else s
  }

  function StorePublish(s: State, m: GwPublish): State {
    if HasRoom(|s.stored|, MAX_SAVED_PUBLISH) then s.(stored := s.stored + [m]) else s
  }

  function ToSn(m: GwPublish, ref: TopicRef): SnPublish {
    SnPublish(m.dup, m.qos, m.retain, ref, m.msgId, m.payload)
  }

  /** The bytes of the packet that follow the topic. */
  function Following(m: GwPublish): Bytes {
    (if m.qos > 0 then Wire.IntBytes(m.msgId) else []) + m.payload
  }

  /** The first two bytes from the topic on; a topic of one byte drags its successor in. */
  function ShortName(m: GwPublish): TopicRef {
    var f := Following(m);
    var at := (i: nat) => if i < |m.topic| then m.topic[i]
                          else if i - |m.topic| < |f| then f[i - |m.topic|] as char else '\0';
    ByShortName(at(0), at(1))
  }

  /** No topic of the table has the name, so only a wildcard may explain it. */
  predicate Unknown(t: Table, m: GwPublish) {
    |m.topic| > 2 && FindName(t.entries, m.topic).None?
  }

  /** Only a wildcard subscription explains the topic. */
  predicate NeedsRegister(t: Table, m: GwPublish) {
    Unknown(t, m) && FindMatch(t.entries, m.topic).Some?
  }

  /** No subscription explains the topic. */
  predicate Unexplained(t: Table, m: GwPublish) {
    Unknown(t, m) && FindMatch(t.entries, m.topic).None?
  }

  /** handlePublish of an awake client: a short name, a known topic, or a topic that only a
      wildcard subscription explains and that has to be registered first. */
  function Forward(s: State, m: GwPublish): State {
    if |m.topic| <= 2 then ToC(s, SendPublish(ToSn(m, ShortName(m))))
    else match FindName(s.topics.entries, m.topic)
      case Some(e) => ToC(s, SendPublish(ToSn(m, ById(e.typ, e.id))))
      case None =>
        match FindMatch(s.topics.entries, m.topic)
        case None => ReplyAck(s, m)
        case Some(_) => RegisterAndHold(s, m)
  }

  function RegisterAndHold(s: State, m: GwPublish): State {
    var (topics, e) := TopicTable.Register(s.topics, NORMAL, m.topic);
    match e
    case None => s.(topics := topics, crashed := true)    // the table is full: null is followed
    case Some(e) => HoldBack(s.(topics := topics), e.id, m)
  }

  /** Sends the REGISTER for a new id and keeps the PUBLISH until it is acknowledged. */
  function HoldBack(s: State, id: nat, m: GwPublish): State {
    var msgId := NextSnMsgId(s.snMsgId);
    ToC(s, SendRegister(id, msgId, m.topic)).(
      snMsgId := msgId, waiting := s.waiting + [Wait(msgId, ToSn(m, ById(NORMAL, id)))])
  }

  function HandlePublish(s: State, m: GwPublish): State {
    if s.status == Asleep then StorePublish(ReplyAck(s, m), m)
    else if Listening(s) then Forward(s, m)
    else s
  }

  function HandlePuback(s: State, msgId: nat): State {
    match Lookup(s.pubIds, msgId)
    case Some(r) => ToC(s, SendPuback(r.topicId, msgId, RC_ACCEPTED)).(pubIds := Drop(s.pubIds, msgId))
    case None => s
  }

  function HandleAck(s: State, typ: AckType, msgId: nat): State {
    if Listening(s) then ToC(s, SendAck(typ, msgId))
    else if s.status == Asleep && typ == PUBREL then ToB(s, AckBroker(PUBCOMP, msgId))
    else s
  }

  function HandlePingresp(s: State): State {
    ToC(s, SendPingresp).(status := if Dozing(s) then Asleep else s.status)
  }

  /** The MQTT-SN return code for an MQTT one. */
  function ConnackCode(rc: nat): nat {
    if rc == MQTT_CONNECTION_ACCEPTED then RC_ACCEPTED
    else if rc == MQTT_SERVER_UNAVAILABLE then RC_REJECTED_CONGESTED
    else RC_NOT_SUPPORTED
  }

  function HandleConnack(s: State, rc: nat): State {
    ToC(s, SendConnack(ConnackCode(rc))).(status := if ConnackCode(rc) == RC_ACCEPTED then Active else Disconnected)
  }

  function HandleBroker(s: State, b: FromBroker): State {
    match b
    case BrokerConnack(rc) => HandleConnack(s, rc)
    case BrokerPingresp => HandlePingresp(s)
    case BrokerPublish(m) => HandlePublish(s, m)
    case BrokerPuback(msgId) => HandlePuback(s, msgId)
    case BrokerAck(typ, msgId) => HandleAck(s, typ, msgId)
  }

  // ---- packets from the client ----

  function HandleConnect(s: State, cleanSession: bool, will: bool): State {
    if Dozing(s) then SendStored(ToC(s, SendConnack(RC_ACCEPTED)))
    else
      var t := Restarted(s, cleanSession);
      if will then ToC(t, SendWillTopicReq) else ToB(t, ConnectBroker)
  }

  /** The session begins anew; a clean one forgets what the client has registered. The PUBLISHes
      that wait for a REGACK and the stored ones stay. */
  function Restarted(s: State, cleanSession: bool): State {
    var t := s.(status := Disconnected);
    if cleanSession then t.(pubIds := [], topics := EraseNormal(t.topics)) else t
  }

  function HandleDisconnect(s: State, duration: nat): State {
    ToC(if duration == 0 then ToB(s, DisconnectBroker) else s, SendDisconnect)
  }

  function HandlePingreq(s: State): State {
    if Dozing(s) && s.stored != [] then SendStored(s).(hold := true)
    else ToB(s, PingBroker).(hold := false)
  }

  /** A short name as the 16-bit id the C union makes of it on a little-endian machine. */
  function RefId(r: TopicRef): nat {
    match r
    case ById(_, id) => id
    case ByShortName(c0, c1) => c0 as int % 256 + 256 * (c1 as int % 256)
  }

  function RefType(r: TopicRef): TopicType {
    match r
    case ById(typ, _) => typ
    case ByShortName(_, _) => SHORT
  }

  /** The topic of a PUBLISH: from the client's table or else from the gateway's predefined
      topics `gw`, from where it is copied into the client's table. */
  function Resolve(topics: Table, gw: Table, r: TopicRef): (Table, Option<string>) {
    match r
    case ByShortName(c0, c1) => (topics, Some([c0, c1]))
    case ById(typ, id) =>
      match FindId(topics.entries, typ, id)
      case Some(e) => (topics, Some(e.name))
      case None =>
        match FindId(gw.entries, typ, id)
        case None => (topics, None)
        case Some(g) =>
          var (t, e) := AddName(topics, g.name, g.id);
          (t, if e.Some? then Some(e.value.name) else None)
  }

  function ToGw(p: SnPublish, topic: string): GwPublish {
    GwPublish(p.dup, if p.qos == 3 then 0 else p.qos, p.retain, topic, p.msgId, p.payload)
  }

  function HandleClientPublish(s: State, gw: Table, p: SnPublish): State {
    var (topics, name) := Resolve(s.topics, gw, p.topic);
    var t := s.(topics := topics);
    var answerable := p.msgId != 0 && 0 < p.qos < 3;
    if name.None? && p.qos == 3 then t
    else if name.None? && answerable then
      ToC(t, SendPuback(RefId(p.topic), p.msgId, RC_REJECTED_INVALID_TOPIC_ID))
    else
      var u := if !answerable then t
               else t.(pubIds := Insert(t.pubIds, IdRec(p.msgId, RefId(p.topic), RefType(p.topic))));
      ToB(u, PublishBroker(ToGw(p, name.GetOr(""))))
  }

  function HandleRegister(s: State, msgId: nat, name: string): State {
    if !Listening(s) then s
    else
      var (topics, e) := TopicTable.Register(s.topics, NORMAL, name);
      match e
      case None => s.(topics := topics, crashed := true)    // the table is full: null is followed
      case Some(e) => ToC(s.(topics := topics), SendRegack(e.id, msgId, RC_ACCEPTED))
  }

  function ByRegack(msgId: nat): Wait -> bool { (w: Wait) => w.regackMsgId == msgId }

  function WithoutFirst(waiting: seq<Wait>, msgId: nat): seq<Wait> {
    var i := FirstIndex(waiting, ByRegack(msgId));
    if i < |waiting| then Without(waiting, i) else waiting
  }

  /** Releases the first PUBLISH waiting for this REGACK. */
  function Released(s: State, msgId: nat): State {
    var i := FirstIndex(s.waiting, ByRegack(msgId));
    if i < |s.waiting| then ToC(s, SendPublish(s.waiting[i].p)).(waiting := WithoutFirst(s.waiting, msgId)) else s
  }

  /** When none waits any more, the PINGREQ held back for the buffer is due. */
  function PassHeldPing(s: State): State {
    if s.hold && |s.waiting| % 256 == 0 then ToB(s, PingBroker).(hold := false) else s
  }

  function HandleRegAck(s: State, msgId: nat): State {
    if Listening(s) then PassHeldPing(Released(s, msgId)) else s
  }

  function HandleSubscribe(s: State, gw: Table, qos: nat, msgId: nat, filter: Filter): State {
    if msgId == 0 then s
    else match filter
      case Named(name) => SubscribeNamed(s, qos, msgId, name)
      case Predefined(id) => SubscribePredefined(s, gw, qos, msgId, id)
      case Short(c0, c1) => ToB(s, SubscribeBroker(CStr([c0, c1]), qos, msgId))
  }

  function SubscribeNamed(s: State, qos: nat, msgId: nat, name: string): State {
    var (topics, e) := TopicTable.Register(s.topics, NORMAL, name);
    match e
    case None => s
    case Some(e) => ToB(s.(topics := topics), SubscribeBroker(e.name, qos, msgId))
  }

  /** The topic is in the client's table, or it is copied there from the gateway's predefined topics. */
  function SubscribePredefined(s: State, gw: Table, qos: nat, msgId: nat, id: nat): State {
    match FindId(s.topics.entries, PREDEFINED, id)
    case Some(e) => ToB(s, SubscribeBroker(e.name, qos, msgId))
    case None =>
      match FindId(gw.entries, PREDEFINED, id)
      case None => ToC(s, SendSuback(qos, id, msgId, RC_NOT_SUPPORTED))
      case Some(g) => CopyAndSubscribe(s, g, qos, msgId)
  }

  function CopyAndSubscribe(s: State, g: Entry, qos: nat, msgId: nat): State {
    var (topics, e) := AddName(s.topics, g.name, g.id);
    match e
    case None => s.(topics := topics, crashed := true)    // the table is full: null is followed
    case Some(e) => ToB(s.(topics := topics), SubscribeBroker(e.name, qos, msgId))
  }

  function HandleClient(s: State, gw: Table, c: FromClient): State {
    match c
    case Connect(clean, will) => HandleConnect(s, clean, will)
    case Disconnect(duration) => HandleDisconnect(s, duration)
    case Pingreq => HandlePingreq(s)
    case Publish(p) => HandleClientPublish(s, gw, p)
    case Puback(msgId, rc) => if s.status == Active && rc == RC_ACCEPTED then ToB(s, PubackBroker(msgId)) else s
    case Ack(typ, msgId) => if s.status == Active then ToB(s, AckBroker(typ, msgId)) else s
    case Register(msgId, name) => HandleRegister(s, msgId, name)
    case Regack(msgId) => HandleRegAck(s, msgId)
    case Subscribe(qos, msgId, filter) => HandleSubscribe(s, gw, qos, msgId, filter)
    case Pingresp => s
  }

  /** Client::updateStatus, applied after the handler of a client packet. */
  function UpdateStatus(s: State, c: FromClient): State {
    if s.status == Active && c.Disconnect? then
      s.(status := if c.duration != 0 then Asleep else Disconnected)
    else if Dozing(s) then
      match c
      case Connect(_, _) => s.(status := Active)
      case Disconnect(_) => s.(status := Disconnected)
      case Pingreq => s.(status := Awake)
      case Pingresp => s.(status := Asleep)
      case _ => s
    else s
  }
}
