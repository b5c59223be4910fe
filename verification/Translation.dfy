/** What the gateway is for: a PUBLISH of one client, translated to MQTT, sent on by the
    broker, and translated back for another client, says the same to it. */
module Translation {
  import opened SortedMap
  import opened Wire
  import Sn = SnCodec
  import Mqtt = MqttCodec
  import opened TopicFilter
  import opened TopicTable
  import opened SessionModel

  // ---- names and packets as bytes ----

  /** A C string's characters are bytes. */
  predicate ByteString(s: string) { forall i :: 0 <= i < |s| ==> s[i] as int < 256 }

  function Text(b: Bytes): string { seq(|b|, i requires 0 <= i < |b| => b[i] as char) }

  function BytesOf(s: string): Bytes { seq(|s|, i requires 0 <= i < |s| => s[i] as int % 256) }

  lemma TextOfBytes(s: string)
    requires ByteString(s)
    ensures Text(BytesOf(s)) == s
  {
  }

  predicate SendableRef(r: TopicRef) {
    match r
    case ById(typ, id) => typ != SHORT && id < 65536
    case ByShortName(c0, c1) => c0 as int < 256 && c1 as int < 256
  }

  predicate Sendable(p: SnPublish) { p.qos <= 2 && p.msgId < 65536 && SendableRef(p.topic) }

  function ToWire(p: SnPublish): Sn.Publish {
    var topic := match p.topic
      case ById(typ, id) => Sn.Id(typ == PREDEFINED, id % 65536)
      case ByShortName(c0, c1) => Sn.Short(c0 as int % 256, c1 as int % 256, 2);
    Sn.Publish(p.dup, p.qos, p.retain, topic, p.msgId % 65536, p.payload)
  }

  function FromWire(w: Sn.Publish): SnPublish {
    var topic := match w.topic
      case Id(predefined, id) => TopicRef.ById(if predefined then PREDEFINED else NORMAL, id)
      case Short(c0, c1, _) => ByShortName(c0 as char, c1 as char)
      case Name(name) => TopicRef.ById(NORMAL, |name| % 65536);
    SnPublish(w.dup, w.qos, w.retain, topic, w.packetId, w.payload)
  }

  function MqttOf(m: GwPublish): Mqtt.Publish {
    Mqtt.Publish(m.dup, m.qos, m.retain, BytesOf(m.topic), m.msgId % 65536, m.payload)
  }

  function FromMqtt(w: Mqtt.Publish): GwPublish {
    GwPublish(w.dup, w.qos, w.retain, Text(w.topic), w.msgId, w.payload)
  }

  /** The PUBLISH that a connection delivers first. */
  function MqttRead(s: Bytes): Option<GwPublish> {
    match Mqtt.Receive(s, Mqtt.Closed, 0)
    case Error(_) => None
    case Ok((header, data), _) =>
      match Mqtt.DecodePublish(header, data)
      case Got(w) => Some(FromMqtt(w))
      case _ => None
  }

  predicate Deliverable(m: GwPublish) {
    m.qos <= 2 && m.msgId < 65536 && ByteString(m.topic) && |m.topic| + |m.payload| + 4 < 65536
  }

  function MqttBytes(m: GwPublish): Bytes {
    Mqtt.PacketBytes(Mqtt.PublishHeader(MqttOf(m)), Mqtt.PublishData(MqttOf(m)))
  }

  /** MQTT has no message id at QoS 0. */
  function Numbered(m: GwPublish): GwPublish { if m.qos > 0 then m else m.(msgId := 0) }

  lemma MqttSurvives(m: GwPublish, rest: Bytes)
    requires Deliverable(m)
    ensures MqttRead(MqttBytes(m) + rest) == Some(Numbered(m))
  {
    var w := MqttOf(m);
    Mqtt.PublishOverTheWire(w, rest, Mqtt.Closed, 0);
    TextOfBytes(m.topic);
    assert |Mqtt.PublishData(w)| < 65536;
    assert MqttRead(MqttBytes(m) + rest) == Some(FromMqtt(if m.qos > 0 then w else w.(msgId := 0)));
  }

  // ---- what is said ----

  /** What an MQTT-SN PUBLISH says under this name of its topic. */
  function SaidOf(p: SnPublish, name: string): GwPublish {
    GwPublish(p.dup, p.qos, p.retain, name, p.msgId, p.payload)
  }

  /** What an MQTT-SN PUBLISH says to one with this topic table, in the terms of MQTT. */
  function SnMeaning(p: SnPublish, topics: Table, gw: Table): Option<GwPublish> {
    match Resolve(topics, gw, p.topic).1
    case Some(name) => Some(SaidOf(p, name))
    case None => None
  }

  // ---- from the client to the broker ----

  /** A datagram as the gateway reads it: what does not fit in its buffer is cut off. */
  function Arriving(s: Bytes): Bytes { if |s| <= MAX_PACKET_SIZE then s else s[..MAX_PACKET_SIZE] }

  /** What the gateway reads of a client's PUBLISH. */
  function Arrived(p: SnPublish): Option<SnPublish> {
    match Sn.DecodePublish(Arriving(Sn.EncodePublish(ToWire(p))))
    case Got(w) => Some(FromWire(w))
    case _ => None
  }

  /** From the bytes of a client's PUBLISH to what is read from the bytes that the gateway then
      sends to the broker. */
  function Said(s: State, gw: Table, p: SnPublish): Option<GwPublish> {
    match Arrived(p)
    case None => None
    case Some(q) =>
      var t := HandleClientPublish(s, gw, q);
      var sent := t.toBroker[Min(|s.toBroker|, |t.toBroker|)..];
      if |sent| == 1 && sent[0].PublishBroker? then
        match Mqtt.Sent(Mqtt.PublishHeader(MqttOf(sent[0].m)), Mqtt.PublishData(MqttOf(sent[0].m)))
        case Some(bytes) => MqttRead(bytes)
        case None => None
      else None
  }

  /** The sizes at which a PUBLISH keeps its meaning on the way in: its MQTT-SN packet fits in the
      gateway's buffer and its body is not one of 255 bytes, and its MQTT packet fits in the other buffer. */
  predicate FitsIn(p: SnPublish, topic: string) {
    && |p.payload| != 249 && |p.payload| <= 1015
    && |topic| + |p.payload| + (if p.qos > 0 then 7 else 5) <= 1024
  }

  lemma WireBack(p: SnPublish)
    requires Sendable(p)
    ensures Sn.WellTyped(ToWire(p)) && FromWire(ToWire(p)) == p
  {
  }

  /** A PUBLISH whose packet is cut off is not read, or it is read with a shorter payload. */
  lemma CutOff(p: SnPublish)
    requires Sendable(p) && Sn.PacketLen(6 + |p.payload|) > MAX_PACKET_SIZE && Arrived(p).Some?
    ensures var q := Arrived(p).value; q == p.(payload := q.payload) && |q.payload| < |p.payload|
  {
    WireBack(p);
    var w := ToWire(p);
    var body, buf := Sn.PublishBody(w), Arriving(Sn.EncodePublish(w));
    assert |body| == 6 + |p.payload|;
    Sn.FrameSize(body);
    assert buf[0] == 1;
    Sn.PayloadBound(buf);
    var front := w.(payload := w.payload[..MAX_PACKET_SIZE - 9]);
    WireBack(FromWire(front));
    assert buf[3..] == body[..MAX_PACKET_SIZE - 3] == Sn.PublishBody(front);
    Sn.PublishDecoded(front, buf, 3, Sn.DecodeLength(buf).1);
  }

  /** The gateway reads what the client sent exactly when the packet is complete and its body
      is not one of 255 bytes; otherwise nothing, or less of the payload. */
  lemma ArrivedIff(p: SnPublish)
    requires Sendable(p)
    ensures Arrived(p) == Some(p) <==> |p.payload| != 249 && |p.payload| <= 1015
    ensures Arrived(p).Some? ==>
              var q := Arrived(p).value; q == p.(payload := q.payload) && (q != p ==> |q.payload| < |p.payload|)
  {
    if Sn.PacketLen(6 + |p.payload|) > MAX_PACKET_SIZE {
      if Arrived(p).Some? { CutOff(p); }
    } else {
      Sn.FrameSize(Sn.PublishBody(ToWire(p)));
      FrameBack(p);
    }
  }

  /** Without a limit on the buffer. */
  lemma FrameBack(p: SnPublish)
    requires Sendable(p) && |p.payload| <= 65526
    ensures var d := Sn.DecodePublish(Sn.EncodePublish(ToWire(p)));
            && d.Got? && FromWire(d.value) == p.(payload := FromWire(d.value).payload)
            && (|p.payload| != 249 ==> d.value.payload == p.payload)
            && (|p.payload| == 249 ==> |d.value.payload| == 247)
  {
    WireBack(p);
    var w := ToWire(p);
    var body, buf := Sn.PublishBody(w), Sn.EncodePublish(w);
    assert buf + [] == buf;
    if |p.payload| != 249 {
      Sn.PublishRoundTrip(w, []);
    } else {
      Sn.OpenedFrame(body, []);
      Sn.PublishDecoded(w, buf, 3, 256);
    }
  }

  /** What the gateway puts on the broker's queue for a PUBLISH it has read. */
  lemma Handed(s: State, gw: Table, q: SnPublish)
    ensures var t := HandleClientPublish(s, gw, q);
            var name := Resolve(s.topics, gw, q.topic).1;
            if name.None? && (q.qos == 3 || (q.msgId != 0 && q.qos > 0 && q.qos < 3)) then t.toBroker == s.toBroker
            else t.toBroker == s.toBroker + [PublishBroker(ToGw(q, name.GetOr("")))]
  {
  }

  /** The MQTT packet of a PUBLISH fits in the buffer exactly when these sizes do, and is then read
      with its payload; and with the rest, too, when the types allow for it. */
  lemma SentRead(m: GwPublish)
    requires m.qos < 4
    ensures var sent := Mqtt.Sent(Mqtt.PublishHeader(MqttOf(m)), Mqtt.PublishData(MqttOf(m)));
            && (sent.Some? <==> |m.topic| + |m.payload| + (if m.qos > 0 then 7 else 5) <= MAX_PACKET_SIZE)
            && (sent.Some? ==> var r := MqttRead(sent.value);
                && r.Some? && r.value.payload == m.payload
                && (ByteString(m.topic) && m.msgId < 65536 ==> r.value == Numbered(m)))
  {
    var w := MqttOf(m);
    Mqtt.SentIff(Mqtt.PublishHeader(w), Mqtt.PublishData(w));
    Mqtt.PublishOverTheWire(w, [], Mqtt.Closed, 0);
    assert MqttBytes(m) + [] == MqttBytes(m);
    if ByteString(m.topic) { TextOfBytes(m.topic); }
  }

  /** What is read from the bytes for the broker: what has arrived, if it fits in the buffer. */
  lemma SaidIs(s: State, gw: Table, p: SnPublish)
    requires Sendable(p) && Arrived(p).Some? && SnMeaning(p, s.topics, gw).Some?
    requires ByteString(SnMeaning(p, s.topics, gw).value.topic)
    ensures var x, payload := SnMeaning(p, s.topics, gw).value, Arrived(p).value.payload;
            && (Said(s, gw, p).Some? <==> |x.topic| + |payload| + (if p.qos > 0 then 7 else 5) <= MAX_PACKET_SIZE)
            && (Said(s, gw, p).Some? ==> Said(s, gw, p).value == Numbered(x.(payload := payload)))
  {
    ArrivedIff(p);
    var q := Arrived(p).value;
    Handed(s, gw, q);
    var t := HandleClientPublish(s, gw, q);
    var m := ToGw(q, SnMeaning(p, s.topics, gw).value.topic);
    SentRead(m);
    assert t.toBroker[|s.toBroker|..] == [PublishBroker(m)];
  }

  /** The bytes of a client's PUBLISH for a known topic come to the gateway; from the bytes that go to the broker
      it reads all that the client said, its message id too at QoS 1 and 2, if and only if the sizes fit. */
  lemma ClientToBroker(s: State, gw: Table, p: SnPublish)
    requires Sendable(p) && SnMeaning(p, s.topics, gw).Some? && ByteString(SnMeaning(p, s.topics, gw).value.topic)
    ensures var topic := SnMeaning(p, s.topics, gw).value.topic;
            var msgId := if p.qos > 0 then p.msgId else 0;
            Said(s, gw, p) == Some(GwPublish(p.dup, p.qos, p.retain, topic, msgId, p.payload)) <==> FitsIn(p, topic)
  {
    ArrivedIff(p);
    if Arrived(p).Some? {
      SaidIs(s, gw, p);
    }
  }

  // ---- from the broker to the client ----

  /** What a client reads of a PUBLISH the gateway sends it. */
  function Carried(p: SnPublish): Option<SnPublish> {
    match Sn.Packed(Sn.PublishBody(ToWire(p)))
    case None => None
    case Some(bytes) =>
      match Sn.DecodePublish(bytes)
      case Got(w) => Some(FromWire(w))
      case _ => None
  }

  /** What a client reads of a REGISTER the gateway sends it. */
  function RegisterRead(r: Sn.Register): Option<Sn.Register> {
    match Sn.Packed(Sn.RegisterBody(r))
    case None => None
    case Some(bytes) =>
      match Sn.DecodeRegister(bytes)
      case Got(read) => Some(read)
      case _ => None
  }

  /** The REGISTER for a topic. */
  function RegisterOf(id: nat, msgId: nat, name: string): Sn.Register {
    Sn.Register(id % 65536, msgId % 65536, BytesOf(name))
  }

  /** What a PUBLISH says to a client that knows its id from this REGISTER. */
  function HeardBehind(register: Option<Sn.Register>, publish: Option<SnPublish>): Option<GwPublish> {
    match (register, publish)
    case (Some(r), Some(q)) =>
      if q.topic == TopicRef.ById(NORMAL, r.topicId) then Some(SaidOf(q, Text(r.name))) else None
    case _ => None
  }

  /** What a client hears of a PUBLISH from the broker. It comes at once, under an id the client has been
      told; or a REGISTER comes, and the PUBLISH waits for its REGACK: then the client knows the id from
      the bytes of that REGISTER. */
  function Heard(s: State, gw: Table, m: GwPublish): Option<GwPublish> {
    var t := HandlePublish(s, m);
    var sent := t.toClient[Min(|s.toClient|, |t.toClient|)..];
    var held := t.waiting[Min(|s.waiting|, |t.waiting|)..];
    if |sent| != 1 then None
    else if sent[0].SendPublish? then
      match Carried(sent[0].p)
      case Some(q) => SnMeaning(q, t.topics, gw)
      case None => None
    else if sent[0].SendRegister? && |held| == 1 then
      HeardBehind(RegisterRead(RegisterOf(sent[0].id, sent[0].msgId, sent[0].name)), Carried(held[0].p))
    else None
  }

  lemma CarriedIff(p: SnPublish)
    requires Sendable(p)
    ensures Carried(p) == Some(p) <==> |p.payload| != 249 && Sn.PacketLen(6 + |p.payload|) <= MAX_PACKET_SIZE
    ensures Carried(p).Some? ==> |Carried(p).value.payload| <= |p.payload|
    ensures Carried(p).Some? && Carried(p) != Some(p) ==>
              |p.payload| == 249 && Carried(p).value == p.(payload := Carried(p).value.payload)
  {
    assert |Sn.PublishBody(ToWire(p))| == 6 + |p.payload|;
    if Sn.PacketLen(6 + |p.payload|) <= MAX_PACKET_SIZE {
      FrameBack(p);
    }
  }

  lemma RegisterReadIs(r: Sn.Register)
    ensures var n := |r.name|;
            RegisterRead(r) == if Sn.PacketLen(5 + n) > MAX_PACKET_SIZE then None
                               else if n == 250 then Some(r.(name := r.name[..248])) else Some(r)
  {
    assert |Sn.RegisterBody(r)| == 5 + |r.name| && Sn.EncodeRegister(r) + [] == Sn.EncodeRegister(r);
    if |r.name| == 250 {
      RegisterCut(r);
    } else {
      Sn.RegisterRoundTrip(r, []);
    }
  }

  lemma RegisterCut(r: Sn.Register)
    requires |r.name| == 250
    ensures Sn.DecodeRegister(Sn.EncodeRegister(r)) == Got(r.(name := r.name[..248]))
  {
    var body, buf := Sn.RegisterBody(r), Sn.EncodeRegister(r);
    assert |body| == 255 && buf + [] == buf;
    Sn.OpenedFrame(body, []);
    Sn.RegisterDecoded(r, buf, 3, 256);
    assert buf[8..256] == body[5..253] == r.name[..248];
  }

  /** The gateway can name the topic to the client: it is short, the client knows it, or one of its
      wildcards matches it and there is room for one more topic. */
  predicate Nameable(t: Table, m: GwPublish) {
    !Unexplained(t, m) && (NeedsRegister(t, m) ==> |t.entries| < MAX_TOPIC_PAR_CLIENT)
  }

  /** The sizes at which a PUBLISH keeps its meaning on the way out: it has a topic of two bytes at least,
      its packet fits in the buffer and its body is not one of 255 bytes; and the same is true of the
      REGISTER, if one has to be sent before it. */
  predicate FitsOut(t: Table, m: GwPublish) {
    && |m.topic| >= 2 && |m.payload| != 249 && |m.payload| <= 1015
    && (NeedsRegister(t, m) ==> |m.topic| != 250 && |m.topic| <= 1016)
  }

  /** What any PUBLISH from the broker must meet: its characters are bytes and none of them NUL. */
  predicate FromBrokerOk(m: GwPublish) {
    m.qos <= 2 && m.msgId < 65536 && ByteString(m.topic) && '\0' !in m.topic
  }

  lemma IdResolves(t: Table, gw: Table, e: Entry)
    requires Configured(t) && e in t.entries
    ensures Resolve(t, gw, TopicRef.ById(e.typ, e.id)) == (t, Some(e.name))
  {
    if e.typ == NORMAL {
      Resolves(t, e);
    }
  }

  lemma HeardShort(s: State, gw: Table, m: GwPublish)
    requires Listening(s) && FromBrokerOk(m) && |m.topic| <= 2
    ensures Heard(s, gw, m) == Some(m) <==> FitsOut(s.topics, m)
    ensures Heard(s, gw, m).Some? ==> |Heard(s, gw, m).value.payload| <= |m.payload|
  {
    var p := ToSn(m, ShortName(m));
    var t := HandlePublish(s, m);
    assert t.toClient[|s.toClient|..] == [SendPublish(p)];
    CarriedIff(p);
    if |m.topic| == 2 {
      assert m.topic == [m.topic[0], m.topic[1]];
    }
  }

  lemma HeardKnown(s: State, gw: Table, m: GwPublish, e: Entry)
    requires Listening(s) && Configured(s.topics) && FromBrokerOk(m) && |m.topic| > 2
    requires FindName(s.topics.entries, m.topic) == Some(e)
    ensures Heard(s, gw, m) == Some(m) <==> FitsOut(s.topics, m)
    ensures Heard(s, gw, m).Some? ==> |Heard(s, gw, m).value.payload| <= |m.payload|
  {
    var p := ToSn(m, TopicRef.ById(e.typ, e.id));
    var t := HandlePublish(s, m);
    assert t.toClient[|s.toClient|..] == [SendPublish(p)];
    IdResolves(s.topics, gw, e);
    CarriedIff(p);
  }

  /** The new id the topic gets. */
  lemma RegisteredForHold(t: Table, m: GwPublish)
    requires Inv(t) && FromBrokerOk(m) && NeedsRegister(t, m) && |t.entries| < MAX_TOPIC_PAR_CLIENT
    ensures var e := TopicTable.Register(t, NORMAL, m.topic).1;
            e.Some? && e.value.typ == NORMAL && e.value.name == m.topic && e.value.id < 65536
  {
    assert CStr(m.topic) == m.topic;
    RegisterInv(t, NORMAL, m.topic);
    var (u, e) := TopicTable.Register(t, NORMAL, m.topic);
    InvMeaning(u, e.value, e.value);
  }

  lemma HeldIs(s: State, m: GwPublish)
    requires Listening(s) && Inv(s.topics) && FromBrokerOk(m)
    requires NeedsRegister(s.topics, m) && Nameable(s.topics, m)
    ensures var t, msgId := HandlePublish(s, m), NextSnMsgId(s.snMsgId);
            var id := TopicTable.Register(s.topics, NORMAL, m.topic).1.value.id;
            && id < 65536 && msgId < 65536
            && t.toClient[Min(|s.toClient|, |t.toClient|)..] == [SendRegister(id, msgId, m.topic)]
            && t.waiting[Min(|s.waiting|, |t.waiting|)..] == [Wait(msgId, ToSn(m, TopicRef.ById(NORMAL, id)))]
  {
    RegisteredForHold(s.topics, m);
  }

  lemma NameRead(id: nat, msgId: nat, name: string)
    requires id < 65536 && ByteString(name)
    ensures var r := RegisterRead(RegisterOf(id, msgId, name));
            && (r.Some? <==> Sn.PacketLen(5 + |name|) <= MAX_PACKET_SIZE)
            && (r.Some? ==> r.value.topicId == id
                            && if |name| == 250 then |r.value.name| == 248 else Text(r.value.name) == name)
  {
    RegisterReadIs(RegisterOf(id, msgId, name));
    TextOfBytes(name);
  }

  lemma BehindIff(id: nat, msgId: nat, m: GwPublish)
    requires id < 65536 && FromBrokerOk(m)
    ensures var h := HeardBehind(RegisterRead(RegisterOf(id, msgId, m.topic)),
                                 Carried(ToSn(m, TopicRef.ById(NORMAL, id))));
            && (h == Some(m) <==>
                  && |m.topic| != 250 && Sn.PacketLen(5 + |m.topic|) <= MAX_PACKET_SIZE
                  && |m.payload| != 249 && Sn.PacketLen(6 + |m.payload|) <= MAX_PACKET_SIZE)
            && (h.Some? ==> |h.value.payload| <= |m.payload|)
            && (|m.topic| == 250 && |m.payload| < 249 ==> h.Some? && |h.value.topic| == 248)
  {
    var p := ToSn(m, TopicRef.ById(NORMAL, id));
    CarriedIff(p);
    NameRead(id, msgId, m.topic);
    var r, q := RegisterRead(RegisterOf(id, msgId, m.topic)), Carried(p);
    if r.Some? && q.Some? {
      assert HeardBehind(r, q) == Some(m.(topic := Text(r.value.name), payload := q.value.payload));
    }
  }

  lemma HeardHeld(s: State, gw: Table, m: GwPublish)
    requires Listening(s) && Configured(s.topics) && FromBrokerOk(m)
    requires NeedsRegister(s.topics, m) && Nameable(s.topics, m)
    ensures Heard(s, gw, m) == Some(m) <==> FitsOut(s.topics, m)
    ensures Heard(s, gw, m).Some? ==> |Heard(s, gw, m).value.payload| <= |m.payload|
    ensures |m.topic| == 250 && |m.payload| < 249 ==>
              Heard(s, gw, m).Some? && |Heard(s, gw, m).value.topic| == 248
  {
    HeldIs(s, m);
    BehindIff(TopicTable.Register(s.topics, NORMAL, m.topic).1.value.id, NextSnMsgId(s.snMsgId), m);
  }

  lemma HeardNot(s: State, gw: Table, m: GwPublish)
    requires Listening(s) && !Nameable(s.topics, m)
    ensures Heard(s, gw, m) == None
  {
  }

  /** A client that listens hears of a PUBLISH from the broker what the broker said if and only if the
      gateway can name the topic to it and the sizes fit. */
  lemma BrokerToClient(s: State, gw: Table, m: GwPublish)
    requires Listening(s) && Configured(s.topics) && FromBrokerOk(m)
    ensures Heard(s, gw, m) == Some(m) <==> Nameable(s.topics, m) && FitsOut(s.topics, m)
    ensures Heard(s, gw, m).Some? ==> |Heard(s, gw, m).value.payload| <= |m.payload|
  {
    if !Nameable(s.topics, m) {
      HeardNot(s, gw, m);
    } else if |m.topic| <= 2 {
      HeardShort(s, gw, m);
    } else if NeedsRegister(s.topics, m) {
      HeardHeld(s, gw, m);
    } else {
      HeardKnown(s, gw, m, FindName(s.topics.entries, m.topic).value);
    }
  }

  // ---- end to end ----

  /** From the bytes of the broker's PUBLISH, which anything may follow, to what the client hears. */
  function PassedOn(b: State, gw: Table, m: GwPublish, rest: Bytes): Option<GwPublish> {
    match MqttRead(MqttBytes(m) + rest)
    case Some(n) => Heard(b, gw, n)
    case None => None
  }

  lemma PassedOnIff(b: State, gw: Table, m: GwPublish, rest: Bytes)
    requires Listening(b) && Configured(b.topics) && FromBrokerOk(m) && Deliverable(m)
    ensures PassedOn(b, gw, m, rest) == Some(Numbered(m)) <==> Nameable(b.topics, m) && FitsOut(b.topics, m)
    ensures PassedOn(b, gw, m, rest).Some? ==> |PassedOn(b, gw, m, rest).value.payload| <= |m.payload|
  {
    MqttSurvives(m, rest);
    BrokerToClient(b, gw, Numbered(m));
  }

  /** From client A to client B: A's bytes come in, the broker reads what the gateway sends and sends it on
      with its own message id and dup flag, the gateway reads that, and B hears it. */
  function Relayed(a: State, b: State, gw: Table, p: SnPublish, dup: bool, msgId: nat, rest: Bytes): Option<GwPublish> {
    match Said(a, gw, p)
    case Some(m) => PassedOn(b, gw, m.(dup := dup, msgId := msgId), rest)
    case None => None
  }

  /** B hears, with its own ids, what A said with A's, and the dup flag and message id of the broker, if and only
      if the gateway can name the topic to B and the sizes fit on both ways. */
  lemma EndToEnd(a: State, b: State, gw: Table, p: SnPublish, dup: bool, msgId: nat, rest: Bytes)
    requires Sendable(p) && SnMeaning(p, a.topics, gw).Some?
    requires var name := SnMeaning(p, a.topics, gw).value.topic; ByteString(name) && '\0' !in name
    requires msgId < 65536 && Listening(b) && Configured(b.topics)
    ensures var x := SnMeaning(p, a.topics, gw).value;
            var m := GwPublish(dup, p.qos, p.retain, x.topic, msgId, p.payload);
            Relayed(a, b, gw, p, dup, msgId, rest) == Some(if p.qos > 0 then m else m.(msgId := 0))
            <==> FitsIn(p, x.topic) && Nameable(b.topics, m) && FitsOut(b.topics, m)
  {
    ClientToBroker(a, gw, p);
    ArrivedIff(p);
    if Arrived(p).Some? {
      SaidIs(a, gw, p);
      if Said(a, gw, p).Some? {
        PassedOnIff(b, gw, Said(a, gw, p).value.(dup := dup, msgId := msgId), rest);
      }
    }
  }

  // ---- inputs that do not come through ----

  function As(n: nat): (s: string)
    ensures |s| == n && ByteString(s) && '/' !in s && '\0' !in s
  {
    seq(n, _ => 'a')
  }

  /** A known topic of 600 characters and a payload of 600 bytes: the client's packet fits,
      and the one for the broker overruns the gateway's buffer. */
  lemma TooLongForBroker(gw: Table, s: State)
    requires s.topics == Table([Entry(NORMAL, 1, As(600))], 1)
    ensures var p := SnPublish(false, 0, false, TopicRef.ById(NORMAL, 1), 0, BytesOf(As(600)));
            && Arrived(p) == Some(p) && SnMeaning(p, s.topics, gw).Some? && Said(s, gw, p) == None
  {
    var p := SnPublish(false, 0, false, TopicRef.ById(NORMAL, 1), 0, BytesOf(As(600)));
    ArrivedIff(p);
    SaidIs(s, gw, p);
  }

  /** A topic of 250 characters for a client that has subscribed to "#": the client is told one of 248. */
  lemma NameCutShort(gw: Table, s: State, m: GwPublish)
    requires Listening(s) && Configured(s.topics) && s.topics.entries == [Entry(NORMAL, 1, "#")]
    requires m == GwPublish(false, 0, false, As(250), 0, [])
    ensures Heard(s, gw, m).Some? && |Heard(s, gw, m).value.topic| == 248
  {
    HashMatches(m.topic);
    assert s.topics.entries[0].name == "#";
    HeardHeld(s, gw, m);
  }
}
