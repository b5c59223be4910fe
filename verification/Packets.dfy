/** The packets of a session, byte by byte: what stands for a topic, an id, a character. */
module Packets {
  import opened SortedMap
  import opened Wire
  import Sn = SnCodec
  import Mqtt = MqttCodec
  import opened WireLayout
  import opened TopicTable
  import opened SessionModel
  import opened SessionRuns
  import opened SessionAcks
  import opened Translation

  /** How two bytes and the kind of topic name it. */
  predicate RefSays(hi: byte, lo: byte, typ: nat, r: TopicRef) {
    match r
    case ById(NORMAL, id) => typ == 0 && Two(hi, lo) == id
    case ById(PREDEFINED, id) => typ == 1 && Two(hi, lo) == id
    case ById(SHORT, _) => false
    case ByShortName(c0, c1) => typ == 2 && hi == c0 as int && lo == c1 as int
  }

  // ---- MQTT-SN ----

  lemma ToWireSays(p: SnPublish, hi: byte, lo: byte, typ: nat)
    requires Sendable(p)
    ensures var w := ToWire(p);
            && Sn.WellTyped(w) && !w.topic.Name? && w.payload == p.payload
            && w.dup == p.dup && w.qos == p.qos && w.retain == p.retain && w.packetId == p.msgId
            && (TopicSays(hi, lo, typ, w.topic) ==> RefSays(hi, lo, typ, p.topic))
  {
  }

  /** The bytes of a PUBLISH that a client, or the gateway, sends. */
  lemma SnBytes(p: SnPublish)
    requires Sendable(p)
    ensures var b, h := Sn.EncodePublish(ToWire(p)), HeadOf(6 + |p.payload|);
            && |b| == h + 6 + |p.payload| && b[h] == 12
            && FlagsSay(b[h + 1], p.dup, p.qos, p.retain, b[h + 1] % 4)
            && RefSays(b[h + 2], b[h + 3], b[h + 1] % 4, p.topic)
            && Two(b[h + 4], b[h + 5]) == p.msgId && b[h + 6..] == p.payload
  {
    PublishLayout(ToWire(p));
    var b, h := Sn.EncodePublish(ToWire(p)), HeadOf(6 + |p.payload|);
    ToWireSays(p, b[h + 2], b[h + 3], b[h + 1] % 4);
  }

  /** What the gateway, or a client, reads from such bytes. */
  lemma SnRead(b: Bytes, h: nat, end: nat)
    requires Headed(b, 12, h, end) && h + 6 <= end && b[h + 1] / 32 % 4 != 3 && b[h + 1] % 4 != 3
    ensures var d := Sn.DecodePublish(b);
            && d.Got?
            && var p := FromWire(d.value);
               && (p.dup <==> b[h + 1] / 128 == 1) && p.qos == b[h + 1] / 32 % 4
               && (p.retain <==> b[h + 1] / 16 % 2 == 1)
               && RefSays(b[h + 2], b[h + 3], b[h + 1] % 4, p.topic)
               && p.msgId == Two(b[h + 4], b[h + 5]) && p.payload == b[h + 6..end]
  {
    PublishRead(b, h, end);
  }

  /** The bytes of a REGISTER that the gateway sends. */
  lemma RegisterBytes(id: nat, msgId: nat, name: string)
    requires id < 65536 && msgId < 65536 && ByteString(name)
    ensures var b, h := Sn.EncodeRegister(RegisterOf(id, msgId, name)), HeadOf(5 + |name|);
            && |b| == h + 5 + |name| && b[h] == 10 && Two(b[h + 1], b[h + 2]) == id && Two(b[h + 3], b[h + 4]) == msgId
            && forall i :: 0 <= i < |name| ==> b[h + 5..][i] == name[i] as int
  {
    RegisterLayout(RegisterOf(id, msgId, name));
  }

  // ---- MQTT ----

  lemma MqttOfIs(m: GwPublish)
    requires m.qos < 4 && m.msgId < 65536 && ByteString(m.topic) && |m.topic| < 65536
    ensures var w := MqttOf(m);
            && w.dup == m.dup && w.qos == m.qos && w.retain == m.retain && w.msgId == m.msgId && w.payload == m.payload
            && |w.topic| == |m.topic| == |m.topic| % 65536
            && forall i :: 0 <= i < |m.topic| ==> w.topic[i] == m.topic[i] as int
  {
  }

  /** The first byte and the data of a PUBLISH for the broker. */
  lemma GwBytes(m: GwPublish)
    requires m.qos < 4 && m.msgId < 65536 && ByteString(m.topic) && |m.topic| < 65536
    ensures HeaderSays(Mqtt.PublishHeader(MqttOf(m)), m.dup, m.qos, m.retain)
    ensures var d, n := Mqtt.PublishData(MqttOf(m)), |m.topic|;
            && |d| == 2 + n + (if m.qos > 0 then 2 else 0) + |m.payload|
            && Two(d[0], d[1]) == n && (forall i :: 0 <= i < n ==> d[2..2 + n][i] == m.topic[i] as int)
            && if m.qos > 0 then Two(d[2 + n], d[3 + n]) == m.msgId && d[4 + n..] == m.payload
               else d[2 + n..] == m.payload
  {
    MqttPublishLayout(MqttOf(m));
    MqttOfIs(m);
  }

  /** What is read from the first byte and the data of the broker's PUBLISH. */
  lemma GwRead(h: byte, d: Bytes, n: nat)
    requires h / 16 == 3 && |d| >= 2 && n == Two(d[0], d[1])
    requires 2 + n + (if h / 2 % 4 > 0 then 2 else 0) <= |d|
    ensures var r := Mqtt.DecodePublish(h, d);
            && r.Got?
            && var m := FromMqtt(r.value);
               && HeaderSays(h, m.dup, m.qos, m.retain)
               && |m.topic| == n && (forall i :: 0 <= i < n ==> m.topic[i] as int == d[2..2 + n][i])
               && if h / 2 % 4 > 0 then m.msgId == Two(d[2 + n], d[3 + n]) && m.payload == d[4 + n..]
                  else m.msgId == 0 && m.payload == d[2 + n..]
  {
    MqttPublishRead(h, d, n);
  }

  // ---- the topic in a PUBACK ----

  /** The bytes for the topic in a PUBACK are those of the PUBLISH it is for, except that the two characters of a short
      name come back in the opposite order: they are the same if and only if there is an id or both characters are
      the same. Section 5.4.13 asks for the same value. */
  lemma PubackNames(p: SnPublish, id: nat, msgId: u16, rc: byte)
    requires Sendable(p) && IdIs(p.topic, id)
    ensures var b, h := Sn.EncodePublish(ToWire(p)), HeadOf(6 + |p.payload|);
            var a := Sn.EncodePuback(id, msgId, rc);
            && |a| == 7 && |b| >= h + 4 && Two(a[4], a[5]) == msgId && a[6] == rc
            && (a[2..4] == b[h + 2..h + 4] <==> p.topic.ById? || p.topic.c0 == p.topic.c1)
            && (p.topic.ByShortName? ==> a[2] == b[h + 3] && a[3] == b[h + 2])
  {
    var b, h := Sn.EncodePublish(ToWire(p)), HeadOf(6 + |p.payload|);
    var a := Sn.EncodePuback(id, msgId, rc);
    SnBytes(p);
    IdBytes(p.topic, id);
    PubackLayout(id, msgId, rc);
    match p.topic
    case ById(_, _) => TwoUnique(a[2], a[3], b[h + 2], b[h + 3]);
    case ByShortName(c0, c1) => TwoUnique(a[2], a[3], c1 as int, c0 as int);
    assert a[2..4] == [a[2], a[3]] && b[h + 2..h + 4] == [b[h + 2], b[h + 3]];
  }

  lemma TwoUnique(a: byte, b: byte, c: byte, d: byte)
    requires Two(a, b) == Two(c, d)
    ensures a == c && b == d
  {
  }

  /** The number for a short name is its characters read from behind. */
  lemma IdBytes(r: TopicRef, id: nat)
    requires SendableRef(r) && IdIs(r, id)
    ensures id < 65536
    ensures r.ByShortName? ==> id == Two(r.c1 as int, r.c0 as int)
  {
    assert id == id / 256 * 256 + id % 256;
  }

  lemma PubackFor(gw: Table, own: Table, acts: seq<Act>, m: nat, id: nat)
    requires Exec(gw, Start(own), acts).Some? && Enabled(Exec(gw, Start(own), acts).value, Dispatch)
    requires Exec(gw, Start(own), acts).value.s.events[0] == BrokerRecv(BrokerPuback(m))
    requires var r := Exec(gw, Start(own), acts).value;
             Next(gw, r, Dispatch).s.toClient == r.s.toClient + [SendPuback(id, m, 0)]
    ensures var last := LatestOf(gw, Start(own), acts, m, None); last.Some? && IdIs(last.value.topic, id)
  {
    PubackCarriesLatest(gw, own, acts, m, SendPuback(id, m, 0));
  }

  /** In every run, the topic of a PUBACK that is passed on, as bytes, is that of the PUBLISH it is for, if and only if
      that has an id or a short name of two equal characters. */
  lemma PubackOverTheWire(gw: Table, own: Table, acts: seq<Act>, m: u16, id: nat)
    requires Exec(gw, Start(own), acts).Some? && Enabled(Exec(gw, Start(own), acts).value, Dispatch)
    requires Exec(gw, Start(own), acts).value.s.events[0] == BrokerRecv(BrokerPuback(m))
    requires var r := Exec(gw, Start(own), acts).value;
             Next(gw, r, Dispatch).s.toClient == r.s.toClient + [SendPuback(id, m, 0)]
    ensures var last := LatestOf(gw, Start(own), acts, m, None);
            && last.Some? && IdIs(last.value.topic, id)
            && (Sendable(last.value) ==>
                  var b, h := Sn.EncodePublish(ToWire(last.value)), HeadOf(6 + |last.value.payload|);
                  var a := Sn.EncodePuback(id, m, 0);
                  && |a| == 7 && |b| >= h + 4
                  && (a[2..4] == b[h + 2..h + 4] <==>
                        last.value.topic.ById? || last.value.topic.c0 == last.value.topic.c1))
  {
    PubackFor(gw, own, acts, m, id);
    var last := LatestOf(gw, Start(own), acts, m, None);
    if Sendable(last.value) {
      PubackNames(last.value, id, m, 0);
    }
  }
}
