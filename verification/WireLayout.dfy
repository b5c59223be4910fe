/** Which byte of a packet says what, in the numbers of the two standards: sections 5.2.1, 5.3.4, 5.4.10, 5.4.12,
    5.4.13 and 5.4.15 of MQTT-SN v1.2, sections 2.2 and 3.3 of MQTT 3.1.1. */
module WireLayout {
  import opened Wire
  import Sn = SnCodec
  import Mqtt = MqttCodec

  /** Two bytes as a number, the most significant first. */
  function Two(hi: nat, lo: nat): nat { 256 * hi + lo }

  lemma IntRead(n: u16)
    ensures Two(IntBytes(n)[0], IntBytes(n)[1]) == n
  {
  }

  // ---- MQTT-SN: what stands before the fields ----

  /** A body behind its length: one byte, or a 1 and two bytes, the most significant first. */
  lemma FrameLayout(body: Bytes)
    ensures var b, n := Sn.Frame(body), |body|;
            if n <= 254 then
              && |b| == n + 1 && b[0] == n + 1 && b[1..] == body
            else
              && |b| == n + 3 && b[0] == 1 && b[3..] == body
              && Two(b[1], b[2]) == if n == 255 then 256 else (n + 3) % 65536
  {
  }

  /** Where the type byte stands. */
  function HeadOf(n: nat): nat { if n <= 254 then 1 else 3 }

  /** A packet of this type: its fields begin behind place `h`, and it is said to end at `end`. */
  predicate Headed(b: Bytes, typ: nat, h: nat, end: nat) {
    && h < |b| && b[h] == typ && end <= |b|
    && if h == 1 then b[0] != 1 && end == b[0] else h == 3 && b[0] == 1 && end == Two(b[1], b[2])
  }

  lemma HeadedOpens(b: Bytes, typ: byte, h: nat, end: nat)
    requires Headed(b, typ, h, end)
    ensures Sn.Opened(b, typ) == Got((h + 1, end))
  {
  }

  /** Another type byte: the packet is refused. */
  lemma OtherType(b: Bytes, typ: nat, h: nat, end: nat)
    requires Headed(b, typ, h, end)
    ensures typ != 12 ==> Sn.DecodePublish(b) == Refused
    ensures typ != 10 ==> Sn.DecodeRegister(b) == Refused
    ensures typ != 18 ==> Sn.DecodeSubscribe(b) == Refused
  {
    HeadedOpens(b, typ, h, end);
  }

  // ---- PUBLISH of MQTT-SN ----

  /** The flags: bit 7 dup, bits 6 and 5 QoS, bit 4 retain, bits 1 and 0 the kind of topic, the others 0. */
  predicate FlagsSay(f: byte, dup: bool, qos: nat, retain: bool, typ: nat) {
    && (f / 128 == 1 <==> dup) && f / 32 % 4 == qos && (f / 16 % 2 == 1 <==> retain)
    && f / 4 % 4 == 0 && f % 4 == typ
  }

  lemma FlagBits(typ: nat, retain: nat, qos: nat, dup: nat)
    requires typ < 4 && retain < 2 && qos < 4 && dup < 2
    ensures var f := typ + 16 * retain + 32 * qos + 128 * dup; f < 256 && f / 4 % 4 == 0
    ensures var f := typ + 16 * retain + 32 * qos + 128 * dup;
            f % 4 == typ && f / 16 % 2 == retain && f / 32 % 4 == qos && f / 128 == dup
  {
    var f := typ + 16 * retain + 32 * qos + 128 * dup;
    assert f / 4 == 4 * (retain + 2 * qos + 8 * dup);
    assert f / 16 == retain + 2 * qos + 8 * dup;
    assert f / 32 == qos + 4 * dup;
  }

  /** The two bytes of the topic: an id, two characters, or the length of the name that comes later. */
  predicate TopicSays(hi: byte, lo: byte, typ: nat, topic: Sn.TopicField) {
    match topic
    case Id(predefined, id) => typ == (if predefined then 1 else 0) && Two(hi, lo) == id
    case Short(c0, c1, t) => typ == t && hi == c0 && lo == c1
    case Name(name) => typ == 0 && Two(hi, lo) == |name|
  }

  function NameOf(t: Sn.TopicField): Bytes { if t.Name? then t.name else [] }

  lemma FlagsLayout(p: Sn.Publish)
    requires Sn.WellTyped(p)
    ensures var typ: nat := match p.topic
              case Id(predefined, _) => if predefined then 1 else 0
              case Short(_, _, t) => t
              case Name(_) => 0;
            FlagsSay(Sn.PublishBody(p)[1], p.dup, p.qos, p.retain, typ)
  {
    var typ: nat := match p.topic
      case Id(predefined, _) => if predefined then 1 else 0
      case Short(_, _, t) => t
      case Name(_) => 0;
    var retain, dup := if p.retain then 1 else 0, if p.dup then 1 else 0;
    FlagBits(typ, retain, p.qos, dup);
    assert Sn.PublishFlags(p) == typ + 16 * retain + 32 * p.qos + 128 * dup;
  }

  lemma PublishBodyLayout(p: Sn.Publish)
    requires Sn.WellTyped(p)
    ensures var b, name := Sn.PublishBody(p), NameOf(p.topic);
            && |b| == 6 + |name| + |p.payload| && b[0] == 12
            && FlagsSay(b[1], p.dup, p.qos, p.retain, b[1] % 4) && TopicSays(b[2], b[3], b[1] % 4, p.topic)
            && Two(b[4], b[5]) == p.packetId && b[6..6 + |name|] == name && b[6 + |name|..] == p.payload
  {
    FlagsLayout(p);
    var b := Sn.PublishBody(p);
    assert b[2..4] == Sn.FieldBytes(p.topic);
    assert b[2] == b[2..4][0] && b[3] == b[2..4][1];
  }

  /** The bytes of a PUBLISH. */
  lemma PublishLayout(p: Sn.Publish)
    requires Sn.WellTyped(p)
    ensures var b, k := Sn.EncodePublish(p), |NameOf(p.topic)|;
            var h := HeadOf(6 + k + |p.payload|);
            && |b| == h + 6 + k + |p.payload| && b[h] == 12
            && FlagsSay(b[h + 1], p.dup, p.qos, p.retain, b[h + 1] % 4)
            && TopicSays(b[h + 2], b[h + 3], b[h + 1] % 4, p.topic)
            && Two(b[h + 4], b[h + 5]) == p.packetId
            && b[h + 6..h + 6 + k] == NameOf(p.topic) && b[h + 6 + k..] == p.payload
  {
    var body, b := Sn.PublishBody(p), Sn.EncodePublish(p);
    var h := HeadOf(|body|);
    PublishBodyLayout(p);
    FrameLayout(body);
    assert b[h..] == body && forall i :: 0 <= i < 6 ==> b[h + i] == body[i];
  }

  /** What is read from the bytes of a PUBLISH that does not spell its topic out. */
  lemma PublishRead(b: Bytes, h: nat, end: nat)
    requires Headed(b, 12, h, end) && h + 6 <= end
    requires !(b[h + 1] % 4 == 0 && b[h + 1] / 32 % 4 == 3)
    ensures var d := Sn.DecodePublish(b);
            && d.Got? && !d.value.topic.Name?
            && (d.value.dup <==> b[h + 1] / 128 == 1) && d.value.qos == b[h + 1] / 32 % 4
            && (d.value.retain <==> b[h + 1] / 16 % 2 == 1)
            && TopicSays(b[h + 2], b[h + 3], b[h + 1] % 4, d.value.topic)
            && d.value.packetId == Two(b[h + 4], b[h + 5]) && d.value.payload == b[h + 6..end]
  {
    HeadedOpens(b, 12, h, end);
    var field := b[h + 2..h + 4];
    assert field[0] == b[h + 2] && field[1] == b[h + 3];
  }

  /** What is read from the bytes of a PUBLISH at QoS -1 that does. */
  lemma PublishWithNameRead(b: Bytes, h: nat, end: nat)
    requires Headed(b, 12, h, end) && h + 6 <= |b| && b[h + 1] % 4 == 0 && b[h + 1] / 32 % 4 == 3
    requires h + 6 + Two(b[h + 2], b[h + 3]) <= end
    ensures var d, at := Sn.DecodePublish(b), h + 6 + Two(b[h + 2], b[h + 3]);
            d == Got(Sn.Publish(b[h + 1] / 128 == 1, 3, b[h + 1] / 16 % 2 == 1, Sn.Name(b[h + 6..at]),
                                Two(b[h + 4], b[h + 5]), b[at..end]))
  {
    HeadedOpens(b, 12, h, end);
  }

  // ---- REGISTER ----

  lemma RegisterBodyLayout(p: Sn.Register)
    ensures var b := Sn.RegisterBody(p);
            && |b| == 5 + |p.name| && b[0] == 10 && b[5..] == p.name
            && Two(b[1], b[2]) == p.topicId && Two(b[3], b[4]) == p.packetId
  {
    var b := Sn.RegisterBody(p);
    assert b[1..3] == IntBytes(p.topicId) && b[3..5] == IntBytes(p.packetId);
    assert b[1] == b[1..3][0] && b[2] == b[1..3][1] && b[3] == b[3..5][0] && b[4] == b[3..5][1];
    IntRead(p.topicId);
    IntRead(p.packetId);
  }

  /** The bytes of a REGISTER. */
  lemma RegisterLayout(p: Sn.Register)
    ensures var b, h := Sn.EncodeRegister(p), HeadOf(5 + |p.name|);
            && |b| == h + 5 + |p.name| && b[h] == 10
            && Two(b[h + 1], b[h + 2]) == p.topicId && Two(b[h + 3], b[h + 4]) == p.packetId
            && b[h + 5..] == p.name
  {
    var body, b := Sn.RegisterBody(p), Sn.EncodeRegister(p);
    var h := HeadOf(|body|);
    RegisterBodyLayout(p);
    FrameLayout(body);
    assert b[h..] == body && forall i :: 0 <= i < 5 ==> b[h + i] == body[i];
  }

  /** What is read from the bytes of a REGISTER. */
  lemma RegisterRead(b: Bytes, h: nat, end: nat)
    requires Headed(b, 10, h, end) && h + 5 <= end
    ensures Sn.DecodeRegister(b)
            == Got(Sn.Register(Two(b[h + 1], b[h + 2]), Two(b[h + 3], b[h + 4]), b[h + 5..end]))
  {
    HeadedOpens(b, 10, h, end);
  }

  // ---- SUBSCRIBE ----

  /** The bytes of a filter, and their kind in bits 1 and 0 of the flags. */
  predicate FilterSays(f: Bytes, typ: nat, filter: Sn.Filter) {
    match filter
    case TopicName(name) => typ == 0 && f == name
    case PredefinedId(id) => typ == 1 && |f| == 2 && Two(f[0], f[1]) == id
    case ShortName(c0, c1) => typ == 2 && f == [c0, c1]
    case Unused => typ == 3 && f == []
  }

  /** The bytes of a SUBSCRIBE. */
  lemma SubscribeLayout(p: Sn.Subscribe)
    requires p.qos < 4
    ensures var b := Sn.EncodeSubscribe(p);
            var n := 4 + if p.filter.TopicName? then |p.filter.name| else if p.filter.Unused? then 0 else 2;
            var h := HeadOf(n);
            && |b| == h + n && b[h] == 18
            && FlagsSay(b[h + 1], p.dup, p.qos, false, b[h + 1] % 4)
            && Two(b[h + 2], b[h + 3]) == p.packetId
            && FilterSays(b[h + 4..], b[h + 1] % 4, p.filter)
  {
    var body := Sn.SubscribeBody(p);
    FrameLayout(body);
    var typ: nat := match p.filter
      case TopicName(_) => 0
      case PredefinedId(_) => 1
      case ShortName(_, _) => 2
      case Unused => 3;
    FlagBits(typ, 0, p.qos, if p.dup then 1 else 0);
    assert body[1] == typ + 32 * p.qos + 128 * (if p.dup then 1 else 0);
    assert body[4..] == Sn.FilterBytes(p.filter);
  }

  /** What is read from the bytes of a SUBSCRIBE; an id or a short name takes two of them, whatever the length says. */
  lemma SubscribeRead(b: Bytes, h: nat, end: nat)
    requires Headed(b, 18, h, end) && h + 4 <= end
    requires b[h + 1] % 4 == 1 || b[h + 1] % 4 == 2 ==> h + 6 <= |b|
    ensures var d, typ := Sn.DecodeSubscribe(b), b[h + 1] % 4;
            && d.Got? && (d.value.dup <==> b[h + 1] / 128 == 1) && d.value.qos == b[h + 1] / 32 % 4
            && d.value.packetId == Two(b[h + 2], b[h + 3])
            && FilterSays(if typ == 0 then b[h + 4..end] else if typ == 3 then [] else b[h + 4..h + 6],
                          typ, d.value.filter)
  {
    HeadedOpens(b, 18, h, end);
    if b[h + 1] % 4 == 1 || b[h + 1] % 4 == 2 {
      assert b[h + 4..h + 6] == [b[h + 4], b[h + 5]];
    }
  }

  // ---- PUBACK ----

  /** The bytes of a PUBACK. */
  lemma PubackLayout(topicId: u16, packetId: u16, rc: byte)
    ensures var b := Sn.EncodePuback(topicId, packetId, rc);
            && |b| == 7 && b[0] == 7 && b[1] == 13 && b[6] == rc
            && Two(b[2], b[3]) == topicId && Two(b[4], b[5]) == packetId
  {
    FrameLayout(Sn.PubackBody(topicId, packetId, rc));
    IntRead(topicId);
    IntRead(packetId);
  }

  // ---- MQTT ----

  /** The first byte of a PUBLISH: bits 7 to 4 the type 3, bit 3 dup, bits 2 and 1 QoS, bit 0 retain. */
  predicate HeaderSays(h: byte, dup: bool, qos: nat, retain: bool) {
    h / 16 == 3 && (h / 8 % 2 == 1 <==> dup) && h / 2 % 4 == qos && (h % 2 == 1 <==> retain)
  }

  lemma HeaderBits(retain: nat, qos: nat, dup: nat)
    requires retain < 2 && qos < 4 && dup < 2
    ensures var h := retain + 2 * qos + 8 * dup + 48;
            h < 256 && h / 16 == 3 && h / 8 % 2 == dup && h / 2 % 4 == qos && h % 2 == retain
  {
    var h := retain + 2 * qos + 8 * dup + 48;
    assert h / 2 == qos + 4 * dup + 24 && h / 8 == dup + 6;
  }

  lemma HeaderLayout(p: Mqtt.Publish)
    requires p.qos < 4
    ensures HeaderSays(Mqtt.PublishHeader(p), p.dup, p.qos, p.retain)
  {
    var retain, dup := if p.retain then 1 else 0, if p.dup then 1 else 0;
    HeaderBits(retain, p.qos, dup);
    assert Mqtt.PublishHeader(p) == retain + 2 * p.qos + 8 * dup + 48;
  }

  /** The first byte of a PUBLISH, and what stands behind its Remaining Length. */
  lemma MqttPublishLayout(p: Mqtt.Publish)
    requires p.qos < 4
    ensures HeaderSays(Mqtt.PublishHeader(p), p.dup, p.qos, p.retain)
    ensures var d, n := Mqtt.PublishData(p), |p.topic|;
            && |d| == 2 + n + (if p.qos > 0 then 2 else 0) + |p.payload|
            && Two(d[0], d[1]) == n % 65536 && d[2..2 + n] == p.topic
            && if p.qos > 0 then Two(d[2 + n], d[3 + n]) == p.msgId && d[4 + n..] == p.payload
               else d[2 + n..] == p.payload
  {
    HeaderLayout(p);
    var d, n := Mqtt.PublishData(p), |p.topic|;
    assert d[0..2] == IntBytes(n) && d[0] == d[0..2][0] && d[1] == d[0..2][1];
    if p.qos > 0 {
      assert d[2 + n..4 + n] == IntBytes(p.msgId);
      assert d[2 + n] == d[2 + n..4 + n][0] && d[3 + n] == d[2 + n..4 + n][1];
    }
  }

  /** What is read from the first byte of a PUBLISH and its data. */
  lemma MqttPublishRead(h: byte, d: Bytes, n: nat)
    requires h / 16 == 3 && |d| >= 2 && n == Two(d[0], d[1])
    requires 2 + n + (if h / 2 % 4 > 0 then 2 else 0) <= |d|
    ensures var r, qos := Mqtt.DecodePublish(h, d), h / 2 % 4;
            && r.Got? && HeaderSays(h, r.value.dup, r.value.qos, r.value.retain) && r.value.topic == d[2..2 + n]
            && if qos > 0 then r.value.msgId == Two(d[2 + n], d[3 + n]) && r.value.payload == d[4 + n..]
               else r.value.msgId == 0 && r.value.payload == d[2 + n..]
  {
  }

  /** Another type in the first byte: the packet is refused. */
  lemma MqttOtherType(h: byte, d: Bytes)
    requires h / 16 != 3
    ensures Mqtt.DecodePublish(h, d) == Refused
  {
  }

  /** The Remaining Length of the data, digit by digit: seven bits in each byte, the least significant first, and
      the top bit in all but the last. */
  lemma RemainingLengthLayout(header: byte, data: Bytes)
    ensures var b, n := Mqtt.PacketBytes(header, data), |data|;
            && b[0] == header
            && (n < 0x80 ==> b[1] == n && b[2..] == data)
            && (0x80 <= n < 0x4000 ==> b[1] == n % 128 + 128 && b[2] == n / 128 && b[3..] == data)
            && (0x4000 <= n < 0x20_0000 ==>
                  b[1] == n % 128 + 128 && b[2] == n / 128 % 128 + 128 && b[3] == n / 128 / 128 && b[4..] == data)
  {
    var b, n := Mqtt.PacketBytes(header, data), |data|;
    var l := Mqtt.LengthBytes(n);
    assert b[1 + |l|..] == data && forall i :: 0 <= i < |l| ==> b[1 + i] == l[i];
    if 0x80 <= n < 0x4000 {
      assert l == [n % 128 + 128] + Mqtt.LengthBytes(n / 128) == [n % 128 + 128, n / 128];
    } else if 0x4000 <= n < 0x20_0000 {
      assert Mqtt.LengthBytes(n / 128) == [n / 128 % 128 + 128] + Mqtt.LengthBytes(n / 128 / 128);
      assert l == [n % 128 + 128, n / 128 % 128 + 128, n / 128 / 128];
    }
  }

  /** A byte with the top bit gives seven bits, and the loop goes on. */
  lemma ReadsSeven(a: nat, rest: Bytes, end: Mqtt.End, c: byte, len: nat, sum: nat)
    requires a < 128 && len < 3
    ensures Mqtt.ReadLength([a + 128] + rest, end, c, len, sum)
            == Mqtt.ReadLength(rest, end, a + 128, len + 1, sum + a * Mqtt.Power128(len))
  {
    Mqtt.ReadStep([a + 128] + rest, end, c, len, sum, a + 128);
    assert ([a + 128] + rest)[1..] == rest;
  }

  /** A byte without it ends the loop. */
  lemma ReadsLast(a: nat, rest: Bytes, end: Mqtt.End, c: byte, len: nat, sum: nat)
    requires a < 128 && len < 3
    ensures Mqtt.ReadLength([a] + rest, end, c, len, sum) == Mqtt.Ok(sum + a * Mqtt.Power128(len), len + 1)
  {
    Mqtt.ReadStep([a] + rest, end, c, len, sum, a);
  }

  lemma ReadsTwice(a: nat, b: nat, rest: Bytes, end: Mqtt.End, stale: byte)
    requires a < 128 && b < 128
    ensures Mqtt.ReadLength([a + 128] + ([b + 128] + rest), end, stale, 0, 0)
            == Mqtt.ReadLength(rest, end, b + 128, 2, a + 128 * b)
  {
    assert Mqtt.Power128(0) == 1 && Mqtt.Power128(1) == 128;
    ReadsSeven(a, [b + 128] + rest, end, stale, 0, 0);
    ReadsSeven(b, rest, end, a + 128, 1, a);
  }

  /** What is read from a Remaining Length of one, two or three bytes. */
  lemma RemainingLengthRead(a: nat, b: nat, c: nat, rest: Bytes, end: Mqtt.End, stale: byte)
    requires a < 128 && b < 128 && c < 128
    ensures Mqtt.ReadLength([a] + rest, end, stale, 0, 0) == Mqtt.Ok(a, 1)
    ensures Mqtt.ReadLength([a + 128] + ([b] + rest), end, stale, 0, 0) == Mqtt.Ok(a + 128 * b, 2)
    ensures Mqtt.ReadLength([a + 128] + ([b + 128] + ([c] + rest)), end, stale, 0, 0)
            == Mqtt.Ok(a + 128 * b + 0x4000 * c, 3)
  {
    assert Mqtt.Power128(0) == 1 && Mqtt.Power128(1) == 128 && Mqtt.Power128(2) == 0x4000;
    ReadsLast(a, rest, end, stale, 0, 0);
    ReadsSeven(a, [b] + rest, end, stale, 0, 0);
    ReadsLast(b, rest, end, a + 128, 1, a);
    ReadsTwice(a, b, [c] + rest, end, stale);
    ReadsLast(c, rest, end, b + 128, 2, a + 128 * b);
  }

  /** A third byte that announces another: refused. */
  lemma FourthRefused(a: nat, b: nat, c: nat, rest: Bytes, end: Mqtt.End, stale: byte)
    requires a < 128 && b < 128 && c < 128
    ensures Mqtt.ReadLength([a + 128] + ([b + 128] + ([c + 128] + rest)), end, stale, 0, 0) == Mqtt.Error(-2)
  {
    ReadsTwice(a, b, [c + 128] + rest, end, stale);
    ReadsSeven(c, rest, end, b + 128, 2, a + 128 * b);
  }
}
