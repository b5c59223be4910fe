/** MQTT-SN packets as bytes: the length field, PUBLISH, REGISTER and SUBSCRIBE
    (sections 5.2.1, 5.4.12, 5.4.10 and 5.4.15 of MQTT-SN v1.2). */
module SnCodec {
  import opened SortedMap
  import opened Wire

  const PUBLISH: byte := 12
  const REGISTER: byte := 10
  const SUBSCRIBE: byte := 18
  const PUBACK: byte := 13

  // ---- the length field ----

  /** The size of a packet with `n` bytes behind its length field. */
  function PacketLen(n: nat): nat { if n > 255 then n + 3 else n + 1 }

  function LengthField(len: nat): Bytes { if len > 255 then [1] + IntBytes(len) else [len] }

  function Frame(body: Bytes): Bytes { LengthField(PacketLen(|body|)) + body }

  /** How many bytes the length field takes, -1 when it is cut off, and the length. */
  function DecodeLength(buf: Bytes): (int, nat) {
    if buf == [] then (-1, 0)
    else if buf[0] == 1 then
      if |buf| < 3 then (-1, 0) else (3, IntAt(buf, 1))
    else (1, buf[0])
  }

  /** Where the fields of a packet of type `typ` begin, and where the packet ends. */
  function Opened(buf: Bytes, typ: byte): Decoded<(nat, nat)> {
    var (cur, end) := DecodeLength(buf);
    if end - cur > |buf| then Refused
    else if cur < 0 || cur >= |buf| then Broken
    else if buf[cur] != typ then Refused
    else Got((cur + 1, end))
  }

  /** The announced length is the true one except for a body of 255 bytes, where the packet
      should have 256 bytes but the length field takes two more than were allowed for. */
  lemma FrameSize(body: Bytes)
    ensures |Frame(body)| == PacketLen(|body|) + (if |body| == 255 then 2 else 0)
  {
  }

  lemma OpenedFrame(body: Bytes, rest: Bytes)
    requires |body| >= 1
    ensures var n := if |body| >= 255 then 3 else 1;
            var buf := Frame(body) + rest;
            && |Frame(body)| == n + |body| && buf[n..n + |body|] == body
            && DecodeLength(buf) == (n, if |body| == 255 then 256
                                        else if |body| > 255 then (|body| + 3) % 65536 else |body| + 1)
            && Opened(buf, body[0]) == Got((n + 1, DecodeLength(buf).1))
  {
    var buf := Frame(body) + rest;
    var n := |LengthField(PacketLen(|body|))|;
    assert buf[n..n + |body|] == body;
    assert buf[n] == body[0];
    if |body| >= 255 {
      assert buf[1..3] == IntBytes(PacketLen(|body|));
      IntRoundTrip(PacketLen(|body|), buf, 1);
    } else {
      assert buf[0] == |body| + 1;
    }
  }

  /** The receiver is told the number of bytes there are, for every body but that of 255 bytes
      and those too long for the field. */
  lemma AnnouncedLength(body: Bytes)
    requires |body| >= 1
    ensures DecodeLength(Frame(body)).1 == |Frame(body)| <==> |body| != 255 && |body| <= 65532
  {
    OpenedFrame(body, []);
    assert Frame(body) + [] == Frame(body);
  }

  /** Writes a length field at the front of the buffer. */
  method EncodeLength(buf: array<byte>, len: nat) returns (n: nat)
    requires |LengthField(len)| <= buf.Length
    modifies buf
    ensures n == |LengthField(len)| && buf[..] == Written(old(buf[..]), 0, LengthField(len))
  {
    if len > 255 {
      var ptr := WriteChar(buf, 0, 1);
      ptr := WriteInt(buf, ptr, len);
      WrittenTwice(old(buf[..]), 0, [1], IntBytes(len));
      return 3;
    }
    buf[0] := len;
    return 1;
  }

  /** Writes a length field and what comes first behind it. */
  method Begin(buf: array<byte>, len: nat, first: Bytes) returns (ptr: nat)
    requires |LengthField(len) + first| <= buf.Length
    modifies buf
    ensures ptr == |LengthField(len) + first|
    ensures buf[..] == Written(old(buf[..]), 0, LengthField(len) + first)
  {
    ghost var was := buf[..];
    ptr := EncodeLength(buf, len);
    ptr := WriteNext(buf, 0, first, was, LengthField(len), ptr);
  }

  /** Reads a length field: how many bytes it takes, -1 when it is cut off, and the length. */
  method DecodeLengthField(buf: array<byte>) returns (n: int, len: nat)
    ensures (n, len) == DecodeLength(buf[..])
  {
    if buf.Length <= 0 {
      return -1, 0;
    }
    if buf[0] == 1 {
      if buf.Length < 3 {
        return -1, 0;
      }
      var value, next := ReadInt(buf, 1);
      return 3, value;
    }
    return 1, buf[0];
  }

  // ---- PUBLISH ----

  datatype TopicField =
    | Id(predefined: bool, id: u16)
    | Short(c0: byte, c1: byte, typ: byte)    // type 2, or the unused 3
    | Name(name: Bytes)                       // a NORMAL topic at QoS 3 (that is -1)

  datatype Publish = Publish(dup: bool, qos: nat, retain: bool, topic: TopicField, packetId: u16, payload: Bytes)

  /** What the types of the fields leave open. */
  predicate WellTyped(p: Publish) {
    && p.qos < 4
    && match p.topic
       case Id(predefined, _) => predefined || p.qos != 3
       case Short(_, _, typ) => typ == 2 || typ == 3
       case Name(name) => p.qos == 3 && |name| < 65536
  }

  function TypeOf(t: TopicField): byte {
    match t
    case Id(predefined, _) => Bit(predefined)
    case Short(_, _, typ) => typ
    case Name(_) => 0
  }

  function PublishFlags(p: Publish): byte {
    (TypeOf(p.topic) + 16 * Bit(p.retain) + 32 * p.qos + 128 * Bit(p.dup)) % 256
  }

  function FieldBytes(t: TopicField): (r: Bytes)
    ensures |r| == 2
  {
    match t
    case Id(_, id) => IntBytes(id)
    case Short(c0, c1, _) => [c0, c1]
    case Name(name) => IntBytes(|name|)
  }

  function NameBytes(t: TopicField): Bytes { if t.Name? then t.name else [] }

  function PublishBody(p: Publish): Bytes {
    [PUBLISH, PublishFlags(p)] + FieldBytes(p.topic) + IntBytes(p.packetId) + NameBytes(p.topic) + p.payload
  }

  function EncodePublish(p: Publish): Bytes { Frame(PublishBody(p)) }

  function FieldOf(flags: byte, field: Bytes): TopicField
    requires |field| == 2
  {
    if flags % 4 < 2 then Id(flags % 4 == 1, IntAt(field, 0)) else Short(field[0], field[1], flags % 4)
  }

  predicate HasName(flags: byte) { flags % 4 == 0 && flags / 32 % 4 == 3 }

  function DecodePublish(buf: Bytes): Decoded<Publish> {
    match Opened(buf, PUBLISH)
    case Refused => Refused
    case Broken => Broken
    case Got((cur, end)) =>
      if cur + 5 > |buf| then Broken
      else
        var flags := buf[cur];
        var nameLen := if HasName(flags) then IntAt(buf, cur + 1) else 0;
        match (Between(buf, cur + 5, cur + 5 + nameLen), Between(buf, cur + 5 + nameLen, end))
        case (Got(name), Got(payload)) =>
          Got(Publish(flags / 128 == 1, flags / 32 % 4, flags / 16 % 2 == 1,
                      if HasName(flags) then Name(name) else FieldOf(flags, buf[cur + 1..cur + 3]),
                      IntAt(buf, cur + 3), payload))
        case _ => Broken
  }

  /** A payload is no longer than what follows the six bytes before it. */
  lemma PayloadBound(buf: Bytes)
    requires DecodePublish(buf).Got?
    ensures DecodeLength(buf).0 + 6 + |DecodePublish(buf).value.payload| <= |buf|
  {
  }

  lemma FlagsBack(p: Publish)
    requires WellTyped(p)
    ensures var f := PublishFlags(p);
            && f % 4 == TypeOf(p.topic) && (f / 16 % 2 == 1 <==> p.retain)
            && f / 32 % 4 == p.qos && (f / 128 == 1 <==> p.dup)
            && (HasName(f) <==> p.topic.Name?)
  {
    var typ, retain, dup := TypeOf(p.topic), Bit(p.retain), Bit(p.dup);
    FlagParts(typ, retain, p.qos, dup);
    var f := typ + 16 * retain + 32 * p.qos + 128 * dup;
    assert PublishFlags(p) == f;
    assert f % 4 == typ && f / 32 % 4 == p.qos;
  }

  lemma FlagParts(typ: nat, retain: nat, qos: nat, dup: nat)
    requires typ < 4 && retain < 2 && qos < 4 && dup < 2
    ensures var f := typ + 16 * retain + 32 * qos + 128 * dup;
            f < 256 && f % 4 == typ && f / 16 % 2 == retain && f / 32 % 4 == qos && f / 128 == dup
  {
    var f := typ + 16 * retain + 32 * qos + 128 * dup;
    assert f / 16 == retain + 2 * qos + 8 * dup;
    assert f / 32 == qos + 4 * dup;
  }

  /** Any part of a body is found in the buffer that holds the body at `n`. */
  lemma PartAt(buf: Bytes, n: nat, body: Bytes, i: nat, j: nat)
    requires n + |body| <= |buf| && buf[n..n + |body|] == body && i <= j <= |body|
    ensures buf[n + i..n + j] == body[i..j]
  {
    forall k | 0 <= k < j - i ensures buf[n + i..n + j][k] == body[i..j][k] {
      assert buf[n..n + |body|][i + k] == buf[n + i + k];
    }
  }

  lemma PublishParts(p: Publish, buf: Bytes, n: nat)
    requires WellTyped(p)
    requires n + |PublishBody(p)| <= |buf| && buf[n..n + |PublishBody(p)|] == PublishBody(p)
    ensures buf[n + 1] == PublishFlags(p) && buf[n + 2..n + 4] == FieldBytes(p.topic) && IntAt(buf, n + 4) == p.packetId
    ensures buf[n + 6..n + 6 + |NameBytes(p.topic)|] == NameBytes(p.topic)
  {
    var body, name := PublishBody(p), NameBytes(p.topic);
    assert buf[n + 1] == buf[n..n + |body|][1] == body[1];
    PartAt(buf, n, body, 2, 4);
    PartAt(buf, n, body, 4, 6);
    PartAt(buf, n, body, 6, 6 + |name|);
    assert body[2..4] == FieldBytes(p.topic) && body[4..6] == IntBytes(p.packetId) && body[6..6 + |name|] == name;
    IntRoundTrip(p.packetId, buf, n + 4);
  }

  /** The packet as far as its payload, which ends where the length field says. */
  lemma PublishDecoded(p: Publish, buf: Bytes, n: nat, end: nat)
    requires WellTyped(p)
    requires n + |PublishBody(p)| <= |buf| && buf[n..n + |PublishBody(p)|] == PublishBody(p)
    requires Opened(buf, PUBLISH) == Got((n + 1, end))
    ensures var from := n + |PublishBody(p)| - |p.payload|;
            DecodePublish(buf) == if from <= end <= |buf| then Got(p.(payload := buf[from..end])) else Broken
  {
    PublishParts(p, buf, n);
    FlagsBack(p);
    FieldBack(p, PublishFlags(p), FieldBytes(p.topic));
    var flags, name := PublishFlags(p), NameBytes(p.topic);
    if p.topic.Name? {
      IntRoundTrip(|name|, buf, n + 2);
      assert Between(buf, n + 6, n + 6 + |name|) == Got(name);
    } else {
      assert !HasName(flags) && FieldOf(flags, buf[n + 2..n + 4]) == p.topic;
    }
  }

  lemma FieldBack(p: Publish, flags: byte, field: Bytes)
    requires WellTyped(p) && flags == PublishFlags(p) && field == FieldBytes(p.topic)
    ensures !p.topic.Name? ==> FieldOf(flags, field) == p.topic
  {
    FlagsBack(p);
    if p.topic.Id? {
      IntRoundTrip(p.topic.id, field, 0);
    }
  }

  /** A PUBLISH read back from the bytes written for it, whatever follows them, is the same:
      exactly when its body is not 255 bytes long and its length fits in 16 bits. */
  lemma PublishRoundTrip(p: Publish, rest: Bytes)
    requires WellTyped(p)
    ensures var n := |PublishBody(p)|;
            DecodePublish(EncodePublish(p) + rest) == Got(p) <==> n != 255 && n <= 65532
  {
    var body := PublishBody(p);
    var buf := EncodePublish(p) + rest;
    OpenedFrame(body, rest);
    var end := DecodeLength(buf).1;
    assert end == |EncodePublish(p)| <==> |body| != 255 && |body| <= 65532;
    PublishBack(p, buf, if |body| >= 255 then 3 else 1, end);
  }

  /** The same PUBLISH is read exactly when the packet is taken to end where its body does. */
  lemma PublishBack(p: Publish, buf: Bytes, n: nat, end: nat)
    requires WellTyped(p)
    requires n + |PublishBody(p)| <= |buf| && buf[n..n + |PublishBody(p)|] == PublishBody(p)
    requires Opened(buf, PUBLISH) == Got((n + 1, end))
    ensures DecodePublish(buf) == Got(p) <==> end == n + |PublishBody(p)|
  {
    var body := PublishBody(p);
    PublishDecoded(p, buf, n, end);
    PartAt(buf, n, body, |body| - |p.payload|, |body|);
    assert body[|body| - |p.payload|..] == p.payload;
  }

  function PublishLength(p: Publish): nat { 6 + |NameBytes(p.topic)| + |p.payload| }

  /** Writes the packet, or nothing when the announced length does not fit into `buflen`. */
  method SerializePublish(buf: array<byte>, buflen: int, p: Publish) returns (r: Serialized)
    requires WellTyped(p) && buflen <= buf.Length
    modifies buf
    ensures if PacketLen(|PublishBody(p)|) > buflen then r == TooShort && buf[..] == old(buf[..])
            else if |EncodePublish(p)| > buf.Length then r == Overrun
            else r == Wrote(|EncodePublish(p)|) && buf[..] == Written(old(buf[..]), 0, EncodePublish(p))
  {
    FrameSize(PublishBody(p));
    assert |PublishBody(p)| == PublishLength(p);
    var len := PacketLen(PublishLength(p));
    if len > buflen {
      return TooShort;
    }
    if len == 256 && buf.Length < 258 {
      return Overrun;     // the source goes on writing
    }
    var first := [PUBLISH, PublishFlags(p)];
    ghost var was, done := buf[..], LengthField(len) + first;
    var ptr := Begin(buf, len, first);
    ptr := WriteNextTwo(buf, 0, FieldBytes(p.topic), IntBytes(p.packetId), was, done, ptr);
    done := done + FieldBytes(p.topic) + IntBytes(p.packetId);
    ptr := WriteNextTwo(buf, 0, NameBytes(p.topic), p.payload, was, done, ptr);
    PublishJoined(LengthField(len), p);
    return Wrote(ptr);
  }

  lemma PublishJoined(l: Bytes, p: Publish)
    ensures l + [PUBLISH, PublishFlags(p)] + FieldBytes(p.topic) + IntBytes(p.packetId) + NameBytes(p.topic) + p.payload
         == l + PublishBody(p)
  {
  }

  /** The bytes of a packet the gateway has built in its buffer. Otherwise the size it goes by is
      -2 in 16 bits, and the packet is whatever lies behind the buffer. */
  function Packed(body: Bytes): Option<Bytes> {
    if PacketLen(|body|) <= MAX_PACKET_SIZE then Some(Frame(body)) else None
  }

  method SetPublish(p: Publish) returns (r: Option<Bytes>)
    requires WellTyped(p)
    ensures r == Packed(PublishBody(p))
  {
    var buf := new byte[MAX_PACKET_SIZE];
    var rc := SerializePublish(buf, buf.Length, p);
    FrameSize(PublishBody(p));
    if rc.Wrote? {
      assert buf[..rc.n] == buf[..][..rc.n] == EncodePublish(p);
      return Some(buf[..rc.n]);
    }
    return None;
  }

  /** Reads a PUBLISH from a buffer that holds as many bytes as were received. */
  method DeserializePublish(buf: array<byte>) returns (r: Decoded<Publish>)
    ensures r == DecodePublish(buf[..])
  {
    var n, len := DecodeLengthField(buf);
    if len - n > buf.Length {
      return Refused;
    }
    if n < 0 || n + 1 > buf.Length {
      return Broken;
    }
    var typ, cur := ReadChar(buf, n);
    if typ != PUBLISH {
      return Refused;
    }
    if cur + 5 > buf.Length {
      return Broken;
    }
    var flags, packetId, field;
    flags, cur := ReadChar(buf, cur);
    field := buf[cur..cur + 2];
    cur := cur + 2;
    packetId, cur := ReadInt(buf, cur);
    var topic;
    if HasName(flags) {
      var nameLen := IntAt(field, 0);
      if cur + nameLen > buf.Length {
        return Broken;
      }
      topic := Name(buf[cur..cur + nameLen]);
      cur := cur + nameLen;
    } else {
      topic := FieldOf(flags, field);
    }
    if !(cur <= len <= buf.Length) {
      return Broken;
    }
    return Got(Publish(flags / 128 == 1, flags / 32 % 4, flags / 16 % 2 == 1, topic, packetId, buf[cur..len]));
  }

  // ---- REGISTER ----

  datatype Register = Register(topicId: u16, packetId: u16, name: Bytes)

  function RegisterBody(p: Register): Bytes {
    [REGISTER] + IntBytes(p.topicId) + IntBytes(p.packetId) + p.name
  }

  function EncodeRegister(p: Register): Bytes { Frame(RegisterBody(p)) }

  function DecodeRegister(buf: Bytes): Decoded<Register> {
    match Opened(buf, REGISTER)
    case Refused => Refused
    case Broken => Broken
    case Got((cur, end)) =>
      if cur + 4 > |buf| then Broken
      else match Between(buf, cur + 4, end)
        case Got(name) => Got(Register(IntAt(buf, cur), IntAt(buf, cur + 2), name))
        case _ => Broken
  }

  lemma RegisterDecoded(p: Register, buf: Bytes, n: nat, end: nat)
    requires n + |RegisterBody(p)| <= |buf| && buf[n..n + |RegisterBody(p)|] == RegisterBody(p)
    requires Opened(buf, REGISTER) == Got((n + 1, end))
    ensures DecodeRegister(buf) == if n + 5 <= end <= |buf| then Got(p.(name := buf[n + 5..end])) else Broken
  {
    var body := RegisterBody(p);
    PartAt(buf, n, body, 1, 3);
    PartAt(buf, n, body, 3, 5);
    assert body[1..3] == IntBytes(p.topicId) && body[3..5] == IntBytes(p.packetId);
    IntRoundTrip(p.topicId, buf, n + 1);
    IntRoundTrip(p.packetId, buf, n + 3);
  }

  lemma RegisterRoundTrip(p: Register, rest: Bytes)
    ensures var n := |RegisterBody(p)|;
            DecodeRegister(EncodeRegister(p) + rest) == Got(p) <==> n != 255 && n <= 65532
  {
    var body := RegisterBody(p);
    var buf := EncodeRegister(p) + rest;
    OpenedFrame(body, rest);
    var n := if |body| >= 255 then 3 else 1;
    RegisterDecoded(p, buf, n, DecodeLength(buf).1);
    PartAt(buf, n, body, 5, |body|);
    assert body[5..] == p.name;
  }

  method SerializeRegister(buf: array<byte>, buflen: int, p: Register) returns (r: Serialized)
    requires buflen <= buf.Length
    modifies buf
    ensures if PacketLen(|RegisterBody(p)|) > buflen then r == TooShort && buf[..] == old(buf[..])
            else if |EncodeRegister(p)| > buf.Length then r == Overrun
            else r == Wrote(|EncodeRegister(p)|) && buf[..] == Written(old(buf[..]), 0, EncodeRegister(p))
  {
    var len := PacketLen(|p.name| + 5);
    if len > buflen {
      return TooShort;
    }
    if len == 256 && buf.Length < 258 {
      return Overrun;     // the source goes on writing
    }
    FrameSize(RegisterBody(p));
    ghost var was, done := buf[..], LengthField(len) + [REGISTER];
    var ptr := Begin(buf, len, [REGISTER]);
    ptr := WriteNextTwo(buf, 0, IntBytes(p.topicId), IntBytes(p.packetId), was, done, ptr);
    done := done + IntBytes(p.topicId) + IntBytes(p.packetId);
    ptr := WriteNext(buf, 0, p.name, was, done, ptr);
    RegisterJoined(LengthField(len), p);
    return Wrote(ptr);
  }

  lemma RegisterJoined(l: Bytes, p: Register)
    ensures l + [REGISTER] + IntBytes(p.topicId) + IntBytes(p.packetId) + p.name == l + RegisterBody(p)
  {
  }

  method SetRegister(p: Register) returns (r: Option<Bytes>)
    ensures r == Packed(RegisterBody(p))
  {
    var buf := new byte[MAX_PACKET_SIZE];
    var rc := SerializeRegister(buf, buf.Length, p);
    FrameSize(RegisterBody(p));
    if rc.Wrote? {
      assert buf[..rc.n] == buf[..][..rc.n] == EncodeRegister(p);
      return Some(buf[..rc.n]);
    }
    return None;
  }

  method DeserializeRegister(buf: array<byte>) returns (r: Decoded<Register>)
    ensures r == DecodeRegister(buf[..])
  {
    var n, len := DecodeLengthField(buf);
    if len - n > buf.Length {
      return Refused;
    }
    if n < 0 || n + 1 > buf.Length {
      return Broken;
    }
    var typ, cur := ReadChar(buf, n);
    if typ != REGISTER {
      return Refused;
    }
    if cur + 4 > buf.Length {
      return Broken;
    }
    var topicId, packetId;
    topicId, cur := ReadInt(buf, cur);
    packetId, cur := ReadInt(buf, cur);
    if !(cur <= len <= buf.Length) {
      return Broken;
    }
    return Got(Register(topicId, packetId, buf[cur..len]));
  }

  // ---- SUBSCRIBE ----

  datatype Filter =
    | TopicName(name: Bytes)
    | PredefinedId(id: u16)
    | ShortName(c0: byte, c1: byte)
    | Unused                          // type 3: nothing follows

  datatype Subscribe = Subscribe(dup: bool, qos: nat, packetId: u16, filter: Filter)

  function FilterType(f: Filter): byte {
    match f
    case TopicName(_) => 0
    case PredefinedId(_) => 1
    case ShortName(_, _) => 2
    case Unused => 3
  }

  function FilterBytes(f: Filter): Bytes {
    match f
    case TopicName(name) => name
    case PredefinedId(id) => IntBytes(id)
    case ShortName(c0, c1) => [c0, c1]
    case Unused => []
  }

  function SubscribeFlags(p: Subscribe): byte {
    (FilterType(p.filter) + 32 * p.qos + 128 * Bit(p.dup)) % 256
  }

  function SubscribeBody(p: Subscribe): Bytes {
    [SUBSCRIBE, SubscribeFlags(p)] + IntBytes(p.packetId) + FilterBytes(p.filter)
  }

  function EncodeSubscribe(p: Subscribe): Bytes { Frame(SubscribeBody(p)) }

  /** The filter that starts at `cur`; only a name needs to know where the packet ends. */
  function FilterAt(buf: Bytes, typ: byte, cur: nat, end: nat): Decoded<Filter> {
    if typ == 0 then
      match Between(buf, cur, end)
      case Got(name) => Got(TopicName(name))
      case _ => Broken
    else if typ == 3 then Got(Unused)
    else if cur + 2 > |buf| then Broken
    else if typ == 1 then Got(PredefinedId(IntAt(buf, cur)))
    else Got(ShortName(buf[cur], buf[cur + 1]))
  }

  function DecodeSubscribe(buf: Bytes): Decoded<Subscribe> {
    match Opened(buf, SUBSCRIBE)
    case Refused => Refused
    case Broken => Broken
    case Got((cur, end)) =>
      if cur + 3 > |buf| then Broken
      else
        var flags := buf[cur];
        match FilterAt(buf, flags % 4, cur + 3, end)
        case Got(filter) => Got(Subscribe(flags / 128 == 1, flags / 32 % 4, IntAt(buf, cur + 1), filter))
        case _ => Broken
  }

  lemma SubscribeDecoded(p: Subscribe, buf: Bytes, n: nat, end: nat)
    requires p.qos < 4
    requires n + |SubscribeBody(p)| <= |buf| && buf[n..n + |SubscribeBody(p)|] == SubscribeBody(p)
    requires Opened(buf, SUBSCRIBE) == Got((n + 1, end))
    ensures DecodeSubscribe(buf) ==
            if !p.filter.TopicName? then Got(p)
            else if n + 4 <= end <= |buf| then Got(p.(filter := TopicName(buf[n + 4..end]))) else Broken
  {
    var body := SubscribeBody(p);
    FlagParts(FilterType(p.filter), 0, p.qos, Bit(p.dup));
    assert buf[n + 1] == buf[n..n + |body|][1] == body[1];
    PartAt(buf, n, body, 2, 4);
    assert body[2..4] == IntBytes(p.packetId);
    IntRoundTrip(p.packetId, buf, n + 2);
    if p.filter.PredefinedId? || p.filter.ShortName? {
      PartAt(buf, n, body, 4, 6);
      assert buf[n + 4..n + 6] == body[4..6] == FilterBytes(p.filter);
      assert buf[n + 4] == buf[n + 4..n + 6][0] && buf[n + 5] == buf[n + 4..n + 6][1];
      if p.filter.PredefinedId? {
        IntRoundTrip(p.filter.id, buf, n + 4);
      }
    }
  }

  lemma SubscribeRoundTrip(p: Subscribe, rest: Bytes)
    requires p.qos < 4
    ensures var n := |SubscribeBody(p)|;
            DecodeSubscribe(EncodeSubscribe(p) + rest) == Got(p) <==> n != 255 && n <= 65532
  {
    var body := SubscribeBody(p);
    var buf := EncodeSubscribe(p) + rest;
    OpenedFrame(body, rest);
    var n := if |body| >= 255 then 3 else 1;
    SubscribeDecoded(p, buf, n, DecodeLength(buf).1);
    PartAt(buf, n, body, 4, |body|);
    assert body[4..] == FilterBytes(p.filter);
  }

  method SerializeSubscribe(buf: array<byte>, buflen: int, p: Subscribe) returns (r: Serialized)
    requires buflen <= buf.Length
    modifies buf
    ensures if PacketLen(|SubscribeBody(p)|) > buflen then r == TooShort && buf[..] == old(buf[..])
            else if |EncodeSubscribe(p)| > buf.Length then r == Overrun
            else r == Wrote(|EncodeSubscribe(p)|) && buf[..] == Written(old(buf[..]), 0, EncodeSubscribe(p))
  {
    var len := PacketLen(4 + |FilterBytes(p.filter)|);
    if len > buflen {
      return TooShort;
    }
    if len == 256 && buf.Length < 258 {
      return Overrun;     // the source goes on writing
    }
    FrameSize(SubscribeBody(p));
    var first := [SUBSCRIBE, SubscribeFlags(p)];
    ghost var was, done := buf[..], LengthField(len) + first;
    var ptr := Begin(buf, len, first);
    ptr := WriteNextTwo(buf, 0, IntBytes(p.packetId), FilterBytes(p.filter), was, done, ptr);
    SubscribeJoined(LengthField(len), p);
    return Wrote(ptr);
  }

  lemma SubscribeJoined(l: Bytes, p: Subscribe)
    ensures l + [SUBSCRIBE, SubscribeFlags(p)] + IntBytes(p.packetId) + FilterBytes(p.filter) == l + SubscribeBody(p)
  {
  }

  method DeserializeSubscribe(buf: array<byte>) returns (r: Decoded<Subscribe>)
    ensures r == DecodeSubscribe(buf[..])
  {
    var n, len := DecodeLengthField(buf);
    if len - n > buf.Length {
      return Refused;
    }
    if n < 0 || n + 1 > buf.Length {
      return Broken;
    }
    var typ, cur := ReadChar(buf, n);
    if typ != SUBSCRIBE {
      return Refused;
    }
    if cur + 3 > buf.Length {
      return Broken;
    }
    var flags, packetId;
    flags, cur := ReadChar(buf, cur);
    packetId, cur := ReadInt(buf, cur);
    var filter := Unused;
    if flags % 4 == 0 {
      if !(cur <= len <= buf.Length) {
        return Broken;
      }
      filter := TopicName(buf[cur..len]);
    } else if flags % 4 != 3 {
      if cur + 2 > buf.Length {
        return Broken;
      }
      var id, next := ReadInt(buf, cur);
      filter := if flags % 4 == 1 then PredefinedId(id) else ShortName(buf[cur], buf[cur + 1]);
    }
    return Got(Subscribe(flags / 128 == 1, flags / 32 % 4, packetId, filter));
  }

  // ---- PUBACK ----

  function PubackBody(topicId: nat, packetId: nat, rc: byte): Bytes {
    [PUBACK] + IntBytes(topicId) + IntBytes(packetId) + [rc]
  }

  function EncodePuback(topicId: nat, packetId: nat, rc: byte): Bytes { Frame(PubackBody(topicId, packetId, rc)) }

  method SerializePuback(buf: array<byte>, buflen: int, topicId: nat, packetId: nat, rc: byte) returns (r: Serialized)
    requires buflen <= buf.Length
    modifies buf
    ensures if buflen < 7 then r == TooShort && buf[..] == old(buf[..])
            else r == Wrote(7) && buf[..] == Written(old(buf[..]), 0, EncodePuback(topicId, packetId, rc))
  {
    var len := PacketLen(6);
    if len > buflen {
      return TooShort;
    }
    ghost var was, done := buf[..], LengthField(len) + [PUBACK];
    var ptr := Begin(buf, len, [PUBACK]);
    ptr := WriteNextTwo(buf, 0, IntBytes(topicId), IntBytes(packetId), was, done, ptr);
    done := done + IntBytes(topicId) + IntBytes(packetId);
    ptr := WriteNext(buf, 0, [rc], was, done, ptr);
    assert done + [rc] == EncodePuback(topicId, packetId, rc);
    return Wrote(ptr);
  }
}
