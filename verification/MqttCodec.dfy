/** MQTT packets as bytes: the Remaining Length and PUBLISH (sections 2.2.3 and 3.3 of MQTT 3.1.1). */
module MqttCodec {
  import opened SortedMap
  import opened Wire

  const PUBLISH := 3
  const MAX_NO_OF_REMAINING_LENGTH_BYTES := 3
  /** 128 to the third: the first length that takes more bytes than the receiver reads. */
  const TOO_LONG := 0x20_0000

  // ---- the Remaining Length ----

  /** Seven bits a byte, least significant first; the top bit says that more follow. */
  function LengthBytes(n: nat): (r: Bytes)
    ensures |r| >= 1
  {
    if n < 128 then [n] else [n % 128 + 128] + LengthBytes(n / 128)
  }

  /** The digit the loop writes when `n` is left to encode. */
  function Digit(n: nat): byte { if n / 128 > 0 then n % 128 + 128 else n % 128 }

  function Left(n: nat): Bytes { if n / 128 > 0 then LengthBytes(n / 128) else [] }

  lemma LengthStep(n: nat, done: Bytes)
    ensures done + LengthBytes(n) == (done + [Digit(n)]) + Left(n)
  {
    assert LengthBytes(n) == [Digit(n)] + Left(n);
  }

  /** Writes a Remaining Length; returns how many bytes it takes. */
  method EncodeLength(buf: array<byte>, at: nat, length: nat) returns (rc: nat)
    requires at + |LengthBytes(length)| <= buf.Length
    modifies buf
    ensures rc == |LengthBytes(length)|
    ensures buf[..] == Written(old(buf[..]), at, LengthBytes(length))
  {
    rc := 0;
    var rest := length;
    ghost var done: Bytes, left := [], LengthBytes(length);
    ghost var was := buf[..];
    var more := true;
    while more
      invariant rc == |done| && at + rc + |left| <= buf.Length
      invariant buf[..] == Written(was, at, done)
      invariant LengthBytes(length) == done + left
      invariant left == if more then LengthBytes(rest) else []
      decreases rest, more
    {
      LengthStep(rest, done);
      left := Left(rest);
      var d := Digit(rest);
      rest := rest / 128;
      more := rest > 0;
      var next := WriteNext(buf, at, [d], was, done, at + rc);
      rc := rc + 1;
      done := done + [d];
    }
  }

  datatype Received<T> =
    | Ok(value: T, used: nat)
    | Error(code: int)

  /** What the connection does when the bytes are used up: the broker has closed it, and `recv` gives
      0, or it fails, and `recv` gives -1. */
  datatype End = Closed | Failed

  function Power128(k: nat): nat { if k == 0 then 1 else 128 * Power128(k - 1) }

  /** The loop of `recv` after `len` length bytes, on what the connection still delivers. Of a closed
      connection the loop is not aware: it takes `c`, the byte before, once more. */
  function ReadLength(s: Bytes, end: End, c: byte, len: nat, sum: nat): (r: Received<nat>)
    ensures r.Ok? ==> len < r.used
    decreases MAX_NO_OF_REMAINING_LENGTH_BYTES - len
  {
    if len + 1 > MAX_NO_OF_REMAINING_LENGTH_BYTES then Error(-2)
    else if s == [] && end.Failed? then Error(-1)
    else
      var d := if s == [] then c else s[0];
      var total := sum + d % 128 * Power128(len);
      if d >= 128 then ReadLength(if s == [] then s else s[1..], end, d, len + 1, total) else Ok(total, len + 1)
  }

  method AddDigit(sum: nat, c: byte, multiplier: nat) returns (total: nat)
    ensures total == sum + c % 128 * multiplier
  {
    return sum + c % 128 * multiplier;
  }

  /** `stale` is what the variable for the byte holds before the first is read. */
  method ReceiveLength(s: Bytes, end: End, stale: byte) returns (r: Received<nat>)
    ensures r == ReadLength(s, end, stale, 0, 0)
  {
    var len: nat, multiplier: nat, remaining: nat, i: nat := 0, 1, 0, 0;
    var c := stale;
    var more := true;
    while more
      invariant i <= |s| && multiplier == Power128(len) && len <= MAX_NO_OF_REMAINING_LENGTH_BYTES
      invariant if more then ReadLength(s[i..], end, c, len, remaining) == ReadLength(s, end, stale, 0, 0)
                else ReadLength(s, end, stale, 0, 0) == Ok(remaining, len)
      decreases MAX_NO_OF_REMAINING_LENGTH_BYTES - len, more
    {
      if len + 1 > MAX_NO_OF_REMAINING_LENGTH_BYTES {
        return Error(-2);
      }
      if i >= |s| && end.Failed? {
        return Error(-1);
      }
      var d := if i < |s| then s[i] else c;
      ReadStep(s[i..], end, c, len, remaining, d);
      assert (if i < |s| then s[i..][1..] else s[i..]) == s[if i < |s| then i + 1 else i..];
      c, i := d, if i < |s| then i + 1 else i;
      remaining := AddDigit(remaining, c, multiplier);
      multiplier := multiplier * 128;
      len := len + 1;
      more := c >= 128;
    }
    return Ok(remaining, len);
  }

  /** One round of the loop. */
  lemma ReadStep(s: Bytes, end: End, c: byte, len: nat, sum: nat, d: byte)
    requires len < MAX_NO_OF_REMAINING_LENGTH_BYTES
    requires if s == [] then end.Closed? && d == c else d == s[0]
    ensures var total := sum + d % 128 * Power128(len);
            ReadLength(s, end, c, len, sum)
            == if d >= 128 then ReadLength(if s == [] then s else s[1..], end, d, len + 1, total)
               else Ok(total, len + 1)
  {
  }

  lemma QuotientBound(n: nat, k: nat)
    requires k >= 1
    ensures n / 128 < Power128(k - 1) <==> n < Power128(k)
  {
  }

  lemma DigitAndRest(n: nat, power: nat)
    ensures n % 128 * power + n / 128 * (128 * power) == n * power
  {
    assert n == n / 128 * 128 + n % 128;
  }

  /** Reading what was written, followed by anything, gives the length back and uses exactly its
      bytes if it takes at most three; a longer one is refused. */
  lemma {:induction false} LengthRoundTrip(n: nat, rest: Bytes, end: End, c: byte, len: nat, sum: nat)
    requires len <= 3
    ensures ReadLength(LengthBytes(n) + rest, end, c, len, sum) ==
            if len < 3 && n < Power128(3 - len) then Ok(sum + n * Power128(len), len + |LengthBytes(n)|) else Error(-2)
    decreases 3 - len
  {
    var s := LengthBytes(n) + rest;
    if len < 3 {
      ReadStep(s, end, c, len, sum, s[0]);
      if n < 128 {
        AtLeast128(3 - len);
      } else {
        assert s[1..] == LengthBytes(n / 128) + rest;
        LengthRoundTrip(n / 128, rest, end, s[0], len + 1, sum + n % 128 * Power128(len));
        DigitAndRest(n, Power128(len));
        QuotientBound(n, 3 - len);
      }
    }
  }

  lemma {:induction false} ReadBound(s: Bytes, end: End, c: byte, len: nat, sum: nat)
    requires len <= 3 && sum < Power128(len) && ReadLength(s, end, c, len, sum).Ok?
    ensures var r := ReadLength(s, end, c, len, sum); len < r.used <= 3 && r.value < Power128(r.used)
    decreases 3 - len
  {
    assert Power128(0) == 1 && Power128(1) == 128 && Power128(2) == 0x4000 && Power128(3) == TOO_LONG;
    var d := if s == [] then c else s[0];
    if d >= 128 {
      ReadBound(if s == [] then s else s[1..], end, d, len + 1, sum + d % 128 * Power128(len));
    }
  }

  lemma {:induction false} SizeIff(n: nat, k: nat)
    requires k >= 1
    ensures |LengthBytes(n)| <= k <==> n < Power128(k)
    decreases n
  {
    if n >= 128 && k >= 2 {
      SizeIff(n / 128, k - 1);
    } else {
      AtLeast128(k);
    }
  }

  lemma {:induction false} AtLeast128(k: nat)
    requires k >= 1
    ensures Power128(k) >= 128 && (k == 1 ==> Power128(k) == 128)
  {
    if k > 1 {
      AtLeast128(k - 1);
    }
  }

  /** No shorter sequence of bytes is read as the same length. */
  lemma LengthMinimal(s: Bytes, end: End, stale: byte)
    requires ReadLength(s, end, stale, 0, 0).Ok?
    ensures var r := ReadLength(s, end, stale, 0, 0); |LengthBytes(r.value)| <= r.used
  {
    ReadBound(s, end, stale, 0, 0);
    SizeIff(ReadLength(s, end, stale, 0, 0).value, ReadLength(s, end, stale, 0, 0).used);
  }

  // ---- PUBLISH ----

  datatype Publish = Publish(dup: bool, qos: nat, retain: bool, topic: Bytes, msgId: u16, payload: Bytes)

  function PublishHeader(p: Publish): byte {
    (Bit(p.retain) + 2 * p.qos + 8 * Bit(p.dup) + 16 * PUBLISH) % 256
  }

  function PublishData(p: Publish): Bytes {
    IntBytes(|p.topic|) + p.topic + (if p.qos > 0 then IntBytes(p.msgId) else []) + p.payload
  }

  function DecodePublish(header: byte, data: Bytes): Decoded<Publish> {
    if header / 16 != PUBLISH then Refused
    else if |data| < 2 then Broken
    else
      var qos := header / 2 % 4;
      var at := 2 + IntAt(data, 0);
      var from := if qos > 0 then at + 2 else at;
      if from > |data| then Broken
      else Got(Publish(header / 8 % 2 == 1, qos, header % 2 == 1, data[2..at],
                       if qos > 0 then IntAt(data, at) else 0, data[from..]))
  }

  lemma HeaderParts(retain: nat, qos: nat, dup: nat)
    requires retain < 2 && qos < 4 && dup < 2
    ensures var h := retain + 2 * qos + 8 * dup + 16 * PUBLISH;
            h < 256 && h % 2 == retain && h / 2 % 4 == qos && h / 8 % 2 == dup && h / 16 == PUBLISH
  {
    var h := retain + 2 * qos + 8 * dup + 16 * PUBLISH;
    assert h / 2 == qos + 4 * dup + 8 * PUBLISH && h / 8 == dup + 2 * PUBLISH;
  }

  lemma HeaderBack(p: Publish)
    requires p.qos < 4
    ensures var h := PublishHeader(p);
            h / 16 == PUBLISH && h / 2 % 4 == p.qos && (h / 8 % 2 == 1 <==> p.dup) && (h % 2 == 1 <==> p.retain)
  {
    var retain, dup := Bit(p.retain), Bit(p.dup);
    HeaderParts(retain, p.qos, dup);
    assert PublishHeader(p) == retain + 2 * p.qos + 8 * dup + 16 * PUBLISH;
  }

  lemma DataParts(p: Publish)
    ensures var data, at := PublishData(p), 2 + |p.topic|;
            && IntAt(data, 0) == |p.topic| % 65536 && data[2..at] == p.topic
            && (p.qos > 0 ==> at + 2 <= |data| && IntAt(data, at) == p.msgId && data[at + 2..] == p.payload)
            && (p.qos == 0 ==> data[at..] == p.payload)
  {
    var data, at := PublishData(p), 2 + |p.topic|;
    assert data[0..2] == IntBytes(|p.topic|);
    IntRoundTrip(|p.topic|, data, 0);
    if p.qos > 0 {
      assert data[at..at + 2] == IntBytes(p.msgId);
      IntRoundTrip(p.msgId, data, at);
    }
  }

  /** Reading the data of a PUBLISH gives everything back, but at QoS 0 the message id is 0,
      exactly when the topic's length fits in 16 bits. */
  lemma PublishRoundTrip(p: Publish)
    requires p.qos < 4
    ensures DecodePublish(PublishHeader(p), PublishData(p)) == Got(if p.qos > 0 then p else p.(msgId := 0))
            <==> |p.topic| < 65536
  {
    HeaderBack(p);
    DataParts(p);
    if |p.topic| >= 65536 {
      var data := PublishData(p);
      assert |data[2..2 + IntAt(data, 0)]| < |p.topic|;
    }
  }

  // ---- whole packets ----

  function PacketBytes(header: byte, data: Bytes): Bytes { [header] + LengthBytes(|data|) + data }

  /** The bytes of a packet that `send` flattens in its buffer; a longer packet overruns the buffer. */
  function Sent(header: byte, data: Bytes): Option<Bytes> {
    if |PacketBytes(header, data)| <= MAX_PACKET_SIZE then Some(PacketBytes(header, data)) else None
  }

  /** The buffer holds a packet exactly when its data has at most 1021 bytes. */
  lemma SentIff(header: byte, data: Bytes)
    ensures Sent(header, data).Some? <==> |data| <= 1021
  {
    assert Power128(0) == 1 && Power128(1) == 128 && Power128(2) == 0x4000;
    SizeIff(|data|, 1);
    SizeIff(|data|, 2);
  }

  /** How many bytes `Network::recv` is asked for: its length parameter has 16 bits. */
  function Asked(n: nat): nat { n % 0x1_0000 }

  /** What `recv` makes of the bytes that a connection delivers: header and data. One call of
      `Network::recv` delivers as much of what it is asked for as there is. */
  function Receive(s: Bytes, end: End, stale: byte): Received<(byte, Bytes)> {
    if s == [] then Error(if end.Closed? then 0 else -1)
    else match ReadLength(s[1..], end, stale, 0, 0)
      case Error(code) => Error(code)
      case Ok(n, used) =>
        var left := if 1 + used <= |s| then |s| - 1 - used else 0;
        if n == 0 then Ok((s[0], []), 1 + used)
        else if left == 0 && Asked(n) > 0 && end.Failed? then Error(-1)
        else if n != Asked(n) || n > left then Error(-2)
        else Ok((s[0], s[1 + used..1 + used + n]), 1 + used + n)
  }

  lemma LengthRead(header: byte, data: Bytes, rest: Bytes, end: End, stale: byte)
    ensures var s := PacketBytes(header, data) + rest;
            ReadLength(s[1..], end, stale, 0, 0)
            == if |data| < TOO_LONG then Ok(|data|, |LengthBytes(|data|)|) else Error(-2)
  {
    assert (PacketBytes(header, data) + rest)[1..] == LengthBytes(|data|) + (data + rest);
    assert Power128(0) == 1 && Power128(1) == 128 && Power128(2) == 0x4000 && Power128(3) == TOO_LONG;
    LengthRoundTrip(|data|, data + rest, end, stale, 0, 0);
  }

  /** A flattened packet is received as it was, whatever follows it, exactly when its length fits
      in 16 bits. */
  lemma PacketRoundTrip(header: byte, data: Bytes, rest: Bytes, end: End, stale: byte)
    ensures var s := PacketBytes(header, data) + rest;
            Receive(s, end, stale) == if |data| < 0x1_0000 then Ok((header, data), |PacketBytes(header, data)|)
                                      else Error(-2)
  {
    var s := PacketBytes(header, data) + rest;
    var n := |LengthBytes(|data|)|;
    LengthRead(header, data, rest, end, stale);
    assert s[1 + n..1 + n + |data|] == data;
  }

  /** When the broker closes the connection after the first byte, the loop takes what its variable
      happens to hold for a length: a packet is made up exactly when that is 0. */
  lemma MadeUpIff(header: byte, stale: byte)
    ensures Receive([header], Closed, stale) == if stale == 0 then Ok((header, []), 2) else Error(-2)
  {
    assert Power128(0) == 1;
    if stale >= 128 {
      NeverEnds(stale, 1, stale % 128);
    }
  }

  lemma {:induction false} NeverEnds(c: byte, len: nat, sum: nat)
    requires c >= 128 && len <= 3
    ensures ReadLength([], Closed, c, len, sum) == Error(-2)
    decreases 3 - len
  {
    if len < 3 {
      NeverEnds(c, len + 1, sum + c % 128 * Power128(len));
    }
  }

  class MQTTGWPacket {
    var header: byte
    var remainingLength: nat
    var data: array<byte>

    ghost predicate Valid()
      reads this
    {
      remainingLength <= data.Length
    }

    ghost function Data(): Bytes
      reads this, data
      requires Valid()
    {
      data[..remainingLength]
    }

    constructor ()
      ensures Valid() && header == 0 && remainingLength == 0 && fresh(data)
    {
      header, remainingLength := 0, 0;
      data := new byte[0];
    }

    method SetPublish(pub: Publish)
      modifies this
      ensures Valid() && fresh(data)
      ensures header == PublishHeader(pub) && Data() == PublishData(pub)
    {
      header := PublishHeader(pub);
      remainingLength := 4 + |pub.topic| + |pub.payload|;
      data := new byte[remainingLength](_ => 0);
      ghost var was := data[..];
      var ptr := WriteInt(data, 0, |pub.topic|);
      ptr := WriteNext(data, 0, pub.topic, was, IntBytes(|pub.topic|), ptr);
      ghost var done := IntBytes(|pub.topic|) + pub.topic;
      if pub.qos > 0 {
        ptr := WriteNext(data, 0, IntBytes(pub.msgId), was, done, ptr);
        done := done + IntBytes(pub.msgId);
      } else {
        remainingLength := remainingLength - 2;
        assert done + [] == done;
      }
      ptr := WriteNext(data, 0, pub.payload, was, done, ptr);
      assert done + pub.payload == PublishData(pub);
    }

    method GetPublish() returns (r: Decoded<Publish>)
      requires Valid()
      ensures r == DecodePublish(header, Data())
    {
      if header / 16 != PUBLISH {
        return Refused;
      }
      if remainingLength < 2 {
        return Broken;
      }
      var topicLen, ptr := ReadInt(data, 0);
      var qos := header / 2 % 4;
      ptr := ptr + topicLen;
      var msgId: u16, payloadLen: int := 0, 0;
      if qos > 0 {
        if ptr + 2 > remainingLength {
          return Broken;
        }
        payloadLen := remainingLength - topicLen - 4;
        msgId, ptr := ReadInt(data, ptr);
      } else {
        payloadLen := remainingLength - topicLen - 2;
        if payloadLen < 0 {
          return Broken;
        }
      }
      var packet := data[..remainingLength];
      var topic, payload := packet[2..2 + topicLen], packet[ptr..ptr + payloadLen];
      assert payload == packet[ptr..];
      return Got(Publish(header / 8 % 2 == 1, qos, header % 2 == 1, topic, msgId, payload));
    }

    /** Flattens the packet into the buffer. */
    method GetPacketData(buf: array<byte>) returns (r: Serialized)
      requires Valid() && buf != data
      modifies buf
      ensures if |PacketBytes(header, Data())| > buf.Length then r == Overrun
              else && r == Wrote(|PacketBytes(header, Data())|)
                   && buf[..] == Written(old(buf[..]), 0, PacketBytes(header, Data()))
    {
      if 1 + |LengthBytes(remainingLength)| + remainingLength > buf.Length {
        return Overrun;     // the source goes on writing
      }
      ghost var was := buf[..];
      var ptr := WriteChar(buf, 0, header);
      WrittenTwice(was, 0, [header], LengthBytes(remainingLength));
      var n := EncodeLength(buf, ptr, remainingLength);
      WrittenTwice(was, 0, [header] + LengthBytes(remainingLength), data[..remainingLength]);
      ptr := WriteBytes(buf, ptr + n, data[..remainingLength]);
      return Wrote(1 + n + remainingLength);
    }

    /** The bytes that go to the broker. */
    method Send() returns (r: Option<Bytes>)
      requires Valid()
      ensures r == Sent(header, Data())
    {
      var buf := new byte[MAX_PACKET_SIZE](_ => 0);
      var rc := GetPacketData(buf);
      if rc.Wrote? {
        assert buf[..rc.n] == buf[..][..rc.n] == PacketBytes(header, Data());
        return Some(buf[..rc.n]);
      }
      return None;
    }

    /** Reads a packet into a new object from a connection that delivers `s` and then ends; the size
        of the packet or an error. */
    method Recv(s: Bytes, end: End, stale: byte) returns (rc: int)
      requires remainingLength == 0
      modifies this
      ensures match Receive(s, end, stale)
              case Ok((h, d), used) => rc == used && Valid() && header == h && Data() == d
              case Error(code) => rc == code
    {
      if s == [] {
        return if end.Closed? then 0 else -1;
      }
      header := s[0];
      var r := ReceiveLength(s[1..], end, stale);
      match r
      case Error(code) => return code;
      case Ok(n, used) =>
        remainingLength := n;
        data := new byte[n](_ => 0);
        if n == 0 {
          return 1 + used;
        }
        var at := if 1 + used <= |s| then 1 + used else |s|;
        if at == |s| && Asked(n) > 0 && end.Failed? {
          return -1;
        }
        var got := if Asked(n) <= |s| - at then Asked(n) else |s| - at;
        var next := WriteBytes(data, 0, s[at..at + got]);
        if got != n {
          return -2;
        }
        return at + n;
    }
  }

  /** A PUBLISH flattened and received again, with anything behind it, reads as it was set: exactly
      when the length of its data fits in 16 bits. */
  lemma PublishOverTheWire(p: Publish, rest: Bytes, end: End, stale: byte)
    requires p.qos < 4
    ensures var r := Receive(PacketBytes(PublishHeader(p), PublishData(p)) + rest, end, stale);
            (r.Ok? && DecodePublish(r.value.0, r.value.1) == Got(if p.qos > 0 then p else p.(msgId := 0)))
            <==> |PublishData(p)| < 0x1_0000
  {
    PacketRoundTrip(PublishHeader(p), PublishData(p), rest, end, stale);
    PublishRoundTrip(p);
  }

  /** A payload of 70000 bytes: the gateway asks for 4469 bytes and gives up. */
  lemma LongPayloadRefused(payload: Bytes, rest: Bytes, end: End, stale: byte)
    requires |payload| == 70000
    ensures var p := Publish(false, 0, false, [97, 98, 99], 0, payload);
            && Asked(|PublishData(p)|) == 4469
            && Receive(PacketBytes(PublishHeader(p), PublishData(p)) + rest, end, stale) == Error(-2)
  {
    var p := Publish(false, 0, false, [97, 98, 99], 0, payload);
    assert |PublishData(p)| == 70005;
    PacketRoundTrip(PublishHeader(p), PublishData(p), rest, end, stale);
  }
}
