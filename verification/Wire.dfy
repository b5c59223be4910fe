/** Bytes and the 16-bit integers both protocols send, most significant byte first. */
module Wire {
  type byte = b: nat | b < 256
  type u16 = n: nat | n < 65536

  type Bytes = seq<byte>

  function Bit(b: bool): nat { if b then 1 else 0 }

  /** The size of the buffers the gateway builds and receives packets in. */
  const MAX_PACKET_SIZE := 1024

  /** What a writer does to a buffer: nothing when it is told that it is too short, or it writes
      past its end, or it writes so many bytes. */
  datatype Serialized = TooShort | Overrun | Wrote(n: nat)

  /** What a reader makes of a buffer: it gives up, or it reads outside the buffer or comes out
      with a negative length, or it returns a packet. */
  datatype Decoded<T> = Refused | Broken | Got(value: T)

  /** The bytes between two places, if they are all there. */
  function Between(buf: Bytes, from: nat, to: nat): Decoded<Bytes> {
    if from <= to <= |buf| then Got(buf[from..to]) else Broken
  }

  /** The two bytes written for an integer; what does not fit in 16 bits is cut off. */
  function IntBytes(n: nat): (r: Bytes)
    ensures |r| == 2
  {
    [(n / 256) % 256, n % 256]
  }

  function IntAt(s: Bytes, i: nat): u16
    requires i + 2 <= |s|
  {
    256 * (s[i] as int) + s[i + 1] as int
  }

  lemma IntRoundTrip(n: nat, s: Bytes, i: nat)
    requires i + 2 <= |s| && s[i..i + 2] == IntBytes(n)
    ensures IntAt(s, i) == n % 65536
  {
    assert s[i] == s[i..i + 2][0] && s[i + 1] == s[i..i + 2][1];
  }

  /** What the array holds after `s` was written at `at`. */
  function Written(a: Bytes, at: nat, s: Bytes): (r: Bytes)
    requires at + |s| <= |a|
  {
    a[..at] + s + a[at + |s|..]
  }

  lemma WrittenTwice(a: Bytes, at: nat, s: Bytes, t: Bytes)
    requires at + |s| + |t| <= |a|
    ensures Written(Written(a, at, s), at + |s|, t) == Written(a, at, s + t)
  {
  }

  method WriteChar(buf: array<byte>, ptr: nat, c: byte) returns (next: nat)
    requires ptr < buf.Length
    modifies buf
    ensures next == ptr + 1 && buf[..] == Written(old(buf[..]), ptr, [c])
  {
    buf[ptr] := c;
    return ptr + 1;
  }

  method WriteInt(buf: array<byte>, ptr: nat, n: nat) returns (next: nat)
    requires ptr + 2 <= buf.Length
    modifies buf
    ensures next == ptr + 2 && buf[..] == Written(old(buf[..]), ptr, IntBytes(n))
  {
    buf[ptr] := (n / 256) % 256;
    buf[ptr + 1] := n % 256;
    return ptr + 2;
  }

  /** memcpy into the buffer. */
  method WriteBytes(buf: array<byte>, ptr: nat, s: Bytes) returns (next: nat)
    requires ptr + |s| <= buf.Length
    modifies buf
    ensures next == ptr + |s| && buf[..] == Written(old(buf[..]), ptr, s)
  {
    var i := 0;
    while i < |s|
      invariant i <= |s| && buf[..] == Written(old(buf[..]), ptr, s[..i])
    {
      buf[ptr + i] := s[i];
      assert s[..i + 1] == s[..i] + [s[i]];
      i := i + 1;
    }
    assert s[..|s|] == s;
    return ptr + |s|;
  }

  /** Continues behind what has been written from `at` on. */
  method WriteNext(buf: array<byte>, at: nat, s: Bytes, ghost was: Bytes, ghost done: Bytes, ptr: nat)
    returns (next: nat)
    requires |was| == buf.Length && at + |done| + |s| <= buf.Length
    requires ptr == at + |done| && buf[..] == Written(was, at, done)
    modifies buf
    ensures next == at + |done + s| && buf[..] == Written(was, at, done + s)
  {
    WrittenTwice(was, at, done, s);
    next := WriteBytes(buf, ptr, s);
  }

  method WriteNextTwo(buf: array<byte>, at: nat, s: Bytes, t: Bytes, ghost was: Bytes, ghost done: Bytes, ptr: nat)
    returns (next: nat)
    requires |was| == buf.Length && at + |done| + |s| + |t| <= buf.Length
    requires ptr == at + |done| && buf[..] == Written(was, at, done)
    modifies buf
    ensures next == at + |done + s + t| && buf[..] == Written(was, at, done + s + t)
  {
    next := WriteNext(buf, at, s, was, done, ptr);
    next := WriteNext(buf, at, t, was, done + s, next);
  }

  method ReadInt(buf: array<byte>, ptr: nat) returns (n: u16, next: nat)
    requires ptr + 2 <= buf.Length
    ensures n == IntAt(buf[..], ptr) && next == ptr + 2
  {
    return 256 * (buf[ptr] as int) + buf[ptr + 1] as int, ptr + 2;
  }

  method ReadChar(buf: array<byte>, ptr: nat) returns (c: byte, next: nat)
    requires ptr < buf.Length
    ensures c == buf[ptr] && next == ptr + 1
  {
    return buf[ptr], ptr + 1;
  }
}
