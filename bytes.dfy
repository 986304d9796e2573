/**
 * Bytes and the little-endian integer fields of the query wire format.
 * Each `Take*` reader consumes a prefix of a byte string and returns the
 * decoded value with the unread rest, or `None` when too few bytes remain
 * (the point where the source's `unwrap()` on a cursor read would panic).
 */
module Bytes {
  import opened Wrappers

  type byte = x: int | 0 <= x < 0x100
  type Bytes = seq<byte>

  const U16_LIMIT: nat := 0x1_0000
  const U32_LIMIT: nat := 0x1_0000_0000
  const I32_MIN: int := -0x8000_0000
  const I32_MAX: int := 0x7FFF_FFFF

  predicate IsI32(v: int) {
    I32_MIN <= v <= I32_MAX
  }

  /** A value read from the front of a byte string, with what is left unread. */
  datatype Taken<+T> = Taken(value: T, rest: Bytes)

  /** `read_exact` of exactly `n` bytes. */
  function TakeBytes(s: Bytes, n: nat): (r: Option<Taken<Bytes>>)
    ensures r.Some? <==> n <= |s|
    ensures r.Some? ==> r.value.value == s[..n] && r.value.rest == s[n..]
  {
    if n <= |s| then Some(Taken(s[..n], s[n..])) else None
  }

  /** `read_u8` (and `read_i8`, whose only use is a test against zero). */
  function TakeU8(s: Bytes): (r: Option<Taken<byte>>)
    ensures r.Some? <==> 1 <= |s|
    ensures r.Some? ==> r.value.value == s[0] && r.value.rest == s[1..]
  {
    if 1 <= |s| then Some(Taken(s[0], s[1..])) else None
  }

  /** `read_u16::<LittleEndian>`. */
  function TakeU16(s: Bytes): (r: Option<Taken<nat>>)
    ensures r.Some? <==> 2 <= |s|
    ensures r.Some? ==> r.value.value < U16_LIMIT && r.value.rest == s[2..]
  {
    if 2 <= |s| then Some(Taken(s[0] as int + 0x100 * s[1] as int, s[2..])) else None
  }

  /** `read_u32::<LittleEndian>`. */
  function TakeU32(s: Bytes): (r: Option<Taken<nat>>)
    ensures r.Some? <==> 4 <= |s|
    ensures r.Some? ==> r.value.value < U32_LIMIT && r.value.rest == s[4..]
  {
    if 4 <= |s| then
      Some(Taken(s[0] as int + 0x100 * s[1] as int + 0x1_0000 * s[2] as int + 0x100_0000 * s[3] as int, s[4..]))
    else
      None
  }

  /** Two's-complement reading of a 32-bit pattern. */
  function AsI32(u: nat): (v: int)
    requires u < U32_LIMIT
    ensures IsI32(v) && (v < 0 <==> u >= 0x8000_0000)
  {
    if u < 0x8000_0000 then u else u - U32_LIMIT
  }

  /** `read_i32::<LittleEndian>`. */
  function TakeI32(s: Bytes): (r: Option<Taken<int>>)
    ensures r.Some? <==> 4 <= |s|
    ensures r.Some? ==> IsI32(r.value.value) && r.value.rest == s[4..]
  {
    var u :- TakeU32(s);
    Some(Taken(AsI32(u.value), u.rest))
  }

  function EncodeU16(n: nat): (b: Bytes)
    requires n < U16_LIMIT
    ensures |b| == 2
  {
    [n % 0x100, n / 0x100]
  }

  function EncodeU32(n: nat): (b: Bytes)
    requires n < U32_LIMIT
    ensures |b| == 4
  {
    [n % 0x100, (n / 0x100) % 0x100, (n / 0x1_0000) % 0x100, n / 0x100_0000]
  }

  function EncodeI32(v: int): (b: Bytes)
    requires IsI32(v)
    ensures |b| == 4
  {
    EncodeU32(if v < 0 then v + U32_LIMIT else v)
  }

  /** Concatenation regrouped; stated once so larger proofs need not rediscover it. */
  lemma Associative(a: Bytes, b: Bytes, c: Bytes)
    ensures a + b + c == a + (b + c)
  {
  }

  lemma AppendEmpty(a: Bytes)
    ensures a + [] == a
  {
  }

  /** Cutting `a + b` at `k` and then dropping `a` is cutting `b`. */
  lemma DropTake(a: Bytes, b: Bytes, k: nat)
    requires |a| <= k <= |a| + |b|
    ensures (a + b)[..k][|a|..] == b[..k - |a|]
  {
  }

  lemma TakeBytesRoundTrip(b: Bytes, tail: Bytes)
    ensures TakeBytes(b + tail, |b|) == Some(Taken(b, tail))
  {
    assert (b + tail)[..|b|] == b;
    assert (b + tail)[|b|..] == tail;
  }

  lemma U16RoundTrip(n: nat, tail: Bytes)
    requires n < U16_LIMIT
    ensures TakeU16(EncodeU16(n) + tail) == Some(Taken(n, tail))
  {
    assert (EncodeU16(n) + tail)[2..] == tail;
  }

  lemma U32RoundTrip(n: nat, tail: Bytes)
    requires n < U32_LIMIT
    ensures TakeU32(EncodeU32(n) + tail) == Some(Taken(n, tail))
  {
    var s := EncodeU32(n) + tail;
    assert s[4..] == tail;
    var q1, q2 := n / 0x100, n / 0x1_0000;
    assert q1 == (n / 0x100);
    assert q2 == q1 / 0x100;
    assert n / 0x100_0000 == q2 / 0x100;
    assert n == n % 0x100 + 0x100 * q1;
    assert q1 == q1 % 0x100 + 0x100 * q2;
    assert q2 == q2 % 0x100 + 0x100 * (q2 / 0x100);
  }

  lemma I32RoundTrip(v: int, tail: Bytes)
    requires IsI32(v)
    ensures TakeI32(EncodeI32(v) + tail) == Some(Taken(v, tail))
  {
    U32RoundTrip(if v < 0 then v + U32_LIMIT else v, tail);
  }

  /** Every two bytes are the encoding of the u16 they are read as. */
  lemma U16Inverse(s: Bytes) returns (n: nat, rest: Bytes)
    requires 2 <= |s|
    ensures n < U16_LIMIT && s == EncodeU16(n) + rest && TakeU16(s) == Some(Taken(n, rest))
  {
    n, rest := s[0] as int + 0x100 * s[1] as int, s[2..];
    assert n % 0x100 == s[0] && n / 0x100 == s[1];
    assert s[..2] == EncodeU16(n);
    assert s == s[..2] + s[2..];
  }

  /** Every four bytes are the encoding of the u32 they are read as. */
  lemma U32Inverse(s: Bytes) returns (n: nat, rest: Bytes)
    requires 4 <= |s|
    ensures n < U32_LIMIT && s == EncodeU32(n) + rest && TakeU32(s) == Some(Taken(n, rest))
  {
    var b0, b1, b2, b3 := s[0] as int, s[1] as int, s[2] as int, s[3] as int;
    rest := s[4..];
    n := b0 + 0x100 * b1 + 0x1_0000 * b2 + 0x100_0000 * b3;
    var q1 := b1 + 0x100 * b2 + 0x1_0000 * b3;
    var q2 := b2 + 0x100 * b3;
    assert n == b0 + 0x100 * q1;
    assert n % 0x100 == b0 && n / 0x100 == q1;
    assert q1 % 0x100 == b1 && q1 / 0x100 == q2;
    assert n / 0x1_0000 == q2;
    assert q2 % 0x100 == b2 && q2 / 0x100 == b3;
    assert n / 0x100_0000 == b3;
    assert s[..4] == EncodeU32(n);
    assert s == s[..4] + s[4..];
  }
}
