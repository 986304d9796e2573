/**
 * `std::io::Cursor<Vec<u8>>` as the decoders use it: a fixed byte buffer and
 * a read position that each successful read moves forward. A failed read is
 * reported as `None`; the decoders stop at the first one.
 */
module Cursors {
  import opened Wrappers
  import opened Bytes

  class Cursor {
    const data: Bytes
    var pos: nat

    ghost predicate Valid()
      reads this
    {
      pos <= |data|
    }

    /** The bytes not read yet. */
    function Rest(): Bytes
      reads this
      requires Valid()
    {
      data[pos..]
    }

    /** `Buf::remaining`: how many bytes are left to read. */
    function Remaining(): (n: nat)
      reads this
      requires Valid()
      ensures n == |Rest()|
    {
      |data| - pos
    }

    constructor (data: Bytes)
      ensures Valid() && this.data == data && Rest() == data
    {
      this.data := data;
      pos := 0;
    }

    /** `read_exact` into a buffer of `n` bytes. */
    method ReadExact(n: nat) returns (r: Option<Bytes>)
      requires Valid()
      modifies this
      ensures Valid()
      ensures match TakeBytes(old(Rest()), n)
              case None => r.None?
              case Some(t) => r == Some(t.value) && Rest() == t.rest
    {
      if n <= |data| - pos {
        assert data[pos..][..n] == data[pos..pos + n];
        assert data[pos..][n..] == data[pos + n..];
        r := Some(data[pos..pos + n]);
        pos := pos + n;
      } else {
        r := None;
      }
    }

    /** `read_u8`; also serves `read_i8`, whose value is only compared with zero. */
    method ReadU8() returns (r: Option<byte>)
      requires Valid()
      modifies this
      ensures Valid()
      ensures match TakeU8(old(Rest()))
              case None => r.None?
              case Some(t) => r == Some(t.value) && Rest() == t.rest
    {
      var b := ReadExact(1);
      if b.None? {
        return None;
      }
      r := Some(b.value[0]);
    }

    method ReadU16Le() returns (r: Option<nat>)
      requires Valid()
      modifies this
      ensures Valid()
      ensures match TakeU16(old(Rest()))
              case None => r.None?
              case Some(t) => r == Some(t.value) && Rest() == t.rest
    {
      var b := ReadExact(2);
      if b.None? {
        return None;
      }
      r := Some(b.value[0] as int + 0x100 * b.value[1] as int);
    }

    method ReadU32Le() returns (r: Option<nat>)
      requires Valid()
      modifies this
      ensures Valid()
      ensures match TakeU32(old(Rest()))
              case None => r.None?
              case Some(t) => r == Some(t.value) && Rest() == t.rest
    {
      var b := ReadExact(4);
      if b.None? {
        return None;
      }
      var v := b.value;
      r := Some(v[0] as int + 0x100 * v[1] as int + 0x1_0000 * v[2] as int + 0x100_0000 * v[3] as int);
    }

    method ReadI32Le() returns (r: Option<int>)
      requires Valid()
      modifies this
      ensures Valid()
      ensures match TakeI32(old(Rest()))
              case None => r.None?
              case Some(t) => r == Some(t.value) && Rest() == t.rest
    {
      var u := ReadU32Le();
      if u.None? {
        return None;
      }
      r := Some(AsI32(u.value));
    }
  }
}
