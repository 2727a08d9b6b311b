/** The little-endian cursor over a node's property bytes (crates/formats/src/props.rs). */
module Props {
  import opened World
  import opened Wire
  import opened NodeTree

  class PropReader {
    const data: Bytes
    var pos: nat

    ghost predicate Valid()
      reads this
    {
      pos <= |data|
    }

    /** The bytes not yet consumed. */
    ghost function Rest(): Bytes
      reads this
      requires Valid()
    {
      data[pos..]
    }

    constructor (data: Bytes)
      ensures Valid() && Rest() == data && this.data == data
    {
      this.data := data;
      pos := 0;
    }

    /** `take`: the next `n` bytes, or an error that consumes nothing. */
    method Take(n: nat) returns (r: Result<Bytes>)
      requires Valid()
      modifies this
      ensures Valid()
      ensures n <= |old(Rest())| ==> r == Ok(old(Rest())[..n]) && Rest() == old(Rest())[n..]
      ensures n > |old(Rest())| ==> r == Err(UnexpectedEof) && pos == old(pos)
    {
      var end := pos + n;
      if end > |data| {
        return Err(UnexpectedEof);
      }
      assert data[pos..end] == Rest()[..n];
      r := Ok(data[pos..end]);
      pos := end;
    }

    method TakeU8() returns (r: Result<uint8>)
      requires Valid()
      modifies this
      ensures Valid()
      ensures match ReadU8(old(Rest()))
              case Short => r == Err(UnexpectedEof) && pos == old(pos)
              case Got(v, rest) => r == Ok(v) && Rest() == rest
    {
      if pos >= |data| {
        return Err(UnexpectedEof);
      }
      r := Ok(data[pos]);
      pos := pos + 1;
    }

    method TakeU16() returns (r: Result<uint16>)
      requires Valid()
      modifies this
      ensures Valid()
      ensures match ReadU16(old(Rest()))
              case Short => r == Err(UnexpectedEof) && pos == old(pos)
              case Got(v, rest) => r == Ok(v) && Rest() == rest
    {
      var b := Take(2);
      match b
      case Err(e) => return Err(e);
      case Ok(v) => return Ok(v[0] as int + 0x100 * v[1] as int);
    }

    method TakeU32() returns (r: Result<uint32>)
      requires Valid()
      modifies this
      ensures Valid()
      ensures match ReadU32(old(Rest()))
              case Short => r == Err(UnexpectedEof) && pos == old(pos)
              case Got(v, rest) => r == Ok(v) && Rest() == rest
    {
      var b := Take(4);
      match b
      case Err(e) => return Err(e);
      case Ok(v) => return Ok(v[0] as int + 0x100 * v[1] as int + 0x1_0000 * v[2] as int + 0x100_0000 * v[3] as int);
    }

    /** A `u16` length and that many bytes. */
    method TakeString() returns (r: Result<Bytes>)
      requires Valid()
      modifies this
      ensures Valid()
      ensures match ReadString(old(Rest()))
              case Short => r == Err(UnexpectedEof) && pos == old(pos) + if |old(Rest())| < 2 then 0 else 2
              case Got(v, rest) => r == Ok(v) && Rest() == rest
    {
      var len := TakeU16();
      match len
      case Err(e) => return Err(e);
      case Ok(n) => r := Take(n);
    }
  }

  function ReadString(b: Bytes): Read<Bytes> {
    var (len, b) :- ReadU16(b);
    ReadBytes(b, len)
  }
}
