/** Little-endian message building and reading (crates/protocol/src/message.rs). */
module Wire {
  import opened World

  type Bytes = seq<uint8>

  function Le16(v: uint16): (b: Bytes)
    ensures |b| == 2
  {
    [v % 0x100, v / 0x100]
  }

  function Le32(v: uint32): (b: Bytes)
    ensures |b| == 4
  {
    [v % 0x100, v / 0x100 % 0x100, v / 0x1_0000 % 0x100, v / 0x100_0000]
  }

  /** A value read from the front of a buffer, with the bytes after it; `Short` at the end of the buffer. */
  datatype Read<+T> = Short | Got(value: T, rest: Bytes) {
    predicate IsFailure() {
      Short?
    }

    function PropagateFailure<U>(): Read<U>
      requires Short?
    {
      Short
    }

    function Extract(): (T, Bytes)
      requires Got?
    {
      (value, rest)
    }
  }

  function ReadU8(b: Bytes): Read<uint8> {
    if |b| < 1 then Short else Got(b[0], b[1..])
  }

  function ReadU16(b: Bytes): Read<uint16> {
    if |b| < 2 then Short else Got(b[0] as int + 0x100 * b[1] as int, b[2..])
  }

  function ReadU32(b: Bytes): Read<uint32> {
    if |b| < 4 then Short
    else Got(b[0] as int + 0x100 * b[1] as int + 0x1_0000 * b[2] as int + 0x100_0000 * b[3] as int, b[4..])
  }

  function ReadBytes(b: Bytes, n: nat): Read<Bytes> {
    if |b| < n then Short else Got(b[..n], b[n..])
  }

  lemma ReadU8Back(v: uint8, rest: Bytes)
    ensures ReadU8([v] + rest) == Got(v, rest)
  {
  }

  lemma ReadU16Back(v: uint16, rest: Bytes)
    ensures ReadU16(Le16(v) + rest) == Got(v, rest)
  {
  }

  lemma ReadU32Back(v: uint32, rest: Bytes)
    ensures ReadU32(Le32(v) + rest) == Got(v, rest)
  {
    var q := v / 0x100;
    assert v / 0x1_0000 == q / 0x100 && v / 0x100_0000 == q / 0x100 / 0x100;
  }

  lemma ReadBytesBack(s: Bytes, rest: Bytes)
    ensures ReadBytes(s + rest, |s|) == Got(s, rest)
  {
  }

  /** `MessageWriter`: a growable message buffer. */
  class MessageWriter {
    var buf: Bytes

    constructor ()
      ensures buf == []
    {
      buf := [];
    }

    method WriteU8(v: uint8)
      modifies this
      ensures buf == old(buf) + [v]
    {
      buf := buf + [v];
    }

    method WriteU16(v: uint16)
      modifies this
      ensures buf == old(buf) + Le16(v)
    {
      buf := buf + Le16(v);
    }

    method WriteU32(v: uint32)
      modifies this
      ensures buf == old(buf) + Le32(v)
    {
      buf := buf + Le32(v);
    }

    /** A string carries the low 16 bits of its length in front. */
    method WriteString(s: Bytes)
      modifies this
      ensures buf == old(buf) + (Le16(|s| % 0x1_0000) + s)
    {
      WriteU16(|s| % 0x1_0000);
      buf := buf + s;
    }

    method WriteBytes(s: Bytes)
      modifies this
      ensures buf == old(buf) + s
    {
      buf := buf + s;
    }
  }
}
