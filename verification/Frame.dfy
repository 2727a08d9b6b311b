/** The frame checksum (crates/protocol/src/frame.rs) and the encrypted message body
    (crates/protocol/src/xtea.rs): the whole transport stack, sealed and opened. */
module Frame {
  import opened World
  import opened Wire
  import opened Xtea
  import opened Adler

  const CHECKSUM_LEN: nat := 4

  datatype FrameError = TooShort(len: nat) | ChecksumMismatch(expected: uint32, actual: uint32)

  datatype MessageError = NotPadded(len: nat) | BadInnerLength(inner: nat, body: nat)

  datatype Result<+T, +E> = Ok(value: T) | Err(error: E)

  // ---------------------------------------------------------------------
  // The checksum
  // ---------------------------------------------------------------------

  function Framed(payload: Bytes): Bytes {
    Le32(Checksum(payload)) + payload
  }

  method Checksummed(payload: Bytes) returns (out: Bytes)
    ensures out == Framed(payload)
  {
    var c := Adler32(payload);
    return Le32(c) + payload;
  }

  function Header(inner: Bytes): uint32
    requires |inner| >= CHECKSUM_LEN
  {
    inner[0] as int + 0x100 * inner[1] as int + 0x1_0000 * inner[2] as int + 0x100_0000 * inner[3] as int
  }

  function Verified(inner: Bytes): Result<Bytes, FrameError> {
    if |inner| < CHECKSUM_LEN then Err(TooShort(|inner|))
    else
      var expected, actual := Header(inner), Checksum(inner[CHECKSUM_LEN..]);
      if expected != actual then Err(ChecksumMismatch(expected, actual)) else Ok(inner[CHECKSUM_LEN..])
  }

  method Verify(inner: Bytes) returns (r: Result<Bytes, FrameError>)
    ensures r == Verified(inner)
  {
    if |inner| < CHECKSUM_LEN {
      return Err(TooShort(|inner|));
    }
    var expected := Header(inner);
    var payload := inner[CHECKSUM_LEN..];
    var actual := Adler32(payload);
    if expected != actual {
      return Err(ChecksumMismatch(expected, actual));
    }
    return Ok(payload);
  }

  /** A frame verifies exactly when it is the framing of its payload. */
  lemma VerifiesIffFramed(inner: Bytes, payload: Bytes)
    ensures Verified(inner) == Ok(payload) <==> inner == Framed(payload)
  {
    hide Checksum, Le32;
    if |inner| >= CHECKSUM_LEN {
      BytesOfWord(inner[0], inner[1], inner[2], inner[3]);
      assert inner[..CHECKSUM_LEN] == Le32(Header(inner));
      assert inner == inner[..CHECKSUM_LEN] + inner[CHECKSUM_LEN..];
    }
    if inner == Framed(payload) {
      assert inner[..CHECKSUM_LEN] == Le32(Checksum(payload)) && inner[CHECKSUM_LEN..] == payload;
      ReadU32Back(Checksum(payload), payload);
    }
  }

  /** Changing any one byte of a frame that verifies, in its header or its payload, makes it fail. */
  lemma OneByteRejected(inner: Bytes, i: nat, x: uint8)
    requires Verified(inner).Ok? && i < |inner| && x != inner[i]
    ensures Verified(inner[i := x]).Err?
  {
    hide Checksum, Le32;
    var payload, tampered := inner[CHECKSUM_LEN..], inner[i := x];
    VerifiesIffFramed(inner, payload);
    VerifiesIffFramed(tampered, tampered[CHECKSUM_LEN..]);
    if i < CHECKSUM_LEN {
      assert tampered[CHECKSUM_LEN..] == payload;
      assert tampered[i] != inner[i];
    } else {
      assert tampered[CHECKSUM_LEN..] == payload[i - CHECKSUM_LEN := x];
      OneByteDetected(payload, i - CHECKSUM_LEN, x);
      assert Header(tampered) == Header(inner);
    }
  }

  /** Overwriting two payload bytes of a frame that verifies goes unnoticed exactly when nothing changed, or
      when opposite changes lie a multiple of 65521 bytes apart. */
  lemma TwoBytesRejected(inner: Bytes, i: nat, j: nat, x: uint8, y: uint8)
    requires Verified(inner).Ok? && CHECKSUM_LEN <= i < j < |inner|
    ensures Verified(inner[i := x][j := y]).Ok?
       <==> || (x == inner[i] && y == inner[j])
            || (x as int - inner[i] as int == inner[j] as int - y as int && (j - i) % MOD_ADLER == 0)
  {
    hide Checksum;
    var payload, tampered := inner[CHECKSUM_LEN..], inner[i := x][j := y];
    assert tampered[CHECKSUM_LEN..] == payload[i - CHECKSUM_LEN := x][j - CHECKSUM_LEN := y];
    assert Header(tampered) == Header(inner);
    TwoBytesDetected(payload, i - CHECKSUM_LEN, j - CHECKSUM_LEN, x, y);
  }

  /** In particular, swapping two different neighbouring payload bytes makes it fail. */
  lemma AdjacentSwapRejected(inner: Bytes, i: nat)
    requires Verified(inner).Ok? && CHECKSUM_LEN <= i && i + 1 < |inner| && inner[i] != inner[i + 1]
    ensures Verified(inner[i := inner[i + 1]][i + 1 := inner[i]]).Err?
  {
    hide Checksum, Header;
    TwoBytesRejected(inner, i, i + 1, inner[i + 1], inner[i]);
  }

  // ---------------------------------------------------------------------
  // The message body
  // ---------------------------------------------------------------------

  function Zeros(n: nat): (z: Bytes)
    ensures |z| == n
  {
    seq(n, _ => 0)
  }

  /** The low 16 bits of the length, the payload, and zeros up to a multiple of eight. */
  function Padded(payload: Bytes): Bytes {
    var buf := Le16(|payload| % 0x1_0000) + payload;
    buf + Zeros((8 - |buf| % 8) % 8)
  }

  function EncryptedMessage(payload: Bytes, keys: RoundKeys): Bytes {
    EncryptedBytes(Padded(payload), keys)
  }

  method ToArray(s: Bytes) returns (a: array<uint8>)
    ensures fresh(a) && a[..] == s
  {
    a := new uint8[|s|](i requires 0 <= i < |s| => s[i]);
    assert a[..] == s;
  }

  method EncryptMessage(payload: Bytes, keys: RoundKeys) returns (body: Bytes)
    ensures body == EncryptedMessage(payload, keys)
  {
    var buf: Bytes := Le16(|payload| % 0x1_0000);
    buf := buf + payload;
    var padding := (8 - |buf| % 8) % 8;
    buf := buf + Zeros(padding);
    var a := ToArray(buf);
    Encrypt(a, keys);
    return a[..];
  }

  function DecryptedMessage(body: Bytes, keys: RoundKeys): Result<Bytes, MessageError> {
    if body == [] || |body| % 8 != 0 then Err(NotPadded(|body|))
    else
      var buf := DecryptedBytes(body, keys);
      var inner := buf[0] as int + 0x100 * buf[1] as int;
      if 2 + inner > |buf| then Err(BadInnerLength(inner, |buf| - 2)) else Ok(buf[2..2 + inner])
  }

  /** `decrypt_message`: total on every body; it never reads outside the decrypted bytes. */
  method DecryptMessage(body: Bytes, keys: RoundKeys) returns (r: Result<Bytes, MessageError>)
    ensures r == DecryptedMessage(body, keys)
  {
    hide DecryptedBytes;
    if body == [] || |body| % 8 != 0 {
      return Err(NotPadded(|body|));
    }
    var a := ToArray(body);
    Decrypt(a, keys);
    var inner := a[0] as int + 0x100 * a[1] as int;
    if 2 + inner > a.Length {
      return Err(BadInnerLength(inner, a.Length - 2));
    }
    return Ok(a[2..2 + inner]);
  }

  /** The padded form is the fewest whole blocks that hold the length and the payload; what is left over is zero. */
  lemma PaddedLength(payload: Bytes)
    ensures |Padded(payload)| % 8 == 0 && |payload| + 2 <= |Padded(payload)| <= |payload| + 9
    ensures forall i :: |payload| + 2 <= i < |Padded(payload)| ==> Padded(payload)[i] == 0
  {
    hide Le16;
    FillsUp(|payload| + 2);
  }

  lemma FillsUp(n: nat)
    ensures 0 <= (8 - n % 8) % 8 <= 7 && (n + (8 - n % 8) % 8) % 8 == 0
  {
  }

  /** The part of a payload that its 16-bit length covers. */
  function Covered(payload: Bytes): (r: Bytes)
    ensures r <= payload && |r| == |payload| % 0x1_0000
  {
    payload[..|payload| % 0x1_0000]
  }

  /** Whatever the payload, decryption gives back its first `|payload| mod 65536` bytes. */
  lemma MessageRoundTrip(payload: Bytes, keys: RoundKeys)
    ensures DecryptedMessage(EncryptedMessage(payload, keys), keys) == Ok(Covered(payload))
    ensures |EncryptedMessage(payload, keys)| % 8 == 0 && EncryptedMessage(payload, keys) != []
  {
    hide EncryptedBytes, DecryptedBytes, Padded;
    var buf := Padded(payload);
    PaddedLength(payload);
    PaddedParts(payload);
    DecryptUndoesEncrypt(buf, keys);
    assert buf[2..2 + |Covered(payload)|] == Covered(payload);
  }

  lemma PaddedParts(payload: Bytes)
    ensures |Padded(payload)| >= |payload| + 2
    ensures Padded(payload)[0] as int + 0x100 * Padded(payload)[1] as int == |Covered(payload)|
    ensures Padded(payload)[2..2 + |payload|] == payload
  {
    var len: uint16 := |payload| % 0x1_0000;
    assert Padded(payload)[..2] == Le16(len);
  }

  /** The message survives exactly when its length fits the 16-bit length field. */
  lemma MessageSurvives(payload: Bytes, keys: RoundKeys)
    ensures DecryptedMessage(EncryptedMessage(payload, keys), keys) == Ok(payload) <==> |payload| < 0x1_0000
  {
    hide EncryptedMessage, DecryptedMessage;
    MessageRoundTrip(payload, keys);
    if |payload| < 0x1_0000 {
      assert Covered(payload) == payload[..|payload|] == payload;
    }
  }

  // ---------------------------------------------------------------------
  // The whole stack
  // ---------------------------------------------------------------------

  function Sealed(payload: Bytes, keys: RoundKeys): Bytes {
    Framed(EncryptedMessage(payload, keys))
  }

  /** Encrypting, framing, verifying and decrypting compose to the identity for every key and every payload
      of at most 65535 bytes. */
  lemma StackRoundTrip(payload: Bytes, keys: RoundKeys)
    requires |payload| < 0x1_0000
    ensures var v := Verified(Sealed(payload, keys));
            v.Ok? && DecryptedMessage(v.value, keys) == Ok(payload)
  {
    hide Framed, EncryptedMessage, DecryptedMessage, Verified;
    VerifiesIffFramed(Sealed(payload, keys), EncryptedMessage(payload, keys));
    MessageSurvives(payload, keys);
  }

  /** No one-byte change to a sealed frame, of any length, gets past verification. */
  lemma TamperedStackRejected(payload: Bytes, keys: RoundKeys, i: nat, x: uint8)
    ensures i < |Sealed(payload, keys)| && x != Sealed(payload, keys)[i]
        ==> Verified(Sealed(payload, keys)[i := x]).Err?
  {
    hide Framed, EncryptedMessage, Verified;
    VerifiesIffFramed(Sealed(payload, keys), EncryptedMessage(payload, keys));
    if i < |Sealed(payload, keys)| && x != Sealed(payload, keys)[i] {
      OneByteRejected(Sealed(payload, keys), i, x);
    }
  }
}
