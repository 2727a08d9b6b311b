/** XTEA in place over 8-byte blocks (crates/protocol/src/xtea.rs). Words are the integers below 2^32,
    with every wrap-around written out. */
module Xtea {
  import opened World
  import opened Wire

  /** The two little-endian halves of a block. */
  type Block = (uint32, uint32)

  const DELTA: uint32 := 0x9E37_79B9
  const WRAP: int := 0x1_0000_0000
  const ROUNDS: nat := 64

  type Key = k: seq<uint32> | |k| == 4 witness [0, 0, 0, 0]
  type RoundKeys = k: seq<uint32> | |k| == ROUNDS witness seq(ROUNDS, _ => 0)

  // ---------------------------------------------------------------------
  // The cipher on one block
  // ---------------------------------------------------------------------

  function Plus(a: uint32, b: uint32): uint32 {
    (a + b) % WRAP
  }

  function Minus(a: uint32, b: uint32): uint32 {
    (a - b) % WRAP
  }

  function Xor(a: uint32, b: uint32): uint32 {
    ((a as bv32) ^ (b as bv32)) as int
  }

  /** `((x << 4) ^ (x >> 5)) + x` */
  function Mix(x: uint32): uint32 {
    Plus(Xor(x * 16 % WRAP, x / 32), x)
  }

  function EncryptCycle(w: Block, k0: uint32, k1: uint32): Block {
    var left := Plus(w.0, Xor(Mix(w.1), k0));
    (left, Plus(w.1, Xor(Mix(left), k1)))
  }

  function DecryptCycle(w: Block, k0: uint32, k1: uint32): Block {
    var right := Minus(w.1, Xor(Mix(w.0), k1));
    (Minus(w.0, Xor(Mix(right), k0)), right)
  }

  /** The first `n` cycles. */
  function Enciphered(w: Block, keys: RoundKeys, n: nat): Block
    requires n <= 32
  {
    if n == 0 then w
    else EncryptCycle(Enciphered(w, keys, n - 1), keys[2 * n - 2], keys[2 * n - 1])
  }

  /** What the first `n` turns of the decryption loop make of a block. */
  function Deciphered(w: Block, keys: RoundKeys, n: nat): Block
    requires n <= 32
  {
    if n == 0 then w
    else DecryptCycle(Deciphered(w, keys, n - 1), keys[64 - 2 * n], keys[65 - 2 * n])
  }

  lemma PlusMinus(a: uint32, b: uint32)
    ensures Minus(Plus(a, b), b) == a && Plus(Minus(a, b), b) == a
  {
  }

  lemma CycleInverse(w: Block, k0: uint32, k1: uint32)
    ensures DecryptCycle(EncryptCycle(w, k0, k1), k0, k1) == w
    ensures EncryptCycle(DecryptCycle(w, k0, k1), k0, k1) == w
  {
    hide Mix, Plus, Minus, Xor;
    var e, d := EncryptCycle(w, k0, k1), DecryptCycle(w, k0, k1);
    PlusMinus(w.0, Xor(Mix(w.1), k0));
    PlusMinus(w.1, Xor(Mix(e.0), k1));
    PlusMinus(w.1, Xor(Mix(w.0), k1));
    PlusMinus(w.0, Xor(Mix(d.1), k0));
  }

  /** `n` decryption turns undo the last `n` encryption cycles. */
  lemma {:induction false} DecipherPeels(w: Block, keys: RoundKeys, n: nat)
    requires n <= 32
    ensures Deciphered(Enciphered(w, keys, 32), keys, n) == Enciphered(w, keys, 32 - n)
  {
    hide EncryptCycle, DecryptCycle;
    if n > 0 {
      DecipherPeels(w, keys, n - 1);
      CycleInverse(Enciphered(w, keys, 32 - n), keys[64 - 2 * n], keys[65 - 2 * n]);
    }
  }

  // ---------------------------------------------------------------------
  // The key schedule
  // ---------------------------------------------------------------------

  function Sum(n: nat): uint32 {
    if n == 0 then 0 else Plus(Sum(n - 1), DELTA)
  }

  function Golden(d: nat): nat {
    d * d + 0x1_0000_0000 * d
  }

  /** The step of the sum is 2^32 over the golden ratio, rounded down: the greatest `d` with `d * d + 2^32 * d` below
      2^64. After 32 steps, modulo 2^32, the sum is 0xC6EF3720. */
  lemma GoldenDelta(d: uint32)
    ensures Golden(d) < 0x1_0000_0000_0000_0000 <==> d <= DELTA
    ensures Sum(32) == 0xC6EF_3720
  {
    hide Golden, Sum;
    DeltaIsLast();
    if d <= DELTA {
      Grows(d, DELTA);
    } else {
      Grows(DELTA + 1, d);
    }
    SumIs(32);
  }

  lemma DeltaIsLast()
    ensures Golden(DELTA) < 0x1_0000_0000_0000_0000 <= Golden(DELTA + 1)
  {
  }

  lemma Grows(d: nat, e: nat)
    requires d <= e
    ensures Golden(d) <= Golden(e)
  {
    assert d * d <= e * d <= e * e;
  }

  lemma {:induction false} SumIs(n: nat)
    ensures Sum(n) == n * 0x9E37_79B9 % 0x1_0000_0000
  {
    if n > 0 {
      SumIs(n - 1);
      AddWrap((n - 1) * 0x9E37_79B9, 0x9E37_79B9);
    }
  }

  lemma AddWrap(s: nat, d: nat)
    ensures (s % 0x1_0000_0000 + d) % 0x1_0000_0000 == (s + d) % 0x1_0000_0000
  {
    var q := s / 0x1_0000_0000;
    assert s + d == q * 0x1_0000_0000 + (s % 0x1_0000_0000 + d);
  }

  function RoundKey(key: Key, i: nat): uint32 {
    if i % 2 == 0 then Plus(Sum(i / 2), key[Sum(i / 2) % 4])
    else Plus(Sum(i / 2 + 1), key[Sum(i / 2 + 1) / 2048 % 4])
  }

  function ExpandedKey(key: Key): RoundKeys {
    seq(ROUNDS, i requires 0 <= i < ROUNDS => RoundKey(key, i))
  }

  method ExpandKey(key: Key) returns (expanded: RoundKeys)
    ensures expanded == ExpandedKey(key)
  {
    hide Plus;
    expanded := seq(ROUNDS, _ => 0);
    var sum: uint32 := 0;
    var nextSum := Plus(sum, DELTA);
    var i := 0;
    while i < |expanded|
      invariant i % 2 == 0 && i <= ROUNDS
      invariant sum == Sum(i / 2) && nextSum == Sum(i / 2 + 1)
      invariant forall j :: 0 <= j < i ==> expanded[j] == RoundKey(key, j)
    {
      expanded := expanded[i := Plus(sum, key[sum % 4])];
      expanded := expanded[i + 1 := Plus(nextSum, key[nextSum / 2048 % 4])];
      sum := nextSum;
      nextSum := Plus(nextSum, DELTA);
      i := i + 2;
    }
  }

  lemma TextbookKeys(key: Key, n: nat)
    requires n < 32
    ensures ExpandedKey(key)[2 * n] == Plus(Sum(n), key[Sum(n) % 4])
    ensures ExpandedKey(key)[2 * n + 1] == Plus(Sum(n + 1), key[Sum(n + 1) / 2048 % 4])
  {
    hide Plus, Sum;
    assert (2 * n) / 2 == n && (2 * n + 1) / 2 == n;
  }

  lemma TextbookCycle(w: Block, v0: uint32, k0: uint32, k1: uint32)
    requires v0 == Plus(w.0, Xor(Plus(Xor(w.1 * 16 % WRAP, w.1 / 32), w.1), k0))
    ensures EncryptCycle(w, k0, k1) == (v0, Plus(w.1, Xor(Plus(Xor(v0 * 16 % WRAP, v0 / 32), v0), k1)))
  {
    hide Plus, Xor;
  }

  /** The textbook cipher with its running sum: 32 Needham-Wheeler cycles, no precomputed keys. It is what
      the precomputed schedule computes. */
  method TextbookEncipher(v: Block, key: Key) returns (w: Block)
    ensures w == Enciphered(v, ExpandedKey(key), 32)
  {
    hide Plus, Mix, Xor, ExpandedKey, EncryptCycle;
    ghost var keys := ExpandedKey(key);
    var v0, v1 := v.0, v.1;
    var sum: uint32 := 0;
    for n := 0 to 32
      invariant sum == Sum(n) && (v0, v1) == Enciphered(v, keys, n)
    {
      ghost var w := (v0, v1);
      TextbookKeys(key, n);
      v0 := Plus(v0, Xor(Plus(Xor(v1 * 16 % WRAP, v1 / 32), v1), Plus(sum, key[sum % 4])));
      sum := Plus(sum, DELTA);
      v1 := Plus(v1, Xor(Plus(Xor(v0 * 16 % WRAP, v0 / 32), v0), Plus(sum, key[sum / 2048 % 4])));
      TextbookCycle(w, v0, keys[2 * n], keys[2 * n + 1]);
    }
    return (v0, v1);
  }

  // ---------------------------------------------------------------------
  // Blocks in a byte string
  // ---------------------------------------------------------------------

  /** The block at `at`, as `read_block` reads it. */
  function BlockAt(s: Bytes, at: nat): Block
    requires at + 8 <= |s|
  {
    (s[at] as int + 0x100 * s[at + 1] as int + 0x1_0000 * s[at + 2] as int + 0x100_0000 * s[at + 3] as int,
     s[at + 4] as int + 0x100 * s[at + 5] as int + 0x1_0000 * s[at + 6] as int + 0x100_0000 * s[at + 7] as int)
  }

  function BlockBytes(w: Block): Bytes {
    Le32(w.0) + Le32(w.1)
  }

  /** `f` applied to each whole block separately; trailing bytes untouched. */
  function MapBlocks(s: Bytes, f: Block -> Block): (r: Bytes)
    ensures |r| == |s|
    decreases |s|
  {
    if |s| < 8 then s else BlockBytes(f(BlockAt(s, 0))) + MapBlocks(s[8..], f)
  }

  function Encipher(keys: RoundKeys): Block -> Block {
    w => Enciphered(w, keys, 32)
  }

  function Decipher(keys: RoundKeys): Block -> Block {
    w => Deciphered(w, keys, 32)
  }

  function EncryptedBytes(s: Bytes, keys: RoundKeys): Bytes {
    MapBlocks(s, Encipher(keys))
  }

  function DecryptedBytes(s: Bytes, keys: RoundKeys): Bytes {
    MapBlocks(s, Decipher(keys))
  }

  lemma BytesOfWord(b0: uint8, b1: uint8, b2: uint8, b3: uint8)
    ensures Le32(b0 as int + 0x100 * b1 as int + 0x1_0000 * b2 as int + 0x100_0000 * b3 as int) == [b0, b1, b2, b3]
  {
    var x := b0 as int + 0x100 * b1 as int + 0x1_0000 * b2 as int + 0x100_0000 * b3 as int;
    assert x / 0x100 == b1 as int + 0x100 * b2 as int + 0x1_0000 * b3 as int;
    assert x / 0x1_0000 == b2 as int + 0x100 * b3 as int;
    assert x / 0x100_0000 == b3 as int;
  }

  /** A block read and written back is the same eight bytes. */
  lemma BlockBytesOf(s: Bytes, at: nat)
    requires at + 8 <= |s|
    ensures BlockBytes(BlockAt(s, at)) == s[at..at + 8]
  {
    hide Le32;
    BytesOfWord(s[at], s[at + 1], s[at + 2], s[at + 3]);
    BytesOfWord(s[at + 4], s[at + 5], s[at + 6], s[at + 7]);
  }

  /** A block written into a byte string reads back as itself. */
  lemma BlockWritten(s: Bytes, at: nat, w: Block)
    requires at + 8 <= |s| && s[at..at + 8] == BlockBytes(w)
    ensures BlockAt(s, at) == w
  {
    hide Le32;
    var b := BlockBytes(w);
    ReadU32Back(w.0, Le32(w.1));
    ReadU32Back(w.1, []);
    assert Le32(w.1) + [] == Le32(w.1);
    assert b[..4] == Le32(w.0) && b[4..] == Le32(w.1);
    assert forall i :: 0 <= i < 8 ==> s[at + i] == b[i];
    assert forall i :: 0 <= i < 4 ==> Le32(w.1)[i] == b[4 + i];
  }

  /** A byte string whose blocks are those of `s` under `f`, with the same trailing bytes. */
  ghost predicate BlocksMapped(r: Bytes, s: Bytes, f: Block -> Block) {
    && |r| == |s|
    && (forall k: nat :: 8 * k + 8 <= |s| ==> BlockAt(r, 8 * k) == f(BlockAt(s, 8 * k)))
    && r[|s| / 8 * 8..] == s[|s| / 8 * 8..]
  }

  lemma {:induction false} BlocksDetermine(r: Bytes, s: Bytes, f: Block -> Block)
    requires BlocksMapped(r, s, f)
    ensures r == MapBlocks(s, f)
    decreases |s|
  {
    hide BlockAt, BlockBytes;
    if |s| >= 8 {
      assert BlockAt(r, 8 * 0) == f(BlockAt(s, 8 * 0));
      BlockBytesOf(r, 0);
      ShiftBlocks(r, s, f);
      BlocksDetermine(r[8..], s[8..], f);
      assert r == r[..8] + r[8..];
    }
  }

  lemma ShiftBlocks(r: Bytes, s: Bytes, f: Block -> Block)
    requires |s| >= 8 && BlocksMapped(r, s, f)
    ensures BlocksMapped(r[8..], s[8..], f)
  {
    forall k: nat | 8 * k + 8 <= |s| - 8 ensures BlockAt(r[8..], 8 * k) == f(BlockAt(s[8..], 8 * k)) {
      assert BlockAt(r, 8 * (k + 1)) == f(BlockAt(s, 8 * (k + 1)));
      assert BlockAt(r[8..], 8 * k) == BlockAt(r, 8 * (k + 1));
      assert BlockAt(s[8..], 8 * k) == BlockAt(s, 8 * (k + 1));
    }
    assert (|s| - 8) / 8 * 8 + 8 == |s| / 8 * 8;
    assert r[8..][(|s| - 8) / 8 * 8..] == r[|s| / 8 * 8..];
    assert s[8..][(|s| - 8) / 8 * 8..] == s[|s| / 8 * 8..];
  }

  /** If `g` undoes `f` on every block, it undoes it on every byte string. */
  lemma {:induction false} MapBlocksInverse(s: Bytes, f: Block -> Block, g: Block -> Block)
    requires forall w :: g(f(w)) == w
    ensures MapBlocks(MapBlocks(s, f), g) == s
    decreases |s|
  {
    hide BlockAt, BlockBytes;
    if |s| >= 8 {
      var w, r := BlockAt(s, 0), MapBlocks(s, f);
      BlockLength(f(w));
      assert r[..8] == BlockBytes(f(w)) && r[8..] == MapBlocks(s[8..], f);
      BlockWritten(r, 0, f(w));
      BlockBytesOf(s, 0);
      MapBlocksInverse(s[8..], f, g);
      assert s == s[..8] + s[8..];
    }
  }

  lemma BlockLength(w: Block)
    ensures |BlockBytes(w)| == 8
  {
  }

  /** Decryption undoes encryption for every key and every byte string of any length. */
  lemma DecryptUndoesEncrypt(s: Bytes, keys: RoundKeys)
    ensures DecryptedBytes(EncryptedBytes(s, keys), keys) == s
    ensures |EncryptedBytes(s, keys)| == |s|
  {
    hide Enciphered, Deciphered;
    forall w: Block ensures Decipher(keys)(Encipher(keys)(w)) == w {
      DecipherPeels(w, keys, 32);
      assert Enciphered(w, keys, 0) == w by { NoCycles(w, keys); }
    }
    MapBlocksInverse(s, Encipher(keys), Decipher(keys));
  }

  lemma NoCycles(w: Block, keys: RoundKeys)
    ensures Enciphered(w, keys, 0) == w && Deciphered(w, keys, 0) == w
  {
  }

  // ---------------------------------------------------------------------
  // In place
  // ---------------------------------------------------------------------

  /** The first `done` blocks of `a` are `f` of the original ones, the others `g`. */
  ghost predicate Partly(a: Bytes, s: Bytes, f: Block -> Block, g: Block -> Block, done: nat) {
    && |a| == |s|
    && (forall k: nat :: 8 * k + 8 <= |s| ==>
          BlockAt(a, 8 * k) == if k < done then f(BlockAt(s, 8 * k)) else g(BlockAt(s, 8 * k)))
    && a[|s| / 8 * 8..] == s[|s| / 8 * 8..]
  }

  lemma WriteOne(before: Bytes, after: Bytes, s: Bytes, f: Block -> Block, g: Block -> Block, done: nat)
    requires Partly(before, s, f, g, done) && 8 * done + 8 <= |s| == |after|
    requires after[..8 * done] == before[..8 * done] && after[8 * done + 8..] == before[8 * done + 8..]
    requires after[8 * done..8 * done + 8] == BlockBytes(f(BlockAt(s, 8 * done)))
    ensures Partly(after, s, f, g, done + 1)
  {
    hide BlockBytes;
    forall k: nat | 8 * k + 8 <= |s|
      ensures BlockAt(after, 8 * k) == if k < done + 1 then f(BlockAt(s, 8 * k)) else g(BlockAt(s, 8 * k))
    {
      if k == done {
        BlockWritten(after, 8 * done, f(BlockAt(s, 8 * done)));
      } else {
        SameBlock(before, after, done, k);
      }
    }
    assert forall i :: |s| / 8 * 8 <= i < |s| ==> after[i] == after[8 * done + 8..][i - 8 * done - 8];
  }

  lemma SameBlock(before: Bytes, after: Bytes, done: nat, k: nat)
    requires |before| == |after| && 8 * done + 8 <= |after| && 8 * k + 8 <= |after| && k != done
    requires after[..8 * done] == before[..8 * done] && after[8 * done + 8..] == before[8 * done + 8..]
    ensures BlockAt(after, 8 * k) == BlockAt(before, 8 * k)
  {
    forall i | 8 * k <= i < 8 * k + 8 ensures after[i] == before[i] {
      if k < done {
        assert after[i] == after[..8 * done][i];
      } else {
        assert after[i] == after[8 * done + 8..][i - 8 * done - 8];
      }
    }
  }

  method WriteBlock(data: array<uint8>, at: nat, w: Block)
    requires at + 8 <= data.Length
    modifies data
    ensures data[..at] == old(data[..at]) && data[at + 8..] == old(data[at + 8..])
    ensures data[at..at + 8] == BlockBytes(w)
  {
    hide Le32;
    var l, r := Le32(w.0), Le32(w.1);
    data[at], data[at + 1], data[at + 2], data[at + 3] := l[0], l[1], l[2], l[3];
    data[at + 4], data[at + 5], data[at + 6], data[at + 7] := r[0], r[1], r[2], r[3];
  }

  function AfterCycles(keys: RoundKeys, n: nat): Block -> Block
    requires n <= 32
  {
    w => Enciphered(w, keys, n)
  }

  function AfterTurns(keys: RoundKeys, n: nat): Block -> Block
    requires n <= 32
  {
    w => Deciphered(w, keys, n)
  }

  /** `encrypt`: rounds outside, blocks inside, in place. */
  method Encrypt(data: array<uint8>, keys: RoundKeys)
    modifies data
    ensures data[..] == EncryptedBytes(old(data[..]), keys)
  {
    hide BlockAt, BlockBytes, Enciphered, EncryptCycle;
    ghost var s := data[..];
    Untouched(s, keys);
    var i := 0;
    while i < ROUNDS
      invariant i % 2 == 0 && i <= ROUNDS
      invariant Partly(data[..], s, AfterCycles(keys, i / 2), AfterCycles(keys, i / 2), 0)
    {
      ghost var f, g := AfterCycles(keys, i / 2 + 1), AfterCycles(keys, i / 2);
      var b := 0;
      while 8 * b + 8 <= data.Length
        invariant 8 * b <= data.Length == |s|
        invariant Partly(data[..], s, f, g, b)
      {
        ghost var before := data[..];
        var w := BlockAt(data[..], 8 * b);
        w := EncryptCycle(w, keys[i], keys[i + 1]);
        WriteBlock(data, 8 * b, w);
        NextCycle(BlockAt(s, 8 * b), keys, i / 2 + 1);
        WriteOne(before, data[..], s, f, g, b);
        b := b + 1;
      }
      AllWritten(data[..], s, f, g, b);
      i := i + 2;
    }
    AllMapped(data[..], s, Encipher(keys), AfterCycles(keys, 32));
  }

  /** `decrypt`: the rounds backwards. */
  method Decrypt(data: array<uint8>, keys: RoundKeys)
    modifies data
    ensures data[..] == DecryptedBytes(old(data[..]), keys)
  {
    hide BlockAt, BlockBytes, Deciphered, DecryptCycle;
    ghost var s := data[..];
    Untouched(s, keys);
    var i := ROUNDS - 1;
    ghost var n := 0;
    while i >= 1
      invariant n <= 32 && i == 63 - 2 * n
      invariant Partly(data[..], s, AfterTurns(keys, n), AfterTurns(keys, n), 0)
      decreases i
    {
      ghost var f, g := AfterTurns(keys, n + 1), AfterTurns(keys, n);
      var b := 0;
      while 8 * b + 8 <= data.Length
        invariant 8 * b <= data.Length == |s|
        invariant Partly(data[..], s, f, g, b)
      {
        ghost var before := data[..];
        var w := BlockAt(data[..], 8 * b);
        w := DecryptCycle(w, keys[i - 1], keys[i]);
        WriteBlock(data, 8 * b, w);
        NextTurn(BlockAt(s, 8 * b), keys, n + 1);
        WriteOne(before, data[..], s, f, g, b);
        b := b + 1;
      }
      AllWritten(data[..], s, f, g, b);
      n := n + 1;
      i := i - 2;
    }
    AllMapped(data[..], s, Decipher(keys), AfterTurns(keys, 32));
  }

  lemma NextCycle(w: Block, keys: RoundKeys, n: nat)
    requires 0 < n <= 32
    ensures Enciphered(w, keys, n) == EncryptCycle(Enciphered(w, keys, n - 1), keys[2 * n - 2], keys[2 * n - 1])
  {
  }

  lemma NextTurn(w: Block, keys: RoundKeys, n: nat)
    requires 0 < n <= 32
    ensures Deciphered(w, keys, n) == DecryptCycle(Deciphered(w, keys, n - 1), keys[64 - 2 * n], keys[65 - 2 * n])
  {
  }

  lemma Untouched(s: Bytes, keys: RoundKeys)
    ensures Partly(s, s, AfterCycles(keys, 0), AfterCycles(keys, 0), 0)
    ensures Partly(s, s, AfterTurns(keys, 0), AfterTurns(keys, 0), 0)
  {
    hide BlockAt;
  }

  lemma AllWritten(a: Bytes, s: Bytes, f: Block -> Block, g: Block -> Block, done: nat)
    requires Partly(a, s, f, g, done) && 8 * done + 8 > |s|
    ensures Partly(a, s, f, f, 0)
  {
    hide BlockAt;
  }

  lemma AllMapped(a: Bytes, s: Bytes, f: Block -> Block, g: Block -> Block)
    requires Partly(a, s, g, g, 0) && forall w :: f(w) == g(w)
    ensures a == MapBlocks(s, f)
  {
    hide BlockAt;
    BlocksDetermine(a, s, f);
  }
}
