/** The Adler-32 checksum (crates/protocol/src/adler.rs; sections 8.2 and 9 of RFC 1950) and what it detects. */
module Adler {
  import opened World
  import opened Wire

  /** The largest prime below 2^16. */
  const MOD_ADLER: nat := 65521

  /** The sum of the bytes. */
  function Total(d: Bytes): nat {
    if d == [] then 0 else Total(d[..|d| - 1]) + d[|d| - 1] as int
  }

  /** Each byte weighted by its distance from the end: the first byte `|d|` times, the last once. */
  function Weighted(d: Bytes): nat {
    if d == [] then 0 else Weighted(d[..|d| - 1]) + Total(d)
  }

  /** `A = 1 + D1 + ... + Dn` and `B = n + n D1 + ... + Dn`, both modulo 65521, B in the high half. */
  function Checksum(d: Bytes): (c: uint32) {
    (|d| + Weighted(d)) % MOD_ADLER * 0x1_0000 + (1 + Total(d)) % MOD_ADLER
  }

  /** `adler32`: every intermediate sum fits a `u32`. */
  method Adler32(data: Bytes) returns (c: uint32)
    ensures c == Checksum(data)
  {
    hide Total, Weighted;
    NoSums();
    var a: uint32, b: uint32 := 1, 0;
    for i := 0 to |data|
      invariant a == (1 + Total(data[..i])) % MOD_ADLER
      invariant b == (i + Weighted(data[..i])) % MOD_ADLER
    {
      NextSums(data, i);
      var sum: uint32 := a as int + data[i] as int;
      a := sum % MOD_ADLER;
      sum := b as int + a as int;
      b := sum % MOD_ADLER;
    }
    assert data[..|data|] == data;
    c := b * 0x1_0000 + a;
  }

  /** The checksums of nothing, of "a" and of "Wikipedia". */
  lemma KnownChecksums()
    ensures Checksum([]) == 1 && Checksum([0x61]) == 0x0062_0062
    ensures Checksum([0x57, 0x69, 0x6B, 0x69, 0x70, 0x65, 0x64, 0x69, 0x61]) == 0x11E6_0398
  {
    var s: Bytes := [0x57, 0x69, 0x6B, 0x69, 0x70, 0x65, 0x64, 0x69, 0x61];
    assert [0x61][..0] == [] && s[..0] == [];
    for i := 0 to 9
      invariant i > 0 ==> Total(s[..i]) == [87, 192, 299, 404, 516, 617, 717, 822, 919][i - 1]
      invariant i > 0 ==> Weighted(s[..i]) == [87, 279, 578, 982, 1498, 2115, 2832, 3654, 4573][i - 1]
    {
      assert s[..i + 1][..i] == s[..i];
    }
    assert s[..9] == s;
  }

  lemma NoSums()
    ensures Total([]) == 0 && Weighted([]) == 0
  {
  }

  lemma NextSums(d: Bytes, i: nat)
    requires i < |d|
    ensures (1 + Total(d[..i + 1])) % MOD_ADLER == ((1 + Total(d[..i])) % MOD_ADLER + d[i] as int) % MOD_ADLER
    ensures (i + 1 + Weighted(d[..i + 1])) % MOD_ADLER
         == ((i + Weighted(d[..i])) % MOD_ADLER + (1 + Total(d[..i + 1])) % MOD_ADLER) % MOD_ADLER
  {
    assert d[..i + 1][..i] == d[..i];
    AddMod(1 + Total(d[..i]), d[i] as int);
    AddMods(i + Weighted(d[..i]), 1 + Total(d[..i + 1]));
  }

  lemma AddMods(x: nat, y: nat)
    ensures (x % MOD_ADLER + y % MOD_ADLER) % MOD_ADLER == (x + y) % MOD_ADLER
  {
    AddMod(y, x % MOD_ADLER);
    AddMod(x, y);
  }

  lemma AddMod(x: nat, y: nat)
    ensures (x % MOD_ADLER + y) % MOD_ADLER == (x + y) % MOD_ADLER
  {
  }

  // ---------------------------------------------------------------------
  // The closed form, position by position
  // ---------------------------------------------------------------------

  /** The weighted sum, as section 8.2 of RFC 1950 writes it: byte `i` counts `|d| - i` times. */
  function WeightedFrom(d: Bytes, i: nat): nat
    requires i <= |d|
    decreases |d| - i
  {
    if i == |d| then 0 else (|d| - i) * d[i] as int + WeightedFrom(d, i + 1)
  }

  function TotalFrom(d: Bytes, i: nat): nat
    requires i <= |d|
    decreases |d| - i
  {
    if i == |d| then 0 else d[i] as int + TotalFrom(d, i + 1)
  }

  lemma {:induction false} FromSnoc(d: Bytes, x: uint8, i: nat)
    requires i <= |d|
    ensures TotalFrom(d + [x], i) == TotalFrom(d, i) + x as int
    ensures WeightedFrom(d + [x], i) == WeightedFrom(d, i) + TotalFrom(d, i) + x as int
    decreases |d| - i
  {
    if i < |d| {
      FromSnoc(d, x, i + 1);
      Distribute(|d| - i, d[i] as int);
    }
  }

  lemma Distribute(k: nat, x: nat)
    ensures (k + 1) * x == k * x + x
  {
  }

  lemma {:induction false} ClosedForm(d: Bytes)
    ensures Total(d) == TotalFrom(d, 0) && Weighted(d) == WeightedFrom(d, 0)
  {
    if d != [] {
      var p, x := d[..|d| - 1], d[|d| - 1];
      assert d == p + [x];
      ClosedForm(p);
      FromSnoc(p, x, 0);
    }
  }

  /** Replacing the byte at `i` changes the sums by its difference, once and `|d| - i` times. */
  lemma {:induction false} UpdateSums(d: Bytes, i: nat, x: uint8)
    requires i < |d|
    ensures Total(d[i := x]) - Total(d) == x as int - d[i] as int
    ensures Weighted(d[i := x]) - Weighted(d) == (|d| - i) * (x as int - d[i] as int)
  {
    var last := |d| - 1;
    if i == last {
      assert d[i := x][..last] == d[..last];
    } else {
      assert d[i := x][..last] == d[..last][i := x];
      UpdateSums(d[..last], i, x);
      DistributeInt(last - i, x as int - d[i] as int);
    }
  }

  lemma DistributeInt(k: int, x: int)
    ensures (k + 1) * x == k * x + x
  {
  }

  lemma SameChecksum(d: Bytes, e: Bytes)
    requires |d| == |e|
    ensures Checksum(d) == Checksum(e)
       <==> (Total(d) - Total(e)) % MOD_ADLER == 0 && (Weighted(d) - Weighted(e)) % MOD_ADLER == 0
  {
    SameRemainder(1 + Total(d), 1 + Total(e));
    SameRemainder(|d| + Weighted(d), |e| + Weighted(e));
  }

  lemma SameRemainder(x: nat, y: nat)
    ensures x % MOD_ADLER == y % MOD_ADLER <==> (x - y) % MOD_ADLER == 0
  {
  }

  // ---------------------------------------------------------------------
  // What the checksum detects
  // ---------------------------------------------------------------------

  lemma {:induction false} NoSmallDivisor(k: nat)
    requires 2 <= k <= 255
    ensures 65521 % k != 0
  {
  }

  /** Euclid's lemma for the prime 65521 and a factor no larger than a byte. */
  lemma {:induction false} PrimeFactor(k: nat, m: int)
    requires 1 <= k <= 255 && (k * m) % MOD_ADLER == 0
    ensures m % MOD_ADLER == 0
    decreases k
  {
    if k == 1 {
      assert k * m == m;
    } else {
      NoSmallDivisor(k);
      var q, r := 65521 / k, 65521 % k;
      Euclid(k, q, r, m);
      PrimeFactor(r, m);
    }
  }

  lemma Euclid(k: nat, q: nat, r: nat, m: int)
    requires 65521 == q * k + r && (k * m) % MOD_ADLER == 0
    ensures (r * m) % MOD_ADLER == 0
  {
    assert r * m == MOD_ADLER * m - q * (k * m) by {
      assert (q * k) * m == q * (k * m);
      assert (q * k + r) * m == (q * k) * m + r * m;
    }
    MultipleOfMultiple(q, k * m);
    MultipleOfMultiple(m, MOD_ADLER);
    DifferenceOfMultiples(MOD_ADLER * m, q * (k * m));
  }

  lemma MultipleOfMultiple(q: int, x: int)
    requires x % MOD_ADLER == 0
    ensures (q * x) % MOD_ADLER == 0 && (x * q) % MOD_ADLER == 0
  {
    var y := x / MOD_ADLER;
    assert x == MOD_ADLER * y;
    assert q * x == MOD_ADLER * (q * y);
  }

  lemma DifferenceOfMultiples(x: int, y: int)
    requires x % MOD_ADLER == 0 && y % MOD_ADLER == 0
    ensures (x - y) % MOD_ADLER == 0
  {
  }

  lemma SmallMultiple(v: int)
    requires 0 - MOD_ADLER < v < MOD_ADLER
    ensures v % MOD_ADLER == 0 <==> v == 0
  {
  }

  /** For every data of any length: overwriting two bytes leaves the checksum unchanged exactly when nothing
      changed, or the two changes cancel at a distance that is a multiple of 65521. */
  lemma TwoBytesDetected(d: Bytes, i: nat, j: nat, x: uint8, y: uint8)
    requires i < j < |d|
    ensures Checksum(d[i := x][j := y]) == Checksum(d)
       <==> || (x == d[i] && y == d[j])
            || (x as int - d[i] as int == d[j] as int - y as int && (j - i) % MOD_ADLER == 0)
  {
    hide Total, Weighted, Checksum;
    var dx, dy := x as int - d[i] as int, y as int - d[j] as int;
    UpdateSums(d, i, x);
    UpdateSums(d[i := x], j, y);
    SameChecksum(d[i := x][j := y], d);
    SmallMultiple(dx + dy);
    if dy == -dx {
      WeightedGap(|d|, i, j, dx);
      ScaledMultiple(j - i, dx);
    }
  }

  lemma WeightedGap(n: nat, i: nat, j: nat, dx: int)
    ensures (n - i) * dx + (n - j) * -dx == (j - i) * dx
  {
  }

  lemma ScaledMultiple(gap: nat, dx: int)
    requires -255 <= dx <= 255
    ensures (gap * dx) % MOD_ADLER == 0 <==> dx == 0 || gap % MOD_ADLER == 0
  {
    if dx > 0 {
      ScaledPositive(gap, dx);
    } else if dx < 0 {
      ScaledPositive(gap, -dx);
      assert gap * dx == -(gap * -dx);
      Opposite(gap * -dx);
    }
  }

  lemma ScaledPositive(gap: nat, dx: int)
    requires 0 < dx <= 255
    ensures (gap * dx) % MOD_ADLER == 0 <==> gap % MOD_ADLER == 0
  {
    if gap % MOD_ADLER == 0 {
      MultipleOfMultiple(dx, gap);
    }
    if (gap * dx) % MOD_ADLER == 0 {
      assert gap * dx == dx * gap;
      PrimeFactor(dx, gap);
    }
  }

  lemma Opposite(v: int)
    ensures (-v) % MOD_ADLER == 0 <==> v % MOD_ADLER == 0
  {
  }

  /** Changing one byte, in data of any length, always changes the checksum. */
  lemma OneByteDetected(d: Bytes, i: nat, x: uint8)
    requires i < |d| && x != d[i]
    ensures Checksum(d[i := x]) != Checksum(d)
  {
    hide Total, Weighted, Checksum;
    UpdateSums(d, i, x);
    SameChecksum(d[i := x], d);
    SmallMultiple(x as int - d[i] as int);
  }
}
