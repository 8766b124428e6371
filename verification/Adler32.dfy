/** The Adler-32 checksum of section 8.2 of RFC 1950, and the errors it is sure to detect. */
module Adler32 {
  import opened Bytes

  const MODULUS: nat := 65521

  /** The two running sums, s1 starting at 1 and s2 at 0. */
  function Sums(s: seq<byte>): (r: (nat, nat))
    ensures r.0 < MODULUS && r.1 < MODULUS
  {
    if s == [] then (1, 0) else
      var (s1, s2) := Sums(s[..|s| - 1]);
      var next := (s1 + s[|s| - 1]) % MODULUS;
      (next, (s2 + next) % MODULUS)
  }

  function Checksum(s: seq<byte>): (c: nat)
    ensures FitsUnsigned(4, c)
    ensures c % 65536 == Sums(s).0 && c / 65536 == Sums(s).1
  {
    FourBytes();
    Sums(s).1 * 65536 + Sums(s).0
  }

  // ------------------------------------------ the sums without the reduction

  function Total(s: seq<byte>): nat {
    if s == [] then 1 else Total(s[..|s| - 1]) + s[|s| - 1]
  }

  function Weighted(s: seq<byte>): nat {
    if s == [] then 0 else Weighted(s[..|s| - 1]) + Total(s)
  }

  /** A product under a name, so that proofs that only carry it along can hide it. */
  function Times(x: int, y: int): int {
    x * y
  }

  function Difference(x: int, y: int): int {
    x - y
  }

  lemma AddReduced(x: int, y: int)
    ensures (x % MODULUS + y) % MODULUS == (x + y) % MODULUS
    ensures (y + x % MODULUS) % MODULUS == (x + y) % MODULUS
  {
    assert x == MODULUS * (x / MODULUS) + x % MODULUS;
    Shift(x % MODULUS + y, x / MODULUS);
  }

  lemma Shift(x: int, k: int)
    ensures (x + MODULUS * k) % MODULUS == x % MODULUS
  {
    var q := x / MODULUS;
    assert x + MODULUS * k == MODULUS * (q + k) + x % MODULUS;
  }

  lemma {:induction false} SumsAreReduced(s: seq<byte>)
    ensures Sums(s) == (Total(s) % MODULUS, Weighted(s) % MODULUS)
  {
    if s != [] {
      var init := s[..|s| - 1];
      SumsAreReduced(init);
      AddReduced(Total(init), s[|s| - 1]);
      AddReduced(Weighted(init), Total(s));
      AddReduced(Total(s), Weighted(init) % MODULUS);
    }
  }

  /** Replacing the byte at i changes the second sum by the change times its distance to the end. */
  lemma {:induction false} SumsOfUpdate(s: seq<byte>, i: nat, v: byte)
    requires i < |s|
    ensures Total(s[i := v]) - Total(s) == Difference(v, s[i])
    ensures Weighted(s[i := v]) - Weighted(s) == Times(|s| - i, Difference(v, s[i]))
  {
    var t := s[i := v];
    var n := |s| - 1;
    if i == n {
      assert t[..n] == s[..n];
    } else {
      assert t[..n] == s[..n][i := v];
      SumsOfUpdate(s[..n], i, v);
    }
  }

  function Swapped(s: seq<byte>, i: nat, j: nat): (t: seq<byte>)
    requires i < j < |s|
    ensures |t| == |s|
  {
    s[i := s[j]][j := s[i]]
  }

  lemma SumsOfSwap(s: seq<byte>, i: nat, j: nat)
    requires i < j < |s|
    ensures Total(Swapped(s, i, j)) == Total(s)
    ensures Weighted(Swapped(s, i, j)) - Weighted(s) ==
      Times(|s| - i, Difference(s[j], s[i])) + Times(|s| - j, Difference(s[i], s[j]))
  {
    hide Total, Weighted, Times;
    var t := s[i := s[j]];
    SumsOfUpdate(s, i, s[j]);
    SumsOfUpdate(t, j, s[i]);
  }

  lemma Distances(n: int, i: int, j: int, x: int, y: int)
    ensures Times(n - i, Difference(y, x)) + Times(n - j, Difference(x, y)) == Times(j - i, Difference(y, x))
  {
  }

  // ------------------------------------------------- 65521 has no small factor

  lemma NoSmallFactor(k: nat)
    requires 2 <= k <= 255
    ensures MODULUS % k != 0
  {
  }

  /**
   Euclid's step as an induction: whatever multiple of d by a number below 256
   vanishes, so does the multiple by 65521 modulo that number, and so on down to 1.
   */
  lemma {:induction false} CancelFactor(k: nat, d: int)
    requires 1 <= k <= 255 && (k * d) % MODULUS == 0
    ensures d % MODULUS == 0
    decreases k
  {
    if k > 1 {
      NoSmallFactor(k);
      var q, r := MODULUS / k, MODULUS % k;
      var m := (k * d) / MODULUS;
      Remainder(q, k, r, d, m);
      Shift(0, d - q * m);
      CancelFactor(r, d);
    }
  }

  lemma Remainder(q: int, k: int, r: int, d: int, m: int)
    requires MODULUS == q * k + r && k * d == MODULUS * m
    ensures r * d == MODULUS * (d - q * m)
  {
    assert r * d == MODULUS * d - q * (k * d) by {
      assert (q * k + r) * d == q * (k * d) + r * d;
    }
    assert q * (MODULUS * m) == MODULUS * (q * m);
  }

  lemma VanishesIff(delta: int, d: int)
    requires -255 <= delta <= 255 && delta != 0
    ensures Times(d, delta) % MODULUS == 0 <==> d % MODULUS == 0
  {
    var k := if delta > 0 then delta else -delta;
    assert d * delta == if delta > 0 then k * d else -(k * d);
    Negated(k * d);
    if (d * delta) % MODULUS == 0 {
      CancelFactor(k, d);
    }
    if d % MODULUS == 0 {
      var m := d / MODULUS;
      assert k * d == MODULUS * (k * m);
      Shift(0, k * m);
    }
  }

  lemma Negated(x: int)
    ensures x % MODULUS == 0 <==> (-x) % MODULUS == 0
  {
    var q := x / MODULUS;
    if x % MODULUS == 0 { Shift(0, -q); assert -x == MODULUS * -q; }
    var p := (-x) / MODULUS;
    if (-x) % MODULUS == 0 { Shift(0, -p); assert x == MODULUS * -p; }
  }

  lemma SameRemainder(x: int, y: int)
    ensures x % MODULUS == y % MODULUS <==> (x - y) % MODULUS == 0
  {
    var q, p := x / MODULUS, y / MODULUS;
    assert x - y == MODULUS * (q - p) + (x % MODULUS - y % MODULUS);
    if x % MODULUS == y % MODULUS { Shift(0, q - p); }
    if (x - y) % MODULUS == 0 {
      assert x == y + MODULUS * ((x - y) / MODULUS);
      Shift(y, (x - y) / MODULUS);
    }
  }

  // ---------------------------------------------------------- detected errors

  lemma EqualChecksums(s: seq<byte>, t: seq<byte>)
    ensures Checksum(s) == Checksum(t) <==>
      (Total(s) - Total(t)) % MODULUS == 0 && (Weighted(s) - Weighted(t)) % MODULUS == 0
  {
    SumsAreReduced(s);
    SumsAreReduced(t);
    SameRemainder(Total(s), Total(t));
    SameRemainder(Weighted(s), Weighted(t));
  }

  /** No replacement of one byte keeps the checksum. */
  lemma ReplacementDetected(s: seq<byte>, i: nat, v: byte)
    requires i < |s| && v != s[i]
    ensures Checksum(s[i := v]) != Checksum(s)
  {
    hide Total, Weighted, Checksum, Times;
    SumsOfUpdate(s, i, v);
    EqualChecksums(s[i := v], s);
  }

  /** Exchanging two unequal bytes keeps the checksum only at a distance that 65521 divides. */
  lemma SwapKeepsChecksumIff(s: seq<byte>, i: nat, j: nat)
    requires i < j < |s| && s[i] != s[j]
    ensures Checksum(Swapped(s, i, j)) == Checksum(s) <==> (j - i) % MODULUS == 0
  {
    hide Total, Weighted, Checksum, Times;
    SumsOfSwap(s, i, j);
    Distances(|s|, i, j, s[i], s[j]);
    EqualChecksums(Swapped(s, i, j), s);
    VanishesIff(Difference(s[j], s[i]), j - i);
  }

  // --------------------------------------------- the checksum as its RFC has it

  function Sum(s: seq<byte>): nat {
    if s == [] then 0 else s[0] + Sum(s[1..])
  }

  /** The first byte counts |s| times, the last once. */
  function WeightedSum(s: seq<byte>): nat {
    if s == [] then 0 else Times(|s|, s[0]) + WeightedSum(s[1..])
  }

  lemma {:induction false} SumOfAppended(s: seq<byte>, b: byte)
    ensures Sum(s + [b]) == Sum(s) + b
    ensures WeightedSum(s + [b]) == WeightedSum(s) + Sum(s) + b
  {
    if s == [] {
      assert s + [b] == [b] && [b][1..] == [];
      assert Times(1, b) == b;
    } else {
      SumOfAppended(s[1..], b);
      assert (s + [b])[1..] == s[1..] + [b];
      assert Times(|s| + 1, s[0]) == Times(|s|, s[0]) + s[0];
    }
  }

  lemma {:induction false} TotalsAreSums(s: seq<byte>)
    ensures Total(s) == 1 + Sum(s)
    ensures Weighted(s) == |s| + WeightedSum(s)
  {
    if s != [] {
      var init, b := s[..|s| - 1], s[|s| - 1];
      TotalsAreSums(init);
      SumOfAppended(init, b);
      assert s == init + [b];
    }
  }

  /**
   Adler-32 as in section 8.2 of RFC 1950: the low half is one more than the sum of the
   bytes, the high half the length plus the weighted sum, both modulo 65521.
   */
  lemma ChecksumIsAdler32(s: seq<byte>)
    ensures Checksum(s) % 65536 == (1 + Sum(s)) % 65521
    ensures Checksum(s) / 65536 == (|s| + WeightedSum(s)) % 65521
    ensures Checksum(s) < 0x1_0000_0000
  {
    hide Sums, Total, Weighted, Sum, WeightedSum;
    FourBytes();
    SumsAreReduced(s);
    TotalsAreSums(s);
  }
}
