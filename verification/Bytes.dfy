/** Bytes, fixed-width two's complement integers and their network byte order. */
module Bytes {

  type byte = b: int | 0 <= b < 256

  /** 256 to the power n: the number of values n bytes can hold. */
  function Pow256(n: nat): (p: nat)
    ensures p >= 1
    ensures n > 0 ==> p % 2 == 0
  {
    if n == 0 then 1 else 256 * Pow256(n - 1)
  }

  predicate FitsUnsigned(n: nat, v: int) {
    0 <= v < Pow256(n)
  }

  /** The values of a signed integer type that is n bytes wide. */
  predicate FitsSigned(n: nat, x: int) {
    0 <= 2 * x + Pow256(n) < 2 * Pow256(n)
  }

  /** The unsigned number whose big-endian digits are s. */
  function Unsigned(s: seq<byte>): (v: nat)
    ensures FitsUnsigned(|s|, v)
  {
    if s == [] then 0 else 256 * Unsigned(s[..|s| - 1]) + s[|s| - 1]
  }

  /** The n big-endian digits of v. */
  function BigEndian(n: nat, v: nat): (s: seq<byte>)
    requires FitsUnsigned(n, v)
    ensures |s| == n
  {
    if n == 0 then [] else BigEndian(n - 1, v / 256) + [v % 256]
  }

  /** A C++ cast from the n-byte unsigned type to the signed one. */
  function ToSigned(n: nat, v: nat): (x: int)
    requires n > 0 && FitsUnsigned(n, v)
    ensures FitsSigned(n, x)
  {
    if 2 * v < Pow256(n) then v else v - Pow256(n)
  }

  /** A C++ cast from the n-byte signed type to the unsigned one. */
  function ToUnsigned(n: nat, x: int): (v: nat)
    requires n > 0 && FitsSigned(n, x)
    ensures FitsUnsigned(n, v)
  {
    if x >= 0 then x else x + Pow256(n)
  }

  /** host_to_network on the object representation of x. */
  function Encode(n: nat, x: int): (s: seq<byte>)
    requires n > 0 && FitsSigned(n, x)
    ensures |s| == n
  {
    BigEndian(n, ToUnsigned(n, x))
  }

  /** network_to_host of the first bytes of a buffer. */
  function Decode(s: seq<byte>): (x: int)
    requires s != []
    ensures FitsSigned(|s|, x)
  {
    ToSigned(|s|, Unsigned(s))
  }

  lemma {:induction false} UnsignedOfBigEndian(n: nat, v: nat)
    requires FitsUnsigned(n, v)
    ensures Unsigned(BigEndian(n, v)) == v
  {
    if n > 0 {
      UnsignedOfBigEndian(n - 1, v / 256);
      assert BigEndian(n, v)[..n - 1] == BigEndian(n - 1, v / 256);
    }
  }

  lemma {:induction false} BigEndianOfUnsigned(s: seq<byte>)
    ensures BigEndian(|s|, Unsigned(s)) == s
  {
    if s != [] {
      var init := s[..|s| - 1];
      BigEndianOfUnsigned(init);
      assert Unsigned(s) / 256 == Unsigned(init);
      assert s == init + [s[|s| - 1]];
    }
  }

  lemma CastsAreInverse(n: nat, v: nat, x: int)
    requires n > 0
    ensures FitsUnsigned(n, v) ==> ToUnsigned(n, ToSigned(n, v)) == v
    ensures FitsSigned(n, x) ==> ToSigned(n, ToUnsigned(n, x)) == x
  {
  }

  /** Reading back a signed integer of any width undoes writing it. */
  lemma DecodeOfEncode(n: nat, x: int)
    requires n > 0 && FitsSigned(n, x)
    ensures Decode(Encode(n, x)) == x
  {
    hide Unsigned, BigEndian, ToSigned, ToUnsigned, Pow256;
    var v := ToUnsigned(n, x);
    UnsignedOfBigEndian(n, v);
    CastsAreInverse(n, v, x);
    assert |BigEndian(n, v)| == n;
  }

  /** Every byte string is the encoding of exactly the integer it decodes to. */
  lemma EncodeOfDecode(s: seq<byte>)
    requires s != []
    ensures Encode(|s|, Decode(s)) == s
  {
    hide Unsigned, BigEndian, ToSigned, ToUnsigned, Pow256;
    CastsAreInverse(|s|, Unsigned(s), 0);
    BigEndianOfUnsigned(s);
  }

  function Joined(parts: seq<seq<byte>>): seq<byte> {
    if parts == [] then [] else parts[0] + Joined(parts[1..])
  }

  lemma SliceOfSlice<T>(s: seq<T>, lo: nat, hi: nat, from: nat, to: nat)
    requires lo <= hi <= |s| && from <= to <= hi - lo
    ensures s[lo..hi][from..to] == s[lo + from..lo + to]
  {
    var inner := s[lo..hi];
    assert forall k :: 0 <= k < to - from ==> inner[from..to][k] == inner[from + k] == s[lo + from..lo + to][k];
  }

  lemma FourBytes()
    ensures Pow256(4) == 0x1_0000_0000
  {
    assert Pow256(1) == 256 && Pow256(2) == 0x1_0000;
  }

  // ------------------------------------------------------------- network order

  lemma Carried(b: nat, p: nat)
    ensures 256 * (b * p) == b * (256 * p)
  {
  }

  /** The first byte is the most significant one. */
  lemma {:induction false} MostSignificantFirst(s: seq<byte>)
    requires s != []
    ensures Unsigned(s) == s[0] * Pow256(|s| - 1) + Unsigned(s[1..])
  {
    if |s| == 1 {
      assert s[..0] == [] && s[1..] == [];
    } else {
      var init := s[..|s| - 1];
      MostSignificantFirst(init);
      assert s[1..][..|s| - 2] == init[1..];
      Carried(s[0], Pow256(|s| - 2));
    }
  }

  lemma TopDigit(b: byte, p: nat, rest: nat)
    requires rest < p
    ensures 2 * (b * p + rest) < 256 * p <==> b < 128
  {
    if b < 128 {
      assert b * p <= 127 * p;
    } else {
      assert b * p >= 128 * p;
    }
  }

  /** The top bit of the first byte is the sign. */
  lemma SignIsTopBit(s: seq<byte>)
    requires s != []
    ensures Decode(s) == Unsigned(s) - (if s[0] >= 128 then Pow256(|s|) else 0)
  {
    var p, rest := Pow256(|s| - 1), Unsigned(s[1..]);
    assert Pow256(|s|) == 256 * p;
    hide Pow256, Unsigned;
    MostSignificantFirst(s);
    TopDigit(s[0], p, rest);
  }

  /** Network order of the widths in use, byte by byte. */
  lemma NetworkOrder(a: byte, b: byte, c: byte, d: byte)
    ensures Decode([a]) == a - (if a >= 128 then 0x100 else 0)
    ensures Decode([a, b]) == a * 0x100 + b - (if a >= 128 then 0x1_0000 else 0)
    ensures Decode([a, b, c, d]) ==
      a * 0x100_0000 + b * 0x1_0000 + c * 0x100 + d - (if a >= 128 then 0x1_0000_0000 else 0)
  {
    FourBytes();
    assert Pow256(1) == 0x100 && Pow256(2) == 0x1_0000 && Pow256(3) == 0x100_0000;
    SignIsTopBit([a]);
    SignIsTopBit([a, b]);
    SignIsTopBit([a, b, c, d]);
    UnsignedOfFour(a, b, c, d);
  }

  lemma UnsignedOfFour(a: byte, b: byte, c: byte, d: byte)
    ensures Unsigned([a]) == a
    ensures Unsigned([a, b]) == a * 0x100 + b
    ensures Unsigned([a, b, c]) == a * 0x1_0000 + b * 0x100 + c
    ensures Unsigned([a, b, c, d]) == a * 0x100_0000 + b * 0x1_0000 + c * 0x100 + d
  {
    assert [a][..0] == [] && [a, b][..1] == [a];
    assert [a, b, c][..2] == [a, b] && [a, b, c, d][..3] == [a, b, c];
  }
}
