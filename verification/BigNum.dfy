/** Byte-level conversions of big numbers (bignum.h): OpenSSL's MPI format, setvch and getvch, and
    the compact form of targets. */
module BigNum {
  import opened Basics

  function Pow256(n: nat): (p: nat)
    ensures p >= 1
  {
    if n == 0 then 1 else 256 * Pow256(n - 1)
  }

  predicate IsBytes(s: seq<nat>) { forall i :: 0 <= i < |s| ==> s[i] < 256 }

  /** The value of big-endian bytes. */
  function ValueBE(s: seq<nat>): nat {
    if s == [] then 0 else 256 * ValueBE(s[..|s| - 1]) + s[|s| - 1]
  }

  /** The n low bytes of x, big-endian. */
  function BytesBE(x: nat, n: nat): (s: seq<nat>)
    ensures |s| == n && IsBytes(s)
  {
    if n == 0 then [] else BytesBE(x / 256, n - 1) + [x % 256]
  }

  lemma {:induction false} ValueOfBytes(x: nat, n: nat)
    requires x < Pow256(n)
    ensures ValueBE(BytesBE(x, n)) == x
  {
    if n > 0 {
      ValueOfBytes(x / 256, n - 1);
      assert BytesBE(x, n)[..n - 1] == BytesBE(x / 256, n - 1);
    }
  }

  lemma {:induction false} BytesOfValue(s: seq<nat>)
    requires IsBytes(s)
    ensures BytesBE(ValueBE(s), |s|) == s && ValueBE(s) < Pow256(|s|)
  {
    if s != [] {
      var k := |s| - 1;
      BytesOfValue(s[..k]);
      assert ValueBE(s) / 256 == ValueBE(s[..k]) && ValueBE(s) % 256 == s[k];
    }
  }

  // ---------------------------------------------------------------- MPI

  /** The number of MPI bytes of x: enough for x with the top bit clear. */
  function MpiSize(x: nat): nat {
    if x == 0 then 0 else if x < 0x80 then 1 else if x < 0x8000 then 2 else 1 + MpiSize(x / 256)
  }

  /** The first number that does not fit n MPI bytes. */
  function MpiBound(n: nat): (b: nat)
    ensures b >= 1
  {
    if n == 0 then 1 else 0x80 * Pow256(n - 1)
  }

  lemma {:induction false} MpiSizeFits(x: nat)
    ensures x < MpiBound(MpiSize(x))
    ensures x > 0 ==> MpiSize(x) >= 1 && MpiBound(MpiSize(x) - 1) <= x
  {
    if x >= 0x8000 {
      MpiSizeFits(x / 256);
      assert Pow256(MpiSize(x) - 1) == 256 * Pow256(MpiSize(x) - 2);
    } else {
      assert Pow256(0) == 1 && Pow256(1) == 256;
    }
  }

  lemma {:induction false} MpiBoundGrows(m: nat, n: nat)
    ensures m <= n ==> MpiBound(m) <= MpiBound(n)
    decreases n
  {
    if m < n {
      MpiBoundGrows(m, n - 1);
    }
  }

  lemma {:induction false} MpiSizeMonotone(x: nat, y: nat)
    requires x <= y
    ensures MpiSize(x) <= MpiSize(y)
  {
    MpiSizeFits(x);
    MpiSizeFits(y);
    MpiBoundGrows(MpiSize(y), Max(0, MpiSize(x) - 1));
  }

  /** MpiSize is the only size that fits. */
  lemma {:induction false} MpiSizeIs(x: nat, n: nat)
    requires n >= 1 && MpiBound(n - 1) <= x < MpiBound(n)
    ensures MpiSize(x) == n
  {
    MpiSizeFits(x);
    MpiBoundGrows(MpiSize(x), n - 1);
    MpiBoundGrows(n, Max(0, MpiSize(x) - 1));
  }

  /** BN_bn2mpi of a non-negative number, without the length header. */
  function Mpi(x: nat): (s: seq<nat>)
    ensures |s| == MpiSize(x) && IsBytes(s)
  {
    BytesBE(x, MpiSize(x))
  }

  /** BN_mpi2bn: the top bit of the first byte is the sign. */
  function FromMpi(s: seq<nat>): int
    requires IsBytes(s)
  {
    if s == [] || s[0] < 0x80 then ValueBE(s) else -(ValueBE(s[0 := s[0] - 0x80]) as int)
  }

  lemma {:induction false} MpiBoundBelowPow(n: nat)
    ensures MpiBound(n) <= Pow256(n)
  {
  }

  lemma {:induction false} FirstByte(x: nat, n: nat)
    requires n >= 1 && x < MpiBound(n)
    ensures BytesBE(x, n)[0] < 0x80
  {
    if n > 1 {
      FirstByte(x / 256, n - 1);
    }
  }

  /** Reading back what was written. */
  lemma {:induction false} MpiRoundTrip(x: nat)
    ensures FromMpi(Mpi(x)) == x
  {
    MpiSizeFits(x);
    MpiBoundBelowPow(MpiSize(x));
    ValueOfBytes(x, MpiSize(x));
    if x > 0 {
      FirstByte(x, MpiSize(x));
    }
  }

  /** BN_bn2mpi: the sign goes into the top bit of the first byte. */
  function SignedMpi(x: int): (s: seq<nat>)
    ensures |s| == MpiSize(if x >= 0 then x else -x) && IsBytes(s)
    ensures x < 0 ==> s != [] && 0x80 <= s[0] && s[0 := s[0] - 0x80] == Mpi(-x)
  {
    if x >= 0 then Mpi(x)
    else
      MpiSizeFits(-x);
      FirstByte(-x, MpiSize(-x));
      Mpi(-x)[0 := Mpi(-x)[0] + 0x80]
  }

  /** Reading back what was written, whatever the sign. */
  lemma {:induction false} SignedRoundTrip(x: int)
    ensures FromMpi(SignedMpi(x)) == x
  {
    MpiRoundTrip(if x >= 0 then x else -x);
    if x < 0 {
      MpiSizeFits(-x);
      FirstByte(-x, MpiSize(-x));
    }
  }

  // ---------------------------------------------------------------- the compact form

  const SHIFT := 0x100_0000

  /** A byte of a buffer, or nothing where the buffer has no such byte. */
  function At(s: seq<nat>, i: nat): nat { if i < |s| then s[i] else 0 }

  /** GetCompact of a non-negative number: the size, then the first three bytes. */
  function GetCompact(x: nat): nat {
    var vch := Mpi(x);
    |vch| * SHIFT + At(vch, 0) * 0x1_0000 + At(vch, 1) * 0x100 + At(vch, 2)
  }

  /** GetCompact of any number, in its 32 bits: the size wraps from 256 bytes on. */
  function Compact32(x: int): nat {
    var vch := SignedMpi(x);
    (|vch| * SHIFT + At(vch, 0) * 0x1_0000 + At(vch, 1) * 0x100 + At(vch, 2)) % 0x1_0000_0000
  }

  lemma {:induction false} Compact32Value(x: int)
    requires MpiSize(if x >= 0 then x else -x) <= 255
    ensures Compact32(x) == if x >= 0 then GetCompact(x) else GetCompact(-x) + 0x80_0000
  {
    if x < 0 {
      var s, vch := Mpi(-x), SignedMpi(x);
      assert vch == s[0 := s[0] + 0x80];
      assert At(vch, 1) == At(s, 1) && At(vch, 2) == At(s, 2);
    }
  }

  /** The MPI bytes SetCompact builds. */
  function CompactBytes(c: nat): (s: seq<nat>)
    ensures |s| == c / SHIFT && IsBytes(s)
  {
    seq(c / SHIFT, i => if i == 0 then c / 0x1_0000 % 256 else if i == 1 then c / 0x100 % 256 else if i == 2 then c % 256 else 0)
  }

  function SetCompact(c: nat): int {
    FromMpi(CompactBytes(c))
  }

  /** The first three bytes as a number: x scaled to three bytes. */
  function Mantissa(x: nat, n: nat): int {
    if n >= 3 then x / Pow256(n - 3) else x * Pow256(3 - n)
  }

  lemma {:induction false} TopBytes(x: nat, n: nat)
    requires x < Pow256(n)
    ensures var s := BytesBE(x, n); At(s, 0) * 0x1_0000 + At(s, 1) * 0x100 + At(s, 2) == Mantissa(x, n)
  {
    if n > 3 {
      TopBytes(x / 256, n - 1);
      DivTwice(x, Pow256(n - 4));
    } else {
      assert Pow256(0) == 1 && Pow256(1) == 0x100 && Pow256(2) == 0x1_0000 && Pow256(3) == 0x100_0000;
      SmallBytes(x, n);
    }
  }

  lemma {:induction false} SmallBytes(x: nat, n: nat)
    requires n <= 3 && x < Pow256(n)
    ensures n == 1 ==> BytesBE(x, n) == [x]
    ensures n == 2 ==> BytesBE(x, n) == [x / 256, x % 256]
    ensures n == 3 ==> BytesBE(x, n) == [x / 256 / 256, x / 256 % 256, x % 256]
  {
    assert Pow256(0) == 1 && Pow256(1) == 0x100 && Pow256(2) == 0x1_0000 && Pow256(3) == 0x100_0000;
    if n == 1 {
      assert BytesBE(x, 1) == BytesBE(x / 256, 0) + [x % 256];
    } else if n == 2 {
      assert BytesBE(x / 256, 1) == BytesBE(x / 256 / 256, 0) + [x / 256 % 256];
    } else if n == 3 {
      assert BytesBE(x / 256 / 256, 1) == BytesBE(x / 256 / 256 / 256, 0) + [x / 256 / 256 % 256];
      assert BytesBE(x / 256, 2) == BytesBE(x / 256 / 256, 1) + [x / 256 % 256];
    }
  }

  lemma {:induction false} DivTwice(x: nat, p: nat)
    requires p >= 1
    ensures x / 256 / p == x / (256 * p)
  {
    var q := x / 256 / p;
    var r := x / 256 % p;
    assert x / 256 == q * p + r;
    assert x == 256 * (q * p + r) + x % 256;
    assert 256 * (q * p + r) == q * (256 * p) + 256 * r;
    QuotientIs(x, 256 * p, q, 256 * r + x % 256);
  }

  lemma {:induction false} QuotientIs(x: nat, p: nat, q: nat, r: nat)
    requires x == q * p + r && r < p
    ensures x / p == q && x % p == r
  {
    var d := x / p;
    assert x == d * p + x % p;
    Scaled(d + 1, q, p);
    Scaled(q + 1, d, p);
  }

  lemma {:induction false} Scaled(a: int, b: int, p: nat)
    ensures a <= b ==> a * p <= b * p
  {
  }

  lemma {:induction false} GetCompactValue(x: nat)
    ensures GetCompact(x) == MpiSize(x) * SHIFT + Mantissa(x, MpiSize(x))
  {
    MpiSizeFits(x);
    MpiBoundBelowPow(MpiSize(x));
    TopBytes(x, MpiSize(x));
  }

  lemma {:induction false} MantissaRange(x: nat)
    requires x > 0
    ensures 0x8000 <= Mantissa(x, MpiSize(x)) < 0x80_0000
  {
    var n := MpiSize(x);
    MpiSizeFits(x);
    if n >= 3 {
      BoundInThrees(n);
      QuotientRange(x, Pow256(n - 3), 0x8000, 0x80_0000);
    } else {
      SmallMantissa(x, n);
      assert Pow256(0) == 1 && Pow256(1) == 0x100;
    }
  }

  lemma {:induction false} QuotientRange(x: nat, p: nat, low: nat, high: nat)
    requires p >= 1 && low * p <= x < high * p
    ensures low <= x / p < high
  {
    var d := x / p;
    assert x == d * p + x % p;
    Scaled(d + 1, low, p);
    Scaled(high, d, p);
  }

  // ---------------------------------------------------------------- what a compact value stands for

  /** A mantissa scaled from three bytes to n. */
  function Unscaled(m: nat, n: nat): int {
    if n >= 3 then m * Pow256(n - 3) else m / Pow256(3 - n)
  }

  function Zeros(k: nat): (s: seq<nat>)
    ensures |s| == k && forall i :: 0 <= i < k ==> s[i] == 0
  {
    seq(k, _ => 0)
  }

  lemma {:induction false} TrailingZeros(s: seq<nat>, k: nat)
    ensures ValueBE(s + Zeros(k)) == ValueBE(s) * Pow256(k)
  {
    if k == 0 {
      assert s + Zeros(0) == s;
    } else {
      TrailingZeros(s, k - 1);
      LastZero(s, k);
      Times256(ValueBE(s), Pow256(k - 1));
    }
  }

  lemma {:induction false} LastZero(s: seq<nat>, k: nat)
    requires k >= 1
    ensures ValueBE(s + Zeros(k)) == 256 * ValueBE(s + Zeros(k - 1))
  {
    var t := s + Zeros(k);
    assert t[..|t| - 1] == s + Zeros(k - 1) && t[|t| - 1] == 0;
  }

  lemma {:induction false} Times256(a: int, b: int)
    ensures 256 * (a * b) == a * (256 * b)
  {
  }

  lemma {:induction false} ThreeBytes(a: nat, b: nat, c: nat)
    ensures ValueBE([a]) == a && ValueBE([a, b]) == 256 * a + b && ValueBE([a, b, c]) == 0x1_0000 * a + 256 * b + c
  {
    assert [a][..0] == [] && [a, b][..1] == [a] && [a, b, c][..2] == [a, b];
  }

  lemma {:induction false} Digits(c: nat)
    ensures c % SHIFT == 0x1_0000 * (c / 0x1_0000 % 256) + 0x100 * (c / 0x100 % 256) + c % 256
  {
    var x := c / 256;
    var y := x / 256;
    DivTwice(c, 256);
    assert x == 256 * y + x % 256 && y == 256 * (y / 256) + y % 256;
    QuotientIs(c, SHIFT, y / 256, 0x1_0000 * (y % 256) + 0x100 * (x % 256) + c % 256);
  }

  lemma {:induction false} CompactBytesAre(c: nat)
    ensures var n, x, y, z := c / SHIFT, c / 0x1_0000 % 256, c / 0x100 % 256, c % 256;
      CompactBytes(c) == if n == 0 then [] else if n == 1 then [x] else if n == 2 then [x, y] else [x, y, z] + Zeros(n - 3)
  {
  }

  lemma {:induction false} SmallUnscaled(m: nat, n: nat)
    requires n < 3
    ensures Unscaled(m, n) == if n == 0 then m / SHIFT else if n == 1 then m / 0x1_0000 else m / 0x100
  {
    assert Pow256(1) == 0x100 && Pow256(2) == 0x1_0000 && Pow256(3) == 0x100_0000;
  }

  /** SetCompact of a value without the sign bit. */
  lemma {:induction false} SetCompactValue(c: nat)
    requires c % SHIFT < 0x80_0000
    ensures SetCompact(c) == Unscaled(c % SHIFT, c / SHIFT)
  {
    var n := c / SHIFT;
    var x, y, z := c / 0x1_0000 % 256, c / 0x100 % 256, c % 256;
    Digits(c);
    CompactBytesAre(c);
    ThreeBytes(x, y, z);
    if n >= 3 {
      TrailingZeros([x, y, z], n - 3);
    } else {
      SmallUnscaled(c % SHIFT, n);
    }
  }

  /** The compact values that GetCompact produces. */
  predicate Canonical(c: nat) {
    var n, m := c / SHIFT, c % SHIFT;
    if n == 0 then m == 0
    else 0x8000 <= m < 0x80_0000 && (n == 1 ==> m % 0x1_0000 == 0) && (n == 2 ==> m % 0x100 == 0)
  }

  lemma {:induction false} SmallMantissa(x: nat, n: nat)
    requires n < 3
    ensures Mantissa(x, n) == if n == 0 then x * SHIFT else if n == 1 then x * 0x1_0000 else x * 0x100
  {
    assert Pow256(1) == 0x100 && Pow256(2) == 0x1_0000 && Pow256(3) == 0x100_0000;
  }

  lemma {:induction false} GetCompactCanonical(x: nat)
    ensures Canonical(GetCompact(x))
    ensures GetCompact(x) / SHIFT == MpiSize(x) && GetCompact(x) % SHIFT == Mantissa(x, MpiSize(x))
  {
    GetCompactValue(x);
    if x > 0 {
      MantissaRange(x);
      MpiSizeFits(x);
    }
    if MpiSize(x) < 3 {
      SmallMantissa(x, MpiSize(x));
    }
  }

  lemma {:induction false} LossBound(x: nat, p: nat)
    requires p >= 1 && 0x8000 * p <= x
    ensures x / p * p <= x && (x - x / p * p) * 0x8000 < x
  {
    assert x == x / p * p + x % p;
  }

  /** Encoding never rounds up, and loses less than one part in 2^15. */
  lemma {:induction false} CompactLoss(x: nat)
    ensures 0 <= SetCompact(GetCompact(x)) <= x
    ensures x > 0 ==> (x - SetCompact(GetCompact(x))) * 0x8000 < x
  {
    var n := MpiSize(x);
    GetCompactCanonical(x);
    SetCompactValue(GetCompact(x));
    MpiSizeFits(x);
    if n >= 3 {
      BoundInThrees(n);
      LossBound(x, Pow256(n - 3));
    } else {
      SmallMantissa(x, n);
      SmallUnscaled(GetCompact(x) % SHIFT, n);
    }
  }

  lemma {:induction false} BoundInThrees(n: nat)
    requires n >= 3
    ensures MpiBound(n - 1) == 0x8000 * Pow256(n - 3) && MpiBound(n) == 0x80_0000 * Pow256(n - 3)
  {
    assert Pow256(n - 1) == 256 * Pow256(n - 2) && Pow256(n - 2) == 256 * Pow256(n - 3);
  }

  lemma {:induction false} MantissaMonotone(x: nat, y: nat, n: nat)
    requires x <= y
    ensures Mantissa(x, n) <= Mantissa(y, n)
  {
    if n >= 3 {
      var p := Pow256(n - 3);
      assert x == x / p * p + x % p && y == y / p * p + y % p;
      Scaled(y / p + 1, x / p, p);
    } else {
      Scaled(x, y, Pow256(3 - n));
    }
  }

  /** Encoding is monotone. */
  lemma {:induction false} CompactMonotone(x: nat, y: nat)
    requires x <= y
    ensures GetCompact(x) <= GetCompact(y)
  {
    GetCompactCanonical(x);
    GetCompactCanonical(y);
    MpiSizeMonotone(x, y);
    MantissaMonotone(x, y, MpiSize(x));
  }

  /** A canonical value stands for a number of its own size and mantissa. */
  lemma {:induction false} CanonicalSize(c: nat)
    requires Canonical(c)
    ensures SetCompact(c) >= 0 && MpiSize(SetCompact(c)) == c / SHIFT && Mantissa(SetCompact(c), c / SHIFT) == c % SHIFT
  {
    var n, m := c / SHIFT, c % SHIFT;
    SetCompactValue(c);
    if n >= 3 {
      CanonicalLarge(m, n);
    } else {
      SmallUnscaled(m, n);
      SmallMantissa(m / (if n == 0 then SHIFT else if n == 1 then 0x1_0000 else 0x100), n);
    }
  }

  lemma {:induction false} CanonicalLarge(m: nat, n: nat)
    requires n >= 3 && 0x8000 <= m < 0x80_0000
    ensures Unscaled(m, n) >= 0 && MpiSize(Unscaled(m, n)) == n && Mantissa(Unscaled(m, n), n) == m
  {
    var p := Pow256(n - 3);
    BoundInThrees(n);
    Scaled(0x8000, m, p);
    Scaled(m + 1, 0x80_0000, p);
    MpiSizeIs(m * p, n);
    QuotientIs(m * p, p, m, 0);
  }

  /** Decoding is undone by encoding exactly on the canonical values. */
  lemma {:induction false} CompactExact(c: nat)
    ensures Canonical(c) <==> SetCompact(c) >= 0 && GetCompact(SetCompact(c)) == c
  {
    if Canonical(c) {
      CanonicalSize(c);
      GetCompactValue(SetCompact(c));
    } else if SetCompact(c) >= 0 {
      GetCompactCanonical(SetCompact(c));
    }
  }

  // ---------------------------------------------------------------- little-endian vectors

  /** setvch. */
  function SetVch(v: seq<nat>): int
    requires IsBytes(v)
  {
    FromMpi(Reversed(v))
  }

  /** getvch of a non-negative number. */
  function GetVch(x: nat): (v: seq<nat>)
    ensures IsBytes(v)
  {
    Reversed(Mpi(x))
  }

  /** getvch and setvch are inverse on non-negative numbers. */
  lemma {:induction false} VchRoundTrip(x: nat)
    ensures SetVch(GetVch(x)) == x
  {
    assert Reversed(Reversed(Mpi(x))) == Mpi(x);
    MpiRoundTrip(x);
  }

  lemma {:induction false} LeadingZeroByte(x: nat, n: nat)
    requires n >= 1 && x < Pow256(n - 1)
    ensures BytesBE(x, n) == [0] + BytesBE(x, n - 1)
  {
    if n > 1 {
      LeadingZeroByte(x / 256, n - 1);
    }
  }

  lemma {:induction false} HighFirstByte(x: nat, n: nat, k: nat)
    requires n >= 1 && k * Pow256(n - 1) <= x < Pow256(n)
    ensures BytesBE(x, n)[0] >= k
  {
    if n > 1 {
      Times256(k, Pow256(n - 2));
      HighFirstByte(x / 256, n - 1, k);
      assert BytesBE(x, n)[0] == BytesBE(x / 256, n - 1)[0];
    }
  }
}
