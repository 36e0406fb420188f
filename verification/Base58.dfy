/** Base58 (base58.cpp): the printer and parser, their checksummed forms, and addresses. */
module Base58 {
  import opened Basics
  import opened BigNum

  // ---------------------------------------------------------------- numerals in any base

  function Value(base: nat, s: seq<nat>): nat {
    if s == [] then 0 else base * Value(base, s[..|s| - 1]) + s[|s| - 1]
  }

  /** The digits of x, most significant first, without leading zeros. */
  function Digits(base: nat, x: nat): (s: seq<nat>)
    requires base >= 2
    decreases x
  {
    if x == 0 then [] else
      Shrinks(x, base);
      Digits(base, x / base) + [x % base]
  }

  lemma {:induction false} Shrinks(x: nat, base: nat)
    requires base >= 2 && x > 0
    ensures 0 <= x / base < x
  {
    assert x == x / base * base + x % base;
    Scaled(x, x / base, base);
  }

  ghost predicate Numeral(base: nat, s: seq<nat>) {
    forall i :: 0 <= i < |s| ==> s[i] < base
  }

  lemma {:induction false} ValueSnoc(base: nat, s: seq<nat>, d: nat)
    ensures Value(base, s + [d]) == base * Value(base, s) + d
  {
    assert (s + [d])[..|s|] == s;
  }

  lemma {:induction false} DivMod(x: nat, base: nat)
    requires base >= 1
    ensures x == base * (x / base) + x % base && 0 <= x % base < base
  {
  }

  lemma {:induction false} OneDigitMore(base: nat, s: seq<nat>, q: nat, d: nat)
    requires Numeral(base, s) && Value(base, s) == q && d < base && (q == 0 ==> s == [] && d > 0)
    requires q > 0 ==> s != [] && s[0] != 0
    ensures Numeral(base, s + [d]) && Value(base, s + [d]) == base * q + d && (s + [d])[0] != 0
  {
    ValueSnoc(base, s, d);
  }

  lemma {:induction false} DigitsFacts(base: nat, x: nat)
    requires base >= 2
    ensures Numeral(base, Digits(base, x)) && Value(base, Digits(base, x)) == x
    ensures x == 0 <==> Digits(base, x) == []
    ensures x > 0 ==> Digits(base, x)[0] != 0
    decreases x
  {
    if x > 0 {
      Shrinks(x, base);
      DivMod(x, base);
      var q, d := x / base, x % base;
      DigitsFacts(base, q);
      if q == 0 {
        assert base * q == 0;
      }
      OneDigitMore(base, Digits(base, q), q, d);
    }
  }

  lemma {:induction false} DigitsSnoc(base: nat, q: nat, d: nat)
    requires base >= 2 && d < base && base * q + d > 0
    ensures Digits(base, base * q + d) == Digits(base, q) + [d]
  {
    QuotientIs(base * q + d, base, q, d);
  }

  /** A numeral without leading zeros is the one Digits gives for its value. */
  lemma {:induction false} DigitsUnique(base: nat, s: seq<nat>)
    requires base >= 2 && Numeral(base, s) && (s != [] ==> s[0] != 0)
    ensures Digits(base, Value(base, s)) == s
    ensures s != [] ==> Value(base, s) > 0
  {
    if s != [] {
      var k := |s| - 1;
      var t, d := s[..k], s[k];
      assert s == t + [d];
      DigitsUnique(base, t);
      ValueSnoc(base, t, d);
      if k > 0 {
        Scaled(1, Value(base, t), base);
      }
      DigitsSnoc(base, Value(base, t), d);
    }
  }

  lemma {:induction false} LeadingZerosNoValue(base: nat, z: nat, s: seq<nat>)
    ensures Value(base, Zeros(z) + s) == Value(base, s)
    decreases |s|, z
  {
    var t := Zeros(z) + s;
    if s != [] {
      LeadingZerosNoValue(base, z, s[..|s| - 1]);
      assert t[..|t| - 1] == Zeros(z) + s[..|s| - 1];
    } else if z > 0 {
      LeadingZerosNoValue(base, z - 1, s);
      assert t[..|t| - 1] == Zeros(z - 1) + s;
    }
  }

  /** How many zeros a sequence starts with. */
  function Lead(s: seq<nat>): (z: nat)
    ensures z <= |s| && (z < |s| ==> s[z] != 0) && forall i :: 0 <= i < z ==> s[i] == 0
  {
    if s == [] || s[0] != 0 then 0 else
      assert forall i :: 1 <= i < |s| ==> s[i] == s[1..][i - 1];
      1 + Lead(s[1..])
  }

  lemma {:induction false} LeadIs(z: nat, s: seq<nat>)
    requires s != [] ==> s[0] != 0
    ensures Lead(Zeros(z) + s) == z && (Zeros(z) + s)[z..] == s
  {
    var t := Zeros(z) + s;
    assert s != [] ==> t[z] == s[0];
    assert forall i :: 0 <= i < z ==> t[i] == 0;
  }

  lemma {:induction false} SplitZeros(s: seq<nat>)
    ensures s == Zeros(Lead(s)) + s[Lead(s)..]
  {
  }

  // ---------------------------------------------------------------- from one base to the other

  /** Zeros in front are kept one for one; the rest is converted as a number. */
  function Convert(from: nat, to: nat, s: seq<nat>): seq<nat>
    requires to >= 2
  {
    Zeros(Lead(s)) + Digits(to, Value(from, s))
  }

  lemma {:induction false} ConvertNumeral(from: nat, to: nat, s: seq<nat>)
    requires to >= 2
    ensures Numeral(to, Convert(from, to, s))
  {
    DigitsFacts(to, Value(from, s));
  }

  /** Converting there and back gives the numeral back, leading zeros included. */
  lemma {:induction false} ConvertBack(from: nat, to: nat, s: seq<nat>)
    requires from >= 2 && to >= 2 && Numeral(from, s)
    ensures Convert(to, from, Convert(from, to, s)) == s
  {
    var z, rest := Lead(s), s[Lead(s)..];
    var x := Value(from, s);
    var d := Digits(to, x);
    SplitZeros(s);
    LeadingZerosNoValue(from, z, rest);
    DigitsFacts(to, x);
    LeadIs(z, d);
    LeadingZerosNoValue(to, z, d);
    DigitsUnique(from, rest);
  }

  // ---------------------------------------------------------------- the alphabet

  /** The position of a character in pszBase58: 1 to 9, A to Z without I and O, a to z without l. */
  function DigitOf(c: char): (d: Option<nat>)
    ensures d.Some? ==> d.value < 58
  {
    var n := c as int;
    if 49 <= n <= 57 then Some(n - 49)
    else if 65 <= n <= 72 then Some(n - 65 + 9)
    else if 74 <= n <= 78 then Some(n - 74 + 17)
    else if 80 <= n <= 90 then Some(n - 80 + 22)
    else if 97 <= n <= 107 then Some(n - 97 + 33)
    else if 109 <= n <= 122 then Some(n - 109 + 44)
    else None
  }

  function CharOf(d: nat): (c: char)
    requires d < 58
    ensures DigitOf(c) == Some(d)
  {
    if d < 9 then (d + 49) as char
    else if d < 17 then (d - 9 + 65) as char
    else if d < 22 then (d - 17 + 74) as char
    else if d < 33 then (d - 22 + 80) as char
    else if d < 44 then (d - 33 + 97) as char
    else (d - 44 + 109) as char
  }

  lemma {:induction false} CharOfDigit(c: char)
    requires DigitOf(c).Some?
    ensures CharOf(DigitOf(c).value) == c
  {
  }

  /** The alphabet: letters and digits without 0, I, O and l. */
  lemma {:induction false} InAlphabet(c: char)
    ensures DigitOf(c).Some? <==>
      ('0' <= c <= '9' || 'A' <= c <= 'Z' || 'a' <= c <= 'z') && c != '0' && c != 'I' && c != 'O' && c != 'l'
  {
    if c < 'A' {
    } else {
      assert 'A' as int == 65 && 'a' as int == 97;
    }
  }

  lemma {:induction false} DigitGrows(c: char, d: char)
    requires c < d && DigitOf(c).Some? && DigitOf(d).Some?
    ensures DigitOf(c).value < DigitOf(d).value
  {
  }

  /** Digits in numeric order are characters in ASCII order, and each of the 58 occurs. */
  lemma {:induction false} Alphabet(c: char, d: char)
    requires DigitOf(c).Some? && DigitOf(d).Some?
    ensures DigitOf(c).value < DigitOf(d).value <==> c < d
    ensures forall n :: 0 <= n < 58 ==> exists x: char :: DigitOf(x) == Some(n)
  {
    if c < d {
      DigitGrows(c, d);
    } else if d < c {
      DigitGrows(d, c);
    }
    forall n | 0 <= n < 58 ensures exists x: char :: DigitOf(x) == Some(n) {
      assert DigitOf(CharOf(n)) == Some(n);
    }
  }

  function Chars(s: seq<nat>): (r: string)
    requires forall i :: 0 <= i < |s| ==> s[i] < 58
    ensures |r| == |s| && forall i :: 0 <= i < |s| ==> r[i] == CharOf(s[i])
  {
    seq(|s|, i requires 0 <= i < |s| => CharOf(s[i]))
  }

  /** Every character is in the alphabet. */
  predicate OverAlphabet(str: string) {
    forall i :: 0 <= i < |str| ==> DigitOf(str[i]).Some?
  }

  function DigitsOf(str: string): (s: seq<nat>)
    requires OverAlphabet(str)
    ensures |s| == |str| && forall i :: 0 <= i < |s| ==> s[i] < 58 && CharOf(s[i]) == str[i]
  {
    assert forall i :: 0 <= i < |str| ==> CharOf(DigitOf(str[i]).value) == str[i] by {
      forall i | 0 <= i < |str| ensures CharOf(DigitOf(str[i]).value) == str[i] {
        CharOfDigit(str[i]);
      }
    }
    seq(|str|, i requires 0 <= i < |str| => DigitOf(str[i]).value)
  }

  lemma {:induction false} DigitsOfChars(s: seq<nat>)
    requires forall i :: 0 <= i < |s| ==> s[i] < 58
    ensures OverAlphabet(Chars(s)) && DigitsOf(Chars(s)) == s
  {
    var r := Chars(s);
    forall i | 0 <= i < |r| ensures DigitOf(r[i]) == Some(s[i]) { }
  }

  // ---------------------------------------------------------------- numbers and byte vectors

  lemma {:induction false} SameValue(s: seq<nat>)
    ensures Value(256, s) == ValueBE(s)
  {
    if s != [] {
      SameValue(s[..|s| - 1]);
    }
  }

  /** The sign byte of getvch is dropped where there is one. */
  function Trimmed(v: seq<nat>): seq<nat> {
    if |v| >= 2 && v[|v| - 1] == 0 && v[|v| - 2] >= 0x80 then v[..|v| - 1] else v
  }

  /** Without the sign byte, getvch gives the plain bytes. */
  lemma {:induction false} TrimmedVch(x: nat)
    ensures Reversed(Trimmed(GetVch(x))) == Digits(256, x)
  {
    var n := MpiSize(x);
    MpiSizeFits(x);
    MpiBoundBelowPow(n);
    ValueOfBytes(x, n);
    var m := Mpi(x);
    if x > 0 && x < Pow256(n - 1) {
      assert Pow256(0) == 1;
      LeadingZeroByte(x, n);
      HighFirstByte(x, n - 1, 0x80);
      ValueOfBytes(x, n - 1);
      var b := BytesBE(x, n - 1);
      assert Reversed(Trimmed(GetVch(x))) == b;
      SameValue(b);
      DigitsUnique(256, b);
    } else {
      if x > 0 {
        HighFirstByte(x, n, 1);
      }
      assert Reversed(GetVch(x)) == m;
      SameValue(m);
      DigitsUnique(256, m);
    }
  }

  // ---------------------------------------------------------------- encoding

  /** The encoding of a byte string. */
  function Encoded(b: seq<nat>): string
    requires IsBytes(b)
  {
    EncodedOk(b);
    Chars(Convert(256, 58, b))
  }

  lemma {:induction false} EncodedOk(b: seq<nat>)
    ensures forall i :: 0 <= i < |Convert(256, 58, b)| ==> Convert(256, 58, b)[i] < 58
  {
    ConvertNumeral(256, 58, b);
  }

  lemma {:induction false} PositiveVch(b: seq<nat>)
    requires IsBytes(b)
    ensures IsBytes(Reversed(b) + [0]) && SetVch(Reversed(b) + [0]) == Value(256, b)
  {
    assert Reversed(Reversed(b) + [0]) == Zeros(1) + b;
    LeadingZerosNoValue(256, 1, b);
    SameValue(Zeros(1) + b);
  }

  /** EncodeBase58. */
  method EncodeBase58(b: seq<nat>) returns (str: string)
    requires IsBytes(b)
    ensures str == Encoded(b)
  {
    PositiveVch(b);
    var vchTmp := Reversed(b) + [0];
    var bn := SetVch(vchTmp);
    ghost var x := bn;
    var digits: seq<nat> := [];
    while bn > 0
      invariant bn >= 0 && (forall i :: 0 <= i < |digits| ==> digits[i] < 58)
      invariant Digits(58, bn) + Reversed(digits) == Digits(58, x)
      decreases bn
    {
      assert Reversed(digits + [bn % 58]) == [bn % 58] + Reversed(digits);
      digits := digits + [bn % 58];
      bn := bn / 58;
    }
    assert Reversed(digits) == Digits(58, x);
    ghost var body := digits;
    var p := 0;
    while p < |b| && b[p] == 0
      invariant p <= Lead(b) && digits == body + Zeros(p)
    {
      assert Zeros(p) + [0] == Zeros(p + 1);
      digits := digits + [0];
      p := p + 1;
    }
    assert p == Lead(b);
    assert Reversed(body + Zeros(p)) == Zeros(p) + Reversed(body);
    EncodedOk(b);
    return Chars(Reversed(digits));
  }

  // ---------------------------------------------------------------- decoding

  /** isspace. */
  predicate IsSpace(c: char) { c == ' ' || 9 <= c as int <= 13 }

  /** The first position from i on that holds no space. */
  function SkipSpaces(str: string, i: nat): (j: nat)
    requires i <= |str|
    ensures i <= j <= |str| && (j < |str| ==> !IsSpace(str[j])) && forall k :: i <= k < j ==> IsSpace(str[k])
    decreases |str| - i
  {
    if i < |str| && IsSpace(str[i]) then SkipSpaces(str, i + 1) else i
  }

  /** The first position from i on that holds no character of the alphabet. */
  function SkipDigits(str: string, i: nat): (j: nat)
    requires i <= |str|
    ensures i <= j <= |str| && (j < |str| ==> DigitOf(str[j]).None?) && forall k :: i <= k < j ==> DigitOf(str[k]).Some?
    decreases |str| - i
  {
    if i < |str| && DigitOf(str[i]).Some? then SkipDigits(str, i + 1) else i
  }

  /** The part of the string between the spaces in front and the first foreign character. */
  function Body(str: string): (r: string)
    ensures OverAlphabet(r)
  {
    str[SkipSpaces(str, 0)..SkipDigits(str, SkipSpaces(str, 0))]
  }

  /** Spaces around a word over the alphabet, and nothing else. */
  predicate WellFormedBase58(str: string) {
    SkipSpaces(str, SkipDigits(str, SkipSpaces(str, 0))) == |str|
  }

  /** The decoding of a string; the string is a C string without its terminator. */
  function Decoded(str: string): Option<seq<nat>> {
    if WellFormedBase58(str) then Some(Convert(58, 256, DigitsOf(Body(str)))) else None
  }

  /** DecodeBase58. */
  method DecodeBase58(str: string) returns (r: Option<seq<nat>>)
    ensures r == Decoded(str)
  {
    var psz := ScanSpaces(str, 0);
    var bn, p := ScanDigits(str, psz);
    LeadOfChars(str, psz, p);
    if p < |str| {
      p := ScanSpaces(str, p);
      if p < |str| {
        return None;
      }
    }
    var vchTmp := Trimmed(GetVch(bn));
    TrimmedVch(bn);
    var nLeadingZeros := CountOnes(str, psz);
    return Some(Zeros(nLeadingZeros) + Reversed(vchTmp));
  }

  method ScanSpaces(str: string, i: nat) returns (j: nat)
    requires i <= |str|
    ensures j == SkipSpaces(str, i)
  {
    j := i;
    while j < |str| && IsSpace(str[j])
      invariant i <= j <= |str| && SkipSpaces(str, j) == SkipSpaces(str, i)
    {
      j := j + 1;
    }
  }

  /** The loop that reads digits, with the number they form. */
  method ScanDigits(str: string, i: nat) returns (bn: nat, p: nat)
    requires i <= |str|
    ensures p == SkipDigits(str, i) && OverAlphabet(str[i..p]) && bn == Value(58, DigitsOf(str[i..p]))
  {
    bn, p := 0, i;
    while p < |str| && DigitOf(str[p]).Some?
      invariant i <= p <= |str| && SkipDigits(str, p) == SkipDigits(str, i)
      invariant OverAlphabet(str[i..p]) && bn == Value(58, DigitsOf(str[i..p]))
    {
      var d := DigitOf(str[p]).value;
      NextDigit(str, i, p);
      bn := bn * 58 + d;
      p := p + 1;
    }
  }

  lemma {:induction false} NextDigit(str: string, i: nat, p: nat)
    requires i <= p < |str| && OverAlphabet(str[i..p]) && DigitOf(str[p]).Some?
    ensures OverAlphabet(str[i..p + 1])
    ensures Value(58, DigitsOf(str[i..p + 1])) == 58 * Value(58, DigitsOf(str[i..p])) + DigitOf(str[p]).value
  {
    var t := str[i..p + 1];
    assert t == str[i..p] + [str[p]];
    assert DigitsOf(t) == DigitsOf(str[i..p]) + [DigitOf(str[p]).value];
    ValueSnoc(58, DigitsOf(str[i..p]), DigitOf(str[p]).value);
  }

  /** The loop that counts the characters for zero. */
  method CountOnes(str: string, i: nat) returns (n: nat)
    requires i <= |str|
    ensures i + n <= |str| && (forall k :: i <= k < i + n ==> str[k] == CharOf(0)) && (i + n < |str| ==> str[i + n] != CharOf(0))
  {
    n := 0;
    while i + n < |str| && str[i + n] == CharOf(0)
      invariant i + n <= |str| && forall k :: i <= k < i + n ==> str[k] == CharOf(0)
    {
      n := n + 1;
    }
  }

  ghost predicate SpelledAt(str: string, i: nat, d: seq<nat>, k: nat)
    requires k < |d|
  {
    i + k < |str| && d[k] < 58 && str[i + k] == CharOf(d[k])
  }

  lemma {:induction false} Spelled(str: string, i: nat, e: nat, k: nat)
    requires i <= e <= |str| && OverAlphabet(str[i..e]) && k < e - i
    ensures SpelledAt(str, i, DigitsOf(str[i..e]), k)
  {
    assert str[i..e][k] == str[i + k];
  }

  /** Counting those characters in the string is counting zero digits in its body. */
  lemma {:induction false} LeadOfChars(str: string, i: nat, e: nat)
    requires i <= e <= |str| && OverAlphabet(str[i..e]) && (e < |str| ==> DigitOf(str[e]).None?)
    ensures var z := Lead(DigitsOf(str[i..e]));
      && i + z <= |str| && (forall k :: i <= k < i + z ==> str[k] == CharOf(0)) && (i + z < |str| ==> str[i + z] != CharOf(0))
  {
    var d := DigitsOf(str[i..e]);
    forall k | 0 <= k < |d| ensures SpelledAt(str, i, d, k) {
      Spelled(str, i, e, k);
    }
    LeadAt(str, i, e, d);
  }

  lemma {:induction false} LeadAt(str: string, i: nat, e: nat, d: seq<nat>)
    requires i <= e <= |str| && |d| == e - i && (e < |str| ==> DigitOf(str[e]).None?)
    requires forall k :: 0 <= k < |d| ==> SpelledAt(str, i, d, k)
    ensures forall k :: i <= k < i + Lead(d) ==> str[k] == CharOf(0)
    ensures i + Lead(d) < |str| ==> str[i + Lead(d)] != CharOf(0)
  {
    var z := Lead(d);
    forall k | i <= k < i + z ensures str[k] == CharOf(0) {
      assert SpelledAt(str, i, d, k - i);
    }
    if z < |d| {
      assert SpelledAt(str, i, d, z);
    }
  }

  // ---------------------------------------------------------------- round trips

  lemma {:induction false} PlainBody(str: string)
    requires OverAlphabet(str)
    ensures WellFormedBase58(str) && Body(str) == str
  {
    assert forall i :: 0 <= i < |str| ==> !IsSpace(str[i]);
    assert SkipSpaces(str, 0) == 0;
    assert SkipDigits(str, 0) == |str|;
  }

  /** Decoding an encoded byte string gives it back. */
  lemma {:induction false} DecodeEncoded(b: seq<nat>)
    requires IsBytes(b)
    ensures Decoded(Encoded(b)) == Some(b)
  {
    var d := Convert(256, 58, b);
    EncodedOk(b);
    DigitsOfChars(d);
    PlainBody(Encoded(b));
    ConvertBack(256, 58, b);
  }

  /** Encoding the decoding of a string over the alphabet gives it back. */
  lemma {:induction false} EncodeDecoded(str: string)
    requires OverAlphabet(str)
    ensures Decoded(str).Some? && IsBytes(Decoded(str).value) && Encoded(Decoded(str).value) == str
  {
    PlainBody(str);
    var d := DigitsOf(str);
    ConvertNumeral(58, 256, d);
    ConvertBack(58, 256, d);
    assert Chars(d) == str;
  }

  /** A space, tab, line feed, vertical tab, form feed or carriage return. */
  ghost predicate Blank(c: char) {
    c == ' ' || c == '\t' || c == '\n' || c as int == 11 || c as int == 12 || c == '\r'
  }

  /** The word from i to e over the alphabet, between blanks. */
  ghost predicate Padded(str: string, i: nat, e: nat) {
    && i <= e <= |str| && OverAlphabet(str[i..e])
    && (forall k :: 0 <= k < i ==> Blank(str[k])) && (forall k :: e <= k < |str| ==> Blank(str[k]))
  }

  lemma {:induction false} SpaceIff(c: char)
    ensures IsSpace(c) <==> Blank(c)
    ensures Blank(c) ==> DigitOf(c).None?
  {
  }

  lemma {:induction false} PaddedBody(str: string, i: nat, e: nat)
    requires Padded(str, i, e)
    ensures WellFormedBase58(str) && Body(str) == str[i..e]
  {
    forall k | 0 <= k < |str| ensures IsSpace(str[k]) <==> k < i || k >= e {
      SpaceIff(str[k]);
      if i <= k < e {
        assert str[k] == str[i..e][k - i];
      }
    }
    forall k | 0 <= k < |str| ensures DigitOf(str[k]).Some? <==> i <= k < e {
      SpaceIff(str[k]);
      if i <= k < e {
        assert str[k] == str[i..e][k - i];
      }
    }
    var p := SkipSpaces(str, 0);
    assert p < |str| ==> !IsSpace(str[p]);
    if i < e {
      assert !IsSpace(str[i]);
      assert p == i;
    } else {
      assert p == |str|;
    }
    var q := SkipDigits(str, p);
    assert q < |str| ==> DigitOf(str[q]).None?;
    assert i < e && e < |str| ==> DigitOf(str[e]).None?;
    assert q == if i < e then e else |str|;
    assert SkipSpaces(str, q) == |str|;
    assert i == e ==> str[p..q] == [] == str[i..e];
  }

  /** A string decodes exactly if it is a word over the alphabet, which may be empty, with blanks around it,
      and then like the word alone. */
  lemma {:induction false} DecodesIff(str: string)
    ensures Decoded(str).Some? <==> exists i: nat, e: nat :: Padded(str, i, e)
    ensures forall i: nat, e: nat :: Padded(str, i, e) ==> Decoded(str) == Decoded(str[i..e])
  {
    forall i: nat, e: nat | Padded(str, i, e) ensures Decoded(str).Some? && Decoded(str) == Decoded(str[i..e]) {
      PaddedBody(str, i, e);
      PlainBody(str[i..e]);
    }
    if Decoded(str).Some? {
      var p := SkipSpaces(str, 0);
      var q := SkipDigits(str, p);
      forall k | 0 <= k < |str| && (k < p || k >= q) ensures Blank(str[k]) {
        SpaceIff(str[k]);
      }
      assert Padded(str, p, q);
    }
  }

  // ---------------------------------------------------------------- checksums

  /** The first four bytes of the double SHA-256 of a byte string. */
  type Checksum = seq<nat> -> seq<nat>

  ghost predicate FourBytes(hash: Checksum) {
    forall b :: |hash(b)| == 4 && IsBytes(hash(b))
  }

  /** EncodeBase58Check. */
  function EncodedCheck(hash: Checksum, b: seq<nat>): string
    requires IsBytes(b) && IsBytes(hash(b))
  {
    Encoded(b + hash(b))
  }

  /** DecodeBase58Check. */
  function DecodedCheck(hash: Checksum, str: string): Option<seq<nat>> {
    var r := Decoded(str);
    if r.None? || |r.value| < 4 then None
    else
      var b, sum := r.value[..|r.value| - 4], r.value[|r.value| - 4..];
      if hash(b) != sum then None else Some(b)
  }

  lemma {:induction false} CheckRoundTrip(hash: Checksum, b: seq<nat>)
    requires IsBytes(b) && FourBytes(hash)
    ensures IsBytes(hash(b)) && DecodedCheck(hash, EncodedCheck(hash, b)) == Some(b)
  {
    var all := b + hash(b);
    DecodeEncoded(all);
    assert all[..|all| - 4] == b && all[|all| - 4..] == hash(b);
  }

  /** What passes the checksum is what its encoding decodes to, so over the alphabet there is no
      second spelling. */
  lemma {:induction false} CheckUnique(hash: Checksum, str: string)
    requires OverAlphabet(str) && DecodedCheck(hash, str).Some?
    ensures var b := DecodedCheck(hash, str).value; IsBytes(b) && IsBytes(hash(b)) && EncodedCheck(hash, b) == str
  {
    EncodeDecoded(str);
    var all := Decoded(str).value;
    var b := DecodedCheck(hash, str).value;
    assert all == b + hash(b);
    assert forall i :: 0 <= i < |b| ==> b[i] == all[i];
    assert forall i :: 0 <= i < |hash(b)| ==> hash(b)[i] == all[|b| + i];
  }

  // ---------------------------------------------------------------- addresses

  const PUBKEY_ADDRESS := 25
  const SCRIPT_ADDRESS := 20
  const PUBKEY_ADDRESS_TEST := 111
  const SCRIPT_ADDRESS_TEST := 196

  datatype Destination = KeyId(id: seq<nat>) | ScriptId(id: seq<nat>) | NoDestination

  /** CBase58Data. */
  datatype Data = Data(version: nat, payload: seq<nat>)

  /** A 20-byte key or script id. */
  predicate IsDestination(d: Destination) {
    !d.NoDestination? && |d.id| == 20 && IsBytes(d.id)
  }

  /** CBitcoinAddress::Set. */
  function AddressOf(d: Destination, testNet: bool): Data
    requires IsDestination(d)
  {
    Data(match d
         case KeyId(_) => if testNet then PUBKEY_ADDRESS_TEST else PUBKEY_ADDRESS
         case ScriptId(_) => if testNet then SCRIPT_ADDRESS_TEST else SCRIPT_ADDRESS,
         d.id)
  }

  /** CBitcoinAddress::IsValid. */
  predicate IsValid(a: Data, testNet: bool) {
    || ((a.version == PUBKEY_ADDRESS || a.version == SCRIPT_ADDRESS) && !testNet && |a.payload| == 20)
    || ((a.version == PUBKEY_ADDRESS_TEST || a.version == SCRIPT_ADDRESS_TEST) && testNet && |a.payload| == 20)
  }

  /** CBitcoinAddress::Get. */
  function Get(a: Data, testNet: bool): Destination {
    if !IsValid(a, testNet) then NoDestination
    else if a.version == PUBKEY_ADDRESS || a.version == PUBKEY_ADDRESS_TEST then KeyId(a.payload)
    else ScriptId(a.payload)
  }

  /** CBase58Data::ToString. */
  function ToString(hash: Checksum, a: Data): string
    requires a.version < 256 && IsBytes(a.payload) && IsBytes(hash([a.version] + a.payload))
  {
    EncodedCheck(hash, [a.version] + a.payload)
  }

  /** CBase58Data::SetString. */
  function SetString(hash: Checksum, str: string): Option<Data> {
    var r := DecodedCheck(hash, str);
    if r.None? || r.value == [] then None else Some(Data(r.value[0], r.value[1..]))
  }

  /** An address printed and parsed again is the same destination on its own network, and none on
      the other. */
  lemma {:induction false} AddressRoundTrip(hash: Checksum, d: Destination, testNet: bool)
    requires IsDestination(d) && FourBytes(hash)
    ensures var a := AddressOf(d, testNet);
      && IsBytes(hash([a.version] + a.payload)) && SetString(hash, ToString(hash, a)) == Some(a)
      && Get(a, testNet) == d && Get(a, !testNet) == NoDestination
  {
    var a := AddressOf(d, testNet);
    var b := [a.version] + a.payload;
    CheckRoundTrip(hash, b);
    assert b[0] == a.version && b[1..] == a.payload;
  }

  /** A printed address stands for its version byte (25 for a key and 20 for a script on the main
      network, 111 and 196 on the test network), the id, and the checksum of both. */
  lemma {:induction false} AddressBytes(hash: Checksum, d: Destination, testNet: bool)
    requires IsDestination(d) && FourBytes(hash)
    ensures var version := if d.KeyId? then (if testNet then 111 else 25) else if testNet then 196 else 20;
      var a := AddressOf(d, testNet);
      && a.version < 256 && IsBytes(a.payload) && IsBytes(hash([a.version] + a.payload))
      && Decoded(ToString(hash, a)) == Some([version] + d.id + hash([version] + d.id))
  {
    var a := AddressOf(d, testNet);
    var b := [a.version] + a.payload;
    assert IsBytes(hash(b));
    DecodeEncoded(b + hash(b));
  }

  /** What SetString takes from a string: a version byte and a payload, with the checksum of both after them. */
  lemma {:induction false} SetStringIff(hash: Checksum, str: string, a: Data)
    requires FourBytes(hash)
    ensures SetString(hash, str) == Some(a) <==>
      Decoded(str) == Some([a.version] + a.payload + hash([a.version] + a.payload))
  {
    var b := [a.version] + a.payload;
    if Decoded(str) == Some(b + hash(b)) {
      assert (b + hash(b))[..|b|] == b && (b + hash(b))[|b|..] == hash(b);
      assert b[1..] == a.payload;
    }
    if SetString(hash, str) == Some(a) {
      var all, c := Decoded(str).value, DecodedCheck(hash, str).value;
      assert all == c + hash(c) && c == [c[0]] + c[1..];
    }
  }

  lemma {:induction false} GetIff(a: Data, d: Destination, testNet: bool)
    requires !d.NoDestination?
    ensures var version := if d.KeyId? then (if testNet then 111 else 25) else if testNet then 196 else 20;
      Get(a, testNet) == d <==> |d.id| == 20 && a == Data(version, d.id)
  {
  }

  /** A string parses to an address of a destination exactly if it stands for these bytes: on each network
      only its own two version bytes do, and only twenty bytes after them. */
  lemma {:induction false} ParsesIff(hash: Checksum, str: string, d: Destination, testNet: bool)
    requires !d.NoDestination? && FourBytes(hash)
    ensures var version := if d.KeyId? then (if testNet then 111 else 25) else if testNet then 196 else 20;
      SetString(hash, str).Some? && Get(SetString(hash, str).value, testNet) == d <==>
        |d.id| == 20 && Decoded(str) == Some([version] + d.id + hash([version] + d.id))
  {
    var version := if d.KeyId? then (if testNet then 111 else 25) else if testNet then 196 else 20;
    SetStringIff(hash, str, Data(version, d.id));
    if SetString(hash, str).Some? {
      GetIff(SetString(hash, str).value, d, testNet);
    }
  }
}
