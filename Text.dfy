/**
  Text primitives the rendering code relies on: 32-bit integers, decimal
  rendering of integers (`int.ToString()`), zero-padded fixed-width fields
  (the `dd`, `MM`, `yyyy`, `HH`, `mm`, `ss` custom format specifiers), their
  parsers, and the three-way comparison of strings used by `CompareTo`.
*/
module Text {
  import opened Results

  /** The C# `int` type. */
  newtype int32 = x: int | -0x8000_0000 <= x < 0x8000_0000

  const MinInt32: int := -0x8000_0000
  const MaxInt32: int := 0x7FFF_FFFF
  const TwoTo32: int := 0x1_0000_0000

  /** Two's-complement wrap-around of a mathematical integer into 32 bits (C# unchecked arithmetic). */
  function Wrap32(x: int): (r: int32)
    ensures MinInt32 <= x <= MaxInt32 ==> r as int == x
    ensures MaxInt32 < x < MaxInt32 + TwoTo32 ==> r as int == x - TwoTo32
    ensures MinInt32 - TwoTo32 <= x < MinInt32 ==> r as int == x + TwoTo32
  {
    ((x + 0x8000_0000) % TwoTo32 - 0x8000_0000) as int32
  }

  /** The 32-bit two's-complement pattern of an `int32`, read as an unsigned number. */
  function Unsigned(x: int32): (u: nat)
    ensures u < TwoTo32
  {
    if x < 0 then x as int + TwoTo32 else x as int
  }

  /** The `int32` a 32-bit unsigned pattern stands for. */
  function Signed(u: nat): (x: int32)
    requires u < TwoTo32
    ensures Unsigned(x) == u
  {
    if u > MaxInt32 then (u - TwoTo32) as int32 else u as int32
  }

  function Pow2(k: nat): (p: nat)
    ensures p >= 1
  {
    if k == 0 then 1 else 2 * Pow2(k - 1)
  }

  /** Bitwise exclusive or of the low `k` bits of `a` and `b`, least significant bit first. */
  function XorBits(a: nat, b: nat, k: nat): (r: nat)
    ensures r < Pow2(k)
  {
    if k == 0 then 0
    else 2 * XorBits(a / 2, b / 2, k - 1) + (if a % 2 == b % 2 then 0 else 1)
  }

  lemma {:induction false} XorBitsCommutative(a: nat, b: nat, k: nat)
    ensures XorBits(a, b, k) == XorBits(b, a, k)
  {
    if k > 0 {
      XorBitsCommutative(a / 2, b / 2, k - 1);
    }
  }

  /** Exclusive or with zero keeps a `k`-bit number. */
  lemma {:induction false} XorBitsZero(a: nat, k: nat)
    requires a < Pow2(k)
    ensures XorBits(a, 0, k) == a
  {
    if k > 0 {
      XorBitsZero(a / 2, k - 1);
    }
  }

  lemma {:induction false} XorBitsSelf(a: nat, k: nat)
    ensures XorBits(a, a, k) == 0
  {
    if k > 0 {
      XorBitsSelf(a / 2, k - 1);
    }
  }

  lemma Pow2Of32()
    ensures Pow2(32) == TwoTo32
  {
    assert Pow2(8) == 256;
    assert Pow2(16) == 65536;
    assert Pow2(24) == 16777216;
  }

  /** The C# operator `^` on `int`: exclusive or of the two's-complement patterns. */
  function Xor32(a: int32, b: int32): (r: int32)
    ensures Unsigned(r) == XorBits(Unsigned(a), Unsigned(b), 32)
  {
    Pow2Of32();
    Signed(XorBits(Unsigned(a), Unsigned(b), 32))
  }

  lemma Xor32Commutative(a: int32, b: int32)
    ensures Xor32(a, b) == Xor32(b, a)
  {
    XorBitsCommutative(Unsigned(a), Unsigned(b), 32);
  }

  lemma Xor32Zero(a: int32)
    ensures Xor32(a, 0) == a
  {
    Pow2Of32();
    XorBitsZero(Unsigned(a), 32);
  }

  lemma Xor32Self(a: int32)
    ensures Xor32(a, a) == 0
  {
    XorBitsSelf(Unsigned(a), 32);
  }

  // ---------------------------------------------------------------- digits

  predicate IsDigit(c: char) { '0' <= c <= '9' }

  predicate AllDigits(s: string) { forall i :: 0 <= i < |s| ==> IsDigit(s[i]) }

  function DigitChar(d: nat): (c: char)
    requires d < 10
    ensures IsDigit(c) && DigitValue(c) == d
  {
    ('0' as int + d) as char
  }

  function DigitValue(c: char): nat
    requires IsDigit(c)
  {
    c as int - '0' as int
  }

  /** The value of a string of decimal digits, most significant first (empty is 0). */
  function DigitsValue(s: string): nat
    requires AllDigits(s)
  {
    if s == [] then 0 else DigitsValue(s[..|s| - 1]) * 10 + DigitValue(s[|s| - 1])
  }

  function Pow10(w: nat): (p: nat)
    ensures p >= 1
  {
    if w == 0 then 1 else 10 * Pow10(w - 1)
  }

  // ------------------------------------------------- fixed-width, zero-padded

  /** `n` written in exactly `width` decimal digits, with leading zeros. */
  function Padded(n: nat, width: nat): (s: string)
    requires n < Pow10(width)
    ensures |s| == width && AllDigits(s)
  {
    if width == 0 then [] else Padded(n / 10, width - 1) + [DigitChar(n % 10)]
  }

  /** Reading a padded field back gives the number that was written. */
  lemma {:induction false} PaddedRoundTrip(n: nat, width: nat)
    requires n < Pow10(width)
    ensures DigitsValue(Padded(n, width)) == n
  {
    if width > 0 {
      var s := Padded(n, width);
      PaddedRoundTrip(n / 10, width - 1);
      assert s[..|s| - 1] == Padded(n / 10, width - 1);
    }
  }

  // ------------------------------------------------------- int.ToString()

  /** Shortest decimal notation of a natural number. */
  function NatToString(n: nat): (s: string)
    ensures |s| > 0 && AllDigits(s)
    ensures |s| > 1 ==> s[0] != '0'
  {
    if n < 10 then [DigitChar(n)] else NatToString(n / 10) + [DigitChar(n % 10)]
  }

  /** `int.ToString()` with the invariant culture's minus sign. */
  function IntToString(i: int): (s: string)
    ensures |s| > 0 && ' ' !in s
    ensures s[0] == '-' <==> i < 0
    ensures var digits := if i < 0 then s[1..] else s;
      |digits| > 0 && AllDigits(digits) && (|digits| > 1 ==> digits[0] != '0')
  {
    if i < 0 then "-" + NatToString(-i) else NatToString(i)
  }

  /** Inverse of `NatToString`: a non-empty digit string, without leading zeros. */
  function ParseNat(s: string): (r: Option<nat>)
    ensures r.Some? ==> |s| > 0 && AllDigits(s)
  {
    if |s| > 0 && AllDigits(s) && (|s| == 1 || s[0] != '0') then Some(DigitsValue(s)) else None
  }

  /** Inverse of `IntToString`: an optional leading minus followed by a natural number. */
  function ParseInt(s: string): Option<int>
  {
    if |s| > 0 && s[0] == '-' then
      match ParseNat(s[1..])
      case Some(n) => if n == 0 then None else Some(-(n as int))
      case None => None
    else
      match ParseNat(s)
      case Some(n) => Some(n)
      case None => None
  }

  lemma {:induction false} NatToStringValue(n: nat)
    ensures DigitsValue(NatToString(n)) == n
  {
    if n >= 10 {
      var s := NatToString(n);
      NatToStringValue(n / 10);
      assert s[..|s| - 1] == NatToString(n / 10);
    }
  }

  lemma NatToStringRoundTrip(n: nat)
    ensures ParseNat(NatToString(n)) == Some(n)
  {
    NatToStringValue(n);
  }

  /** Every integer rendered by `IntToString` is read back by `ParseInt`. */
  lemma IntToStringRoundTrip(i: int)
    ensures ParseInt(IntToString(i)) == Some(i)
  {
    if i < 0 {
      var s := IntToString(i);
      assert s[1..] == NatToString(-i);
      NatToStringRoundTrip(-i);
    } else {
      NatToStringRoundTrip(i);
    }
  }

  // ------------------------------------------------------------- prefixes

  /** What is left of `s` after the literal `p`, if `s` starts with `p`. */
  function StripPrefix(s: string, p: string): (r: Option<string>)
    ensures r.Some? <==> |p| <= |s| && s[..|p|] == p
    ensures r.Some? ==> s == p + r.value
  {
    if |p| <= |s| && s[..|p|] == p then Some(s[|p|..]) else None
  }

  lemma StripPrefixOfConcat(p: string, rest: string)
    ensures StripPrefix(p + rest, p) == Some(rest)
  {
    assert (p + rest)[..|p|] == p;
    assert (p + rest)[|p|..] == rest;
  }

  /** What is left of `s` before the literal `q`, if `s` ends with `q`. */
  function StripSuffix(s: string, q: string): (r: Option<string>)
    ensures r.Some? <==> |q| <= |s| && s[|s| - |q|..] == q
    ensures r.Some? ==> s == r.value + q
  {
    if |q| <= |s| && s[|s| - |q|..] == q then Some(s[..|s| - |q|]) else None
  }

  lemma StripSuffixOfConcat(x: string, q: string)
    ensures StripSuffix(x + q, q) == Some(x)
  {
    assert (x + q)[|x|..] == q;
    assert (x + q)[..|x|] == x;
  }

  /** The part of `s` after its last space (all of `s` when it has none). */
  function AfterLastSpace(s: string): (t: string)
    ensures ' ' !in t
    ensures |t| <= |s| && t == s[|s| - |t|..]
  {
    if s == [] then []
    else if s[|s| - 1] == ' ' then []
    else AfterLastSpace(s[..|s| - 1]) + [s[|s| - 1]]
  }

  /** A token without spaces that follows a space is exactly what `AfterLastSpace` recovers. */
  lemma {:induction false} AfterLastSpaceOfToken(s: string, t: string)
    requires ' ' !in t
    ensures AfterLastSpace(s + " " + t) == t
  {
    if t != [] {
      var u := s + " " + t;
      assert u[..|u| - 1] == s + " " + t[..|t| - 1];
      AfterLastSpaceOfToken(s, t[..|t| - 1]);
      assert t == t[..|t| - 1] + [t[|t| - 1]];
    } else {
      assert (s + " " + t)[|s|] == ' ';
    }
  }

  // ------------------------------------------------------ string ordering

  /**
    Three-way comparison of strings by character code, returning -1, 0 or 1;
    the stand-in for the culture-sensitive `string.CompareTo`.
  */
  function CompareStrings(a: string, b: string): (r: int)
    ensures -1 <= r <= 1
  {
    if a == [] && b == [] then 0
    else if a == [] then -1
    else if b == [] then 1
    else if a[0] < b[0] then -1
    else if b[0] < a[0] then 1
    else CompareStrings(a[1..], b[1..])
  }

  /** Lexicographic order, stated directly: a proper prefix, or a first difference that is smaller. */
  ghost predicate LexLess(a: string, b: string)
  {
    (|a| < |b| && a == b[..|a|]) ||
    exists k :: 0 <= k < |a| && k < |b| && a[..k] == b[..k] && a[k] < b[k]
  }

  lemma {:induction false} LexLessStep(a: string, b: string)
    requires a != [] && b != [] && a[0] == b[0]
    ensures LexLess(a, b) <==> LexLess(a[1..], b[1..])
  {
    if LexLess(a, b) {
      if |a| < |b| && a == b[..|a|] {
        assert a[1..] == b[1..][..|a[1..]|];
      } else {
        var k :| 0 <= k < |a| && k < |b| && a[..k] == b[..k] && a[k] < b[k];
        assert k != 0;
        assert a[1..][..k - 1] == b[1..][..k - 1];
        assert a[1..][k - 1] < b[1..][k - 1];
      }
    }
    if LexLess(a[1..], b[1..]) {
      if |a[1..]| < |b[1..]| && a[1..] == b[1..][..|a[1..]|] {
        assert a == b[..|a|];
      } else {
        var k :| 0 <= k < |a[1..]| && k < |b[1..]| && a[1..][..k] == b[1..][..k] && a[1..][k] < b[1..][k];
        assert a[..k + 1] == b[..k + 1];
        assert a[k + 1] < b[k + 1];
      }
    }
  }

  /** `CompareStrings` is negative exactly on lexicographically smaller strings and zero exactly on equal ones. */
  lemma {:induction false} CompareStringsMeaning(a: string, b: string)
    ensures CompareStrings(a, b) == 0 <==> a == b
    ensures CompareStrings(a, b) < 0 <==> LexLess(a, b)
    ensures CompareStrings(a, b) > 0 <==> LexLess(b, a)
  {
    if a == [] && b == [] {
    } else if a == [] {
      assert a == b[..0];
      assert !LexLess(b, a);
    } else if b == [] {
      assert b == a[..0];
      assert !LexLess(a, b);
    } else if a[0] < b[0] {
      assert a[..0] == b[..0];
    } else if b[0] < a[0] {
      assert a[..0] == b[..0];
    } else {
      CompareStringsMeaning(a[1..], b[1..]);
      LexLessStep(a, b);
      LexLessStep(b, a);
      if a[1..] == b[1..] { assert a == [a[0]] + a[1..] && b == [b[0]] + b[1..]; }
    }
  }

  /** Swapping the arguments flips the sign of the comparison. */
  lemma {:induction false} CompareStringsAntisymmetric(a: string, b: string)
    ensures CompareStrings(a, b) == -CompareStrings(b, a)
  {
    if a != [] && b != [] && a[0] == b[0] {
      CompareStringsAntisymmetric(a[1..], b[1..]);
    }
  }

  /** The comparison is transitive. */
  lemma {:induction false} CompareStringsTransitive(a: string, b: string, c: string)
    requires CompareStrings(a, b) < 0 && CompareStrings(b, c) < 0
    ensures CompareStrings(a, c) < 0
  {
    if a != [] && b != [] && c != [] && a[0] == b[0] && b[0] == c[0] {
      CompareStringsTransitive(a[1..], b[1..], c[1..]);
    }
  }
}
