/** Integer rounding, counting and decimal text, shared by the quiz modules.
    JavaScript numbers are modelled as unbounded integers; the only
    non-integer operation the quiz uses is Math.round of a ratio. */
module Numeric {

  /** Math.round(a / b) for b > 0. Math.round(x) is floor(x + 1/2) and
      Dafny's `/` floors for a positive divisor, so (2a + b) / 2b rounds the
      exact ratio half up. */
  function RoundDiv(a: int, b: int): (r: int)
    requires b > 0
    ensures 2 * b * r <= 2 * a + b < 2 * b * r + 2 * b
  {
    (2 * a + b) / (2 * b)
  }

  /** Math.round(a / b * 100), the percentage the quiz shows, taken on the
      exact ratio: the integer nearest to 100a/b, halves rounded up. */
  function RoundPercent(a: int, b: int): (r: int)
    requires b > 0
    ensures 2 * b * r <= 200 * a + b < 2 * b * r + 2 * b
    ensures 0 <= a <= b ==> 0 <= r <= 100
    ensures a == b ==> r == 100
    ensures a == 0 ==> r == 0
  {
    var r := RoundDiv(100 * a, b);
    RoundDivBounds(100 * a, b, 100, r);
    r
  }

  /** Rounding a/b lands at 0 for a = 0, and at or below q when a <= q * b. */
  lemma RoundDivBounds(a: int, b: int, q: int, r: int)
    requires b > 0 && r == RoundDiv(a, b)
    ensures 0 <= a ==> 0 <= r
    ensures a <= q * b ==> r <= q
    ensures a == q * b ==> r == q
    ensures a == 0 ==> r == 0
  {
    if 0 <= a {
      RoundDivNonNegative(a, b, r);
    }
    if a <= q * b {
      RoundDivAtMost(a, b, q, r);
      if a == q * b {
        RoundDivAtLeast(a, b, q, r);
      }
    }
    if a == 0 {
      assert a == 0 * b;
      RoundDivAtMost(a, b, 0, r);
      RoundDivAtLeast(a, b, 0, r);
    }
  }

  /** A non-negative numerator rounds to a non-negative quotient. */
  lemma RoundDivNonNegative(a: int, b: int, r: int)
    requires b > 0 && r == RoundDiv(a, b) && 0 <= a
    ensures 0 <= r
  {
    var m := 2 * b;
    assert m * r + m == m * (r + 1);
    assert m * 0 < m * (r + 1);
    MulCancelLt(m, 0, r + 1);
  }

  /** A numerator of at most q * b rounds to at most q. */
  lemma RoundDivAtMost(a: int, b: int, q: int, r: int)
    requires b > 0 && r == RoundDiv(a, b) && a <= q * b
    ensures r <= q
  {
    var m := 2 * b;
    assert m * (q + 1) == 2 * (q * b) + 2 * b;
    assert m * r < m * (q + 1);
    MulCancelLt(m, r, q + 1);
  }

  /** A numerator of at least q * b rounds to at least q. */
  lemma RoundDivAtLeast(a: int, b: int, q: int, r: int)
    requires b > 0 && r == RoundDiv(a, b) && q * b <= a
    ensures q <= r
  {
    var m := 2 * b;
    assert m * q == 2 * (q * b);
    assert m * r + m == m * (r + 1);
    assert m * q < m * (r + 1);
    MulCancelLt(m, q, r + 1);
  }

  /** A positive factor can be cancelled from a strict inequality. */
  lemma MulCancelLt(x: int, y: int, z: int)
    requires x > 0 && x * y < x * z
    ensures y < z
  {
  }

  /** The number of true entries, counted from the left as a forEach loop does. */
  function CountTrue(bs: seq<bool>): (n: nat)
    ensures n <= |bs|
  {
    if bs == [] then 0
    else CountTrue(bs[..|bs| - 1]) + (if bs[|bs| - 1] then 1 else 0)
  }

  /** CountTrue is the number of positions that hold true. */
  lemma {:induction false} CountTrueIsCardinality(bs: seq<bool>)
    ensures CountTrue(bs) == |set i | 0 <= i < |bs| && bs[i]|
  {
    if bs != [] {
      var init := bs[..|bs| - 1];
      CountTrueIsCardinality(init);
      var before := set i | 0 <= i < |init| && init[i];
      var after := set i | 0 <= i < |bs| && bs[i];
      if bs[|bs| - 1] {
        assert after == before + {|bs| - 1};
      } else {
        assert after == before;
      }
    }
  }

  // ---------------------------------------------------------------
  // Decimal text (Number.prototype.toString for non-negative integers)
  // ---------------------------------------------------------------

  predicate IsDigit(c: char) {
    '0' <= c <= '9'
  }

  predicate AllDigits(s: string) {
    forall i :: 0 <= i < |s| ==> IsDigit(s[i])
  }

  function DigitChar(d: nat): (c: char)
    requires d < 10
    ensures IsDigit(c) && (c as int) - ('0' as int) == d
  {
    (('0' as int) + d) as char
  }

  /** n.toString() for a non-negative integer: decimal digits, no sign. */
  function ShowNat(n: nat): (s: string)
    ensures 1 <= |s| && AllDigits(s)
    ensures n < 10 <==> |s| == 1
    ensures n < 100 ==> |s| <= 2
  {
    if n < 10 then [DigitChar(n)] else ShowNat(n / 10) + [DigitChar(n % 10)]
  }

  /** The value of a string of decimal digits (empty reads as 0). */
  function ParseNat(s: string): nat
    requires AllDigits(s)
  {
    if s == [] then 0 else ParseNat(s[..|s| - 1]) * 10 + ((s[|s| - 1] as int) - ('0' as int))
  }

  /** Reading back what ShowNat wrote gives the number. */
  lemma {:induction false} ParseShowNat(n: nat)
    ensures ParseNat(ShowNat(n)) == n
  {
    if n >= 10 {
      ParseShowNat(n / 10);
      var s := ShowNat(n);
      assert s[..|s| - 1] == ShowNat(n / 10);
    }
  }

  /** s.padStart(2, "0"). */
  function PadStart2(s: string): (r: string)
    ensures |r| == if |s| < 2 then 2 else |s|
    ensures |s| < 2 ==> r == seq(2 - |s|, _ => '0') + s
    ensures |s| >= 2 ==> r == s
    decreases if |s| < 2 then 2 - |s| else 0
  {
    if |s| >= 2 then s else PadStart2(['0'] + s)
  }

  /** Leading zeros do not change a decimal value. */
  lemma {:induction false} ParseLeadingZero(s: string)
    requires AllDigits(s)
    ensures AllDigits(['0'] + s) && ParseNat(['0'] + s) == ParseNat(s)
  {
    if s != [] {
      var z := ['0'] + s;
      assert z[..|z| - 1] == ['0'] + s[..|s| - 1];
      ParseLeadingZero(s[..|s| - 1]);
    }
  }

  lemma {:induction false} ParsePadStart2(s: string)
    requires AllDigits(s)
    ensures AllDigits(PadStart2(s)) && ParseNat(PadStart2(s)) == ParseNat(s)
    decreases if |s| < 2 then 2 - |s| else 0
  {
    if |s| < 2 {
      ParseLeadingZero(s);
      ParsePadStart2(['0'] + s);
    }
  }

  /** The longest prefix of s made of decimal digits. */
  function DigitPrefix(s: string): (p: string)
    ensures |p| <= |s| && p == s[..|p|] && AllDigits(p)
    ensures |p| < |s| ==> !IsDigit(s[|p|])
  {
    if s == [] || !IsDigit(s[0]) then [] else [s[0]] + DigitPrefix(s[1..])
  }

  /** A digit string followed by a non-digit (or nothing) is its own digit prefix. */
  lemma {:induction false} DigitPrefixOf(d: string, rest: string)
    requires AllDigits(d)
    requires rest == [] || !IsDigit(rest[0])
    ensures DigitPrefix(d + rest) == d
  {
    if d != [] {
      assert (d + rest)[1..] == d[1..] + rest;
      DigitPrefixOf(d[1..], rest);
    } else {
      assert d + rest == rest;
    }
  }
}
