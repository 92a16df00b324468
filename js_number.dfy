/**
 * The number conversions the converter relies on, on exact reals: reading an
 * amount with `parseFloat(s) || 0`, rounding with `parseFloat(x.toFixed(2))`,
 * and writing an integer in a template literal.
 */
module JsNumber {
  import opened Text

  predicate AllDigits(s: string) { forall i :: 0 <= i < |s| ==> IsDigit(s[i]) }

  function DigitValue(c: char): nat
    requires IsDigit(c)
  {
    c as int - '0' as int
  }

  function DigitChar(d: nat): (c: char)
    requires d < 10
    ensures IsDigit(c) && DigitValue(c) == d
  {
    ('0' as int + d) as char
  }

  /** The value of a string of decimal digits, most significant first. */
  function DigitsValue(s: string): nat
    requires AllDigits(s)
  {
    if s == [] then 0 else 10 * DigitsValue(s[..|s| - 1]) + DigitValue(s[|s| - 1])
  }

  function Pow10(n: nat): (p: nat)
    ensures p >= 1
  {
    if n == 0 then 1 else 10 * Pow10(n - 1)
  }

  /** The decimal text of `n`: its digits without leading zeros. */
  function NatText(n: nat): (s: string)
    ensures |s| >= 1 && AllDigits(s)
    ensures DigitsValue(s) == n
    ensures |s| > 1 ==> s[0] != '0'
  {
    if n < 10 then [DigitChar(n)]
    else
      var s := NatText(n / 10) + [DigitChar(n % 10)];
      assert s[..|s| - 1] == NatText(n / 10);
      s
  }

  /**
   * `${i}`: an integer in a template literal. It starts with a minus sign iff
   * `i` is negative; the digits after the sign spell the magnitude.
   */
  function IntText(i: int): (s: string)
    ensures |s| >= 1 && (s[0] == '-' <==> i < 0)
    ensures var digits := if i < 0 then s[1..] else s;
      digits != "" && AllDigits(digits) && DigitsValue(digits) == if i < 0 then -i else i
    ensures var digits := if i < 0 then s[1..] else s;
      |digits| > 1 ==> digits[0] != '0'
  {
    if i < 0 then
      var s := "-" + NatText(-i);
      assert s[1..] == NatText(-i);
      s
    else NatText(i)
  }

  /** The longest prefix of `s` made of digits. */
  function LeadingDigits(s: string): (d: string)
    ensures AllDigits(d) && d <= s
    ensures |d| < |s| ==> !IsDigit(s[|d|])
  {
    if s != [] && IsDigit(s[0]) then [s[0]] + LeadingDigits(s[1..]) else ""
  }

  lemma {:induction false} LeadingDigitsAll(s: string)
    requires AllDigits(s)
    ensures LeadingDigits(s) == s
  {
    if s != [] {
      LeadingDigitsAll(s[1..]);
      assert s == [s[0]] + s[1..];
    }
  }

  /**
   * `parseFloat(s) || 0` for a string of digits, dots and commas: the longest
   * prefix of the form `digits[.digits]` read as a decimal, and 0 where
   * `parseFloat` finds no digit (NaN) or reads zero.
   */
  function ParseAmount(s: string): (r: real)
    requires forall x :: x in s ==> IsNumericChar(x)
    ensures r >= 0.0
  {
    var intDigits := LeadingDigits(s);
    var rest := s[|intDigits|..];
    var fracDigits := if rest != [] && rest[0] == '.' then LeadingDigits(rest[1..]) else "";
    if intDigits == "" && fracDigits == "" then 0.0
    else DigitsValue(intDigits) as real + DigitsValue(fracDigits) as real / Pow10(|fracDigits|) as real
  }

  /** Reading back the text of a whole number gives the number. */
  lemma ParseNatText(n: nat)
    ensures ParseAmount(NatText(n)) == n as real
  {
    var s := NatText(n);
    LeadingDigitsAll(s);
    assert s[|s|..] == "";
  }

  /** `r` has at most two decimals: `r * 100` is a whole number. */
  predicate IsCents(r: real) { (r * 100.0).Floor as real == r * 100.0 }

  /** `x.toFixed(2)` for `x >= 0`: the nearest hundredth, the larger one on a tie. */
  function RoundHalfUp(x: real): (r: real)
    requires x >= 0.0
    ensures r >= 0.0 && IsCents(r)
    ensures x - 0.005 < r <= x + 0.005
  {
    var n := (x * 100.0 + 0.5).Floor;
    assert n as real == (n as real / 100.0) * 100.0;
    n as real / 100.0
  }

  /**
   * `parseFloat(x.toFixed(2))`: `toFixed` rounds the magnitude to the nearest
   * hundredth, halves away from zero, and keeps the sign. The strict bounds
   * settle a tie: 0.125 gives 0.13 and -0.125 gives -0.13.
   */
  function Round2(x: real): (r: real)
    ensures IsCents(r)
    ensures x - 0.005 <= r <= x + 0.005
    ensures x >= 0.0 ==> x - 0.005 < r
    ensures x < 0.0 ==> r < x + 0.005
    ensures x >= 0.0 ==> r >= 0.0
    ensures x <= 0.0 ==> r <= 0.0
  {
    if x >= 0.0 then RoundHalfUp(x)
    else
      CentsNegate(RoundHalfUp(-x));
      -RoundHalfUp(-x)
  }

  lemma CentsNegate(y: real)
    requires IsCents(y)
    ensures IsCents(-y)
  {
    var m := (y * 100.0).Floor;
    assert -y * 100.0 == (-m) as real;
  }

  lemma RoundHalfUpCents(x: real)
    requires x >= 0.0 && IsCents(x)
    ensures RoundHalfUp(x) == x
  {
    var m := (x * 100.0).Floor;
    assert (x * 100.0 + 0.5).Floor == m;
  }

  /** Rounding an amount already rounded to cents changes nothing. */
  lemma Round2Idempotent(x: real)
    ensures Round2(Round2(x)) == Round2(x)
  {
    var r := Round2(x);
    if r >= 0.0 {
      RoundHalfUpCents(r);
    } else {
      CentsNegate(r);
      RoundHalfUpCents(-r);
    }
  }
}
