/**
 * Decimal numbers as the converter sees them: Python's `float()` applied to a
 * plain decimal literal, and the `:.2f` rendering of an amount. Amounts are
 * exact reals; the binary rounding of Python floats is not modelled, and the
 * rendering rounds the exact value half to even.
 */
module Decimal {

  import opened Wrappers
  import opened Text

  function Pow10(n: nat): (r: nat)
    ensures r > 0
  {
    if n == 0 then 1 else 10 * Pow10(n - 1)
  }

  /** Where the first '.' of `s` is, or `|s|` when there is none. */
  function DotIndex(s: string): (k: nat)
    ensures k <= |s|
    ensures k < |s| ==> s[k] == '.'
    ensures forall i :: 0 <= i < k ==> s[i] != '.'
  {
    if s == [] || s[0] == '.' then 0 else 1 + DotIndex(s[1..])
  }

  /**
   * `float(s)` for an unsigned decimal literal: ASCII digits with at most one
   * '.', and at least one digit. None stands for the ValueError Python raises
   * on anything else.
   */
  function ParseUnsigned(s: string): (r: Option<real>)
    ensures r.Some? ==> r.value >= 0.0
  {
    var k := DotIndex(s);
    var whole := s[..k];
    var frac := if k < |s| then s[k + 1..] else [];
    if !AllDigits(whole) || !AllDigits(frac) || (whole == [] && frac == []) then None
    else Some(DigitsValue(whole) as real + Fraction(frac))
  }

  /** The value of the digits after the dot: "05" is 0.05. */
  function Fraction(frac: string): (r: real)
    requires AllDigits(frac)
    ensures r >= 0.0
  {
    DigitsValue(frac) as real / Pow10(|frac|) as real
  }

  function Negated(v: Option<real>): Option<real> {
    match v
    case Some(x) => Some(-x)
    case None => None
  }

  /** `float(s)`: surrounding whitespace, then an optional sign, then an unsigned literal. */
  function ParseFloat(s: string): Option<real> {
    var t := Strip(s);
    if t != [] && t[0] == '-' then Negated(ParseUnsigned(t[1..]))
    else if t != [] && t[0] == '+' then ParseUnsigned(t[1..])
    else ParseUnsigned(t)
  }

  predicate DigitsAndDots(s: string) {
    forall i :: 0 <= i < |s| ==> IsDigit(s[i]) || s[i] == '.'
  }

  predicate HasDigit(s: string) {
    exists i :: 0 <= i < |s| && IsDigit(s[i])
  }

  predicate TwoDots(s: string) {
    exists i, j :: 0 <= i < j < |s| && s[i] == '.' && s[j] == '.'
  }

  /**
   * A string of digits and dots fails to parse exactly when it has two dots
   * or no digit at all ("1.2.3", ".", "..").
   */
  lemma ParseUnsignedFailure(s: string)
    requires DigitsAndDots(s)
    ensures ParseUnsigned(s).None? <==> TwoDots(s) || !HasDigit(s)
  {
    var k := DotIndex(s);
    var whole := s[..k];
    var frac := if k < |s| then s[k + 1..] else [];
    assert AllDigits(whole);
    assert AllDigits(frac) <==> !TwoDots(s) by {
      if TwoDots(s) {
        var i, j :| 0 <= i < j < |s| && s[i] == '.' && s[j] == '.';
        assert k <= i;
        assert frac[j - k - 1] == '.';
      }
      if !AllDigits(frac) {
        var j :| 0 <= j < |frac| && !IsDigit(frac[j]);
        assert s[k + 1 + j] == '.';
      }
    }
    assert (whole == [] && frac == []) ==> !HasDigit(s) by {
      if whole == [] && frac == [] {
        assert |s| <= 1;
      }
    }
    if HasDigit(s) && !TwoDots(s) {
      var i :| 0 <= i < |s| && IsDigit(s[i]);
      if i < k { assert whole[i] == s[i]; } else { assert frac[i - k - 1] == s[i]; }
    }
  }

  /**
   * The number of hundredths `:.2f` shows for a non-negative amount: 100 * x
   * rounded to the nearest integer, ties to even.
   */
  function Cents(x: real): (c: nat)
    requires x >= 0.0
    ensures c as real - 0.5 <= 100.0 * x <= c as real + 0.5
  {
    var y := 100.0 * x;
    var f := y.Floor;
    var d := y - f as real;
    if d > 0.5 then f + 1 else if d < 0.5 then f else if f % 2 == 0 then f else f + 1
  }

  function Magnitude(x: real): (m: real)
    ensures m >= 0.0 && (m == x || m == -x)
  {
    if x < 0.0 then -x else x
  }

  function Signed(negative: bool, v: real): real {
    if negative then -v else v
  }

  /** The amount `:.2f` displays: the magnitude rounded to hundredths, with its sign. */
  function Rounded(x: real): (r: real)
    ensures -0.005 <= r - x <= 0.005
  {
    Signed(x < 0.0, Cents(Magnitude(x)) as real / 100.0)
  }

  function TwoDigits(m: nat): (r: string)
    requires m < 100
    ensures |r| == 2 && AllDigits(r)
  {
    [DigitChar(m / 10), DigitChar(m % 10)]
  }

  /** `c` hundredths written as whole part, dot, two digits: 1234 is "12.34". */
  function FixedPoint(c: nat): (r: string)
    ensures r != [] && IsDigit(r[0])
    ensures DigitsAndDots(r) && HasDigit(r) && !TwoDots(r)
    ensures NoSpace(r)
  {
    var w := NatToString(c / 100);
    var r := w + "." + TwoDigits(c % 100);
    assert forall i :: 0 <= i < |r| && r[i] == '.' ==> i == |w|;
    r
  }

  /** A sign, when `negative`, then `c` hundredths in fixed point. */
  function SignedText(negative: bool, c: nat): string {
    (if negative then "-" else "") + FixedPoint(c)
  }

  /** `f'{x:.2f}'`: a minus sign for negative amounts, then the rounded magnitude in hundredths. */
  function Fmt2(x: real): string {
    SignedText(x < 0.0, Cents(Magnitude(x)))
  }

  lemma {:induction false} DotIndexAfterDigits(w: string, rest: string)
    requires AllDigits(w)
    ensures DotIndex(w + "." + rest) == |w|
  {
    if w != [] {
      assert (w + "." + rest)[1..] == w[1..] + "." + rest;
      DotIndexAfterDigits(w[1..], rest);
    }
  }

  lemma TwoDigitsValue(m: nat)
    requires m < 100
    ensures DigitsValue(TwoDigits(m)) == m
  {
    var t := TwoDigits(m);
    assert t[..1][..0] == [];
    assert t[..1] == [DigitChar(m / 10)];
    assert DigitsValue(t[..1]) == m / 10;
    assert DigitsValue(t) == (m / 10) * 10 + m % 10;
  }

  /** A digit string, a dot and a non-empty digit string read as whole part plus fraction. */
  lemma ParseUnsignedParts(s: string, w: string, t: string)
    requires s == w + "." + t && AllDigits(w) && AllDigits(t) && t != []
    ensures ParseUnsigned(s) == Some(DigitsValue(w) as real + Fraction(t))
  {
    DotIndexAfterDigits(w, t);
    assert s[..|w|] == w;
    assert s[|w| + 1..] == t;
  }

  /** The unsigned text `:.2f` writes reads back as the rounded amount. */
  lemma UnsignedReadsBack(c: nat)
    ensures ParseUnsigned(FixedPoint(c)) == Some(c as real / 100.0)
  {
    var w := NatToString(c / 100);
    var t := TwoDigits(c % 100);
    ParseUnsignedParts(FixedPoint(c), w, t);
    NatToStringRoundTrip(c / 100);
    TwoDigitsValue(c % 100);
    assert Pow10(|t|) == 100;
    assert (c / 100) * 100 + c % 100 == c;
  }

  /** Cents of an amount that is already a whole number of hundredths is that number. */
  lemma CentsExact(c: nat)
    ensures Cents(c as real / 100.0) == c
  {
    var y := 100.0 * (c as real / 100.0);
    assert y == c as real;
    assert y.Floor == c;
  }

  lemma ParseFloatUnsigned(t: string)
    requires t != [] && IsDigit(t[0]) && NoSpace(t)
    ensures ParseFloat(t) == ParseUnsigned(t)
  {
    assert Strip(t) == t;
  }

  /** Text made of digits and dots has no sign and no whitespace, so `float()` reads it unsigned. */
  lemma ParseFloatDigitsAndDots(t: string)
    requires DigitsAndDots(t)
    ensures ParseFloat(t) == ParseUnsigned(t)
  {
    assert NoSpace(t) by {
      forall i | 0 <= i < |t| ensures !IsSpace(t[i]) {
        assert IsDigit(t[i]) || t[i] == '.';
      }
    }
    assert Strip(t) == t;
  }

  lemma ParseFloatNegative(r: string)
    requires |r| >= 2 && r[0] == '-' && NoSpace(r[1..])
    ensures ParseFloat(r) == Negated(ParseUnsigned(r[1..]))
  {
    assert NoSpace(r) by {
      forall i | 1 <= i < |r| ensures !IsSpace(r[i]) {
        assert r[i] == r[1..][i - 1];
      }
    }
    assert Strip(r) == r;
  }
}

/**
 * The round trip between the `:.2f` text of an amount and `float()`: what
 * the converter writes, the chart reads back as the amount to the cent.
 */
module DecimalReadBack {

  import opened Wrappers
  import opened Text
  import opened Decimal

  lemma ParseFloatMinus(f: string)
    requires f != [] && NoSpace(f)
    ensures ParseFloat("-" + f) == Negated(ParseUnsigned(f))
  {
    var r := "-" + f;
    assert r[1..] == f;
    ParseFloatNegative(r);
  }

  /** The signed text of `c` hundredths reads back as `c / 100` with that sign. */
  lemma SignedTextReadsBack(s: string, v: real, negative: bool, c: nat)
    requires s == SignedText(negative, c) && v == Signed(negative, c as real / 100.0)
    ensures ParseFloat(s) == Some(v)
  {
    var f := FixedPoint(c);
    UnsignedReadsBack(c);
    if negative {
      assert Negated(ParseUnsigned(f)) == Some(-(c as real / 100.0));
      assert s == "-" + f;
      ParseFloatMinus(f);
    } else {
      assert s == f;
      ParseFloatUnsigned(f);
    }
  }

  /**
   * Python's `float()` reads the `:.2f` text of any amount back as the
   * amount rounded to hundredths.
   */
  lemma FormatReadsBack(x: real)
    ensures ParseFloat(Fmt2(x)) == Some(Rounded(x))
  {
    SignedTextReadsBack(Fmt2(x), Rounded(x), x < 0.0, Cents(Magnitude(x)));
  }

  /**
   * Formatting the rounded amount gives the same text as formatting the
   * amount. (For negative amounts Python keeps a negative zero, "-0.00",
   * which exact reals do not have, so the lemma is stated for x >= 0.)
   */
  lemma FormatRoundedStable(x: real)
    requires x >= 0.0
    ensures Fmt2(Rounded(x)) == Fmt2(x)
  {
    CentsExact(Cents(x));
  }
}
