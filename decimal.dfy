/** Fixed-point decimal rendering, as Rust's `{:.N}` format specifier prints a
    number with N digits after the point: an optional minus sign, the integer
    part without leading zeros, a point, and exactly N fraction digits, the
    value being rounded to the nearest multiple of 10^-N with ties to even. */
module Decimal {

  function Pow10(k: nat): (p: nat)
    ensures p >= 1
  {
    if k == 0 then 1 else 10 * Pow10(k - 1)
  }

  predicate IsDigit(c: char) {
    '0' <= c <= '9'
  }

  predicate AllDigits(s: string) {
    forall i :: 0 <= i < |s| ==> IsDigit(s[i])
  }

  function DigitChar(d: nat): (c: char)
    requires d < 10
    ensures IsDigit(c)
  {
    ('0' as int + d) as char
  }

  function DigitValue(c: char): (d: nat)
    requires IsDigit(c)
    ensures d < 10
  {
    c as int - '0' as int
  }

  /** The decimal numeral of `n`, most significant digit first, without
      leading zeros ("0" for zero). */
  function NatDigits(n: nat): (s: string)
    ensures |s| >= 1 && AllDigits(s)
  {
    if n < 10 then [DigitChar(n)] else NatDigits(n / 10) + [DigitChar(n % 10)]
  }

  /** The number a string of decimal digits denotes. */
  function DigitsValue(s: string): nat
    requires AllDigits(s)
  {
    if s == [] then 0 else 10 * DigitsValue(s[..|s| - 1]) + DigitValue(s[|s| - 1])
  }

  /** Reading a numeral back gives the number it was written from. */
  lemma {:induction false} NatDigitsValue(n: nat)
    ensures DigitsValue(NatDigits(n)) == n
  {
    if n >= 10 {
      var s := NatDigits(n);
      assert s[..|s| - 1] == NatDigits(n / 10);
      NatDigitsValue(n / 10);
    }
  }

  /** A number below 10^k has a numeral of at most k digits. */
  lemma {:induction false} NatDigitsLength(n: nat, k: nat)
    requires 1 <= k && n < Pow10(k)
    ensures |NatDigits(n)| <= k
  {
    if n >= 10 {
      assert k >= 2;
      NatDigitsLength(n / 10, k - 1);
    }
  }

  /** The digits `s`, padded on the left with zeros to `width` characters. */
  function ZeroPad(s: string, width: nat): (t: string)
    requires AllDigits(s)
    ensures AllDigits(t)
    ensures |t| == if |s| < width then width else |s|
    ensures DigitsValue(t) == DigitsValue(s)
  {
    if |s| < width then
      var zeros := seq(width - |s|, _ => '0');
      DigitsValueConcat(zeros, s);
      ZerosValue(width - |s|);
      zeros + s
    else s
  }

  lemma {:induction false} ZerosValue(k: nat)
    ensures AllDigits(seq(k, _ => '0')) && DigitsValue(seq(k, _ => '0')) == 0
  {
    if k > 0 {
      assert seq(k, _ => '0')[..k - 1] == seq(k - 1, _ => '0');
      ZerosValue(k - 1);
    }
  }

  /** Kept apart so that the nonlinear step stays out of the caller's proof. */
  lemma MulAssoc(x: nat, y: nat)
    ensures 10 * (x * y) == x * (10 * y)
  {
  }

  /** The value of a concatenation: the left part counts in units of 10^|b|. */
  lemma {:induction false} DigitsValueConcat(a: string, b: string)
    requires AllDigits(a) && AllDigits(b)
    ensures AllDigits(a + b)
    ensures DigitsValue(a + b) == DigitsValue(a) * Pow10(|b|) + DigitsValue(b)
  {
    if b != [] {
      var b' := b[..|b| - 1];
      var d := DigitValue(b[|b| - 1]);
      assert (a + b)[..|a + b| - 1] == a + b';
      DigitsValueConcat(a, b');
      calc {
        DigitsValue(a + b);
        10 * DigitsValue(a + b') + d;
        10 * (DigitsValue(a) * Pow10(|b'|) + DigitsValue(b')) + d;
        { MulAssoc(DigitsValue(a), Pow10(|b'|)); }
        DigitsValue(a) * Pow10(|b|) + (10 * DigitsValue(b') + d);
        DigitsValue(a) * Pow10(|b|) + DigitsValue(b);
      }
    } else {
      assert a + b == a;
    }
  }

  /** The integer nearest to `x`, ties going to the even neighbour. */
  function RoundHalfEven(x: real): (n: int)
    ensures -0.5 <= x - n as real <= 0.5
    ensures x - n as real == 0.5 || n as real - x == 0.5 ==> n % 2 == 0
  {
    var f := x.Floor;
    var d := x - f as real;
    if d < 0.5 then f
    else if d > 0.5 then f + 1
    else if f % 2 == 0 then f
    else f + 1
  }

  /** The rounding above is the only integer with its two properties. */
  lemma RoundHalfEvenUnique(x: real, n: int)
    requires -0.5 <= x - n as real <= 0.5
    requires x - n as real == 0.5 || n as real - x == 0.5 ==> n % 2 == 0
    ensures n == RoundHalfEven(x)
  {
  }

  function Abs(x: real): (a: real)
    ensures a >= 0.0
  {
    if x < 0.0 then -x else x
  }

  /** |x| counted in `units` per one, rounded half to even. */
  function Scaled(x: real, units: nat): (n: nat)
    ensures -0.5 <= Abs(x) * units as real - n as real <= 0.5
  {
    var y := Abs(x) * units as real;
    assert y >= 0.0;
    var n := RoundHalfEven(y);
    assert n as real >= y - 0.5;
    n
  }

  /** `x` printed with `precision` fraction digits. */
  function FormatFixed(x: real, precision: nat): (s: string)
    ensures |s| >= 1 && IsDigit(s[|s| - 1])
    ensures s[0] == '-' <==> x < 0.0
  {
    var parts := SplitUnits(Scaled(x, Pow10(precision)), precision);
    Layout(x < 0.0, parts.0, parts.1, precision)
  }

  /** A count of units of 10^-k split into its integer part and its last k
      digits, one decimal digit at a time. */
  function SplitUnits(n: nat, k: nat): (nat, nat)
  {
    if k == 0 then (n, 0)
    else
      var parts := SplitUnits(n / 10, k - 1);
      (parts.0, 10 * parts.1 + n % 10)
  }

  /** The split is the quotient and remainder by 10^k. */
  lemma {:induction false} SplitUnitsParts(n: nat, k: nat)
    ensures SplitUnits(n, k).1 < Pow10(k)
    ensures n == SplitUnits(n, k).0 * Pow10(k) + SplitUnits(n, k).1
  {
    if k > 0 {
      SplitUnitsParts(n / 10, k - 1);
      var q, r := SplitUnits(n / 10, k - 1).0, SplitUnits(n / 10, k - 1).1;
      assert n / 10 == q * Pow10(k - 1) + r;
      calc {
        SplitUnits(n, k).0 * Pow10(k) + SplitUnits(n, k).1;
        q * (10 * Pow10(k - 1)) + (10 * r + n % 10);
        { MulAssoc(q, Pow10(k - 1)); }
        10 * (q * Pow10(k - 1) + r) + n % 10;
        n;
      }
    }
  }

  /** A reading below one whole unit splits into a zero integer part and
      a fraction part equal to the reading itself. */
  lemma SplitUnitsSmall(n: nat, k: nat)
    requires n < Pow10(k)
    ensures SplitUnits(n, k) == (0, n)
  {
    SplitUnitsParts(n, k);
    var whole := SplitUnits(n, k).0;
    assert whole >= 1 ==> whole * Pow10(k) >= Pow10(k);
  }

  /** A sign, the integer part, and the fraction part padded to `precision`
      digits behind a point (no point when `precision` is zero). */
  function Layout(negative: bool, whole: nat, fraction: nat, precision: nat): string
  {
    (if negative then "-" else "") + NatDigits(whole)
      + (if precision == 0 then "" else "." + ZeroPad(NatDigits(fraction), precision))
  }

  // Reading a fixed-point text back.

  /** The text without its leading minus sign, if it has one. */
  function Unsigned(s: string): string {
    if |s| > 0 && s[0] == '-' then s[1..] else s
  }

  /** An optional minus sign, at least one digit and, when `precision` is
      positive, a point followed by exactly `precision` digits. */
  predicate IsFixedText(s: string, precision: nat) {
    var u := Unsigned(s);
    if precision == 0 then |u| >= 1 && AllDigits(u)
    else
      && |u| >= precision + 2
      && u[|u| - precision - 1] == '.'
      && AllDigits(u[..|u| - precision - 1])
      && AllDigits(u[|u| - precision..])
  }

  /** The digits of a fixed-point text with sign and point removed. */
  function FixedDigits(s: string, precision: nat): (d: string)
    requires IsFixedText(s, precision)
    ensures AllDigits(d)
  {
    var u := Unsigned(s);
    if precision == 0 then u
    else
      DigitsValueConcat(u[..|u| - precision - 1], u[|u| - precision..]);
      u[..|u| - precision - 1] + u[|u| - precision..]
  }

  /** The number a fixed-point text denotes. */
  function FixedValue(s: string, precision: nat): real
    requires IsFixedText(s, precision)
  {
    var m := DigitsValue(FixedDigits(s, precision)) as real / Pow10(precision) as real;
    if |s| > 0 && s[0] == '-' then -m else m
  }

  /** A laid-out text is a fixed-point text whose digits, read as one
      integer, are the integer and fraction parts put back together. */
  lemma LayoutReadsBack(negative: bool, whole: nat, fraction: nat, precision: nat)
    requires fraction < Pow10(precision)
    ensures IsFixedText(Layout(negative, whole, fraction, precision), precision)
    ensures Layout(negative, whole, fraction, precision)[0] == '-' <==> negative
    ensures DigitsValue(FixedDigits(Layout(negative, whole, fraction, precision), precision))
            == whole * Pow10(precision) + fraction
  {
    if precision == 0 {
      assert Pow10(0) == 1;
      WholeOnlyReadsBack(negative, whole);
    } else {
      WithFractionReadsBack(negative, whole, fraction, precision);
      JoinedDigitsValue(whole, fraction, precision);
    }
  }

  lemma WholeOnlyReadsBack(negative: bool, whole: nat)
    ensures IsFixedText(Layout(negative, whole, 0, 0), 0)
    ensures Layout(negative, whole, 0, 0)[0] == '-' <==> negative
    ensures DigitsValue(FixedDigits(Layout(negative, whole, 0, 0), 0)) == whole
  {
    NatDigitsValue(whole);
    assert Unsigned(Layout(negative, whole, 0, 0)) == NatDigits(whole);
  }

  lemma WithFractionReadsBack(negative: bool, whole: nat, fraction: nat, precision: nat)
    requires 1 <= precision && fraction < Pow10(precision)
    ensures IsFixedText(Layout(negative, whole, fraction, precision), precision)
    ensures Layout(negative, whole, fraction, precision)[0] == '-' <==> negative
    ensures FixedDigits(Layout(negative, whole, fraction, precision), precision)
            == NatDigits(whole) + ZeroPad(NatDigits(fraction), precision)
  {
    NatDigitsLength(fraction, precision);
    PointTextReadsBack(negative, NatDigits(whole), ZeroPad(NatDigits(fraction), precision));
  }

  /** A sign, digits, a point and more digits form a fixed-point text whose
      precision is the number of digits after the point. */
  lemma PointTextReadsBack(negative: bool, w: string, f: string)
    requires |w| >= 1 && AllDigits(w) && |f| >= 1 && AllDigits(f)
    ensures IsFixedText((if negative then "-" else "") + w + ("." + f), |f|)
    ensures ((if negative then "-" else "") + w + ("." + f))[0] == '-' <==> negative
    ensures FixedDigits((if negative then "-" else "") + w + ("." + f), |f|) == w + f
  {
    var s := (if negative then "-" else "") + w + ("." + f);
    var u := w + ("." + f);
    UnsignedPointText(w, f);
    if negative {
      assert s == "-" + u;
      assert s[1..] == u;
    } else {
      assert s == u;
    }
    assert Unsigned(s) == u;
  }

  /** The same without a sign: the digits around the point are `w` and `f`. */
  lemma UnsignedPointText(w: string, f: string)
    requires |w| >= 1 && AllDigits(w) && |f| >= 1 && AllDigits(f)
    ensures var u := w + ("." + f);
      && u[0] != '-' && Unsigned(u) == u
      && |u| >= |f| + 2 && u[|u| - |f| - 1] == '.'
      && u[..|u| - |f| - 1] == w && u[|u| - |f|..] == f
  {
    var u := w + ("." + f);
    assert IsDigit(w[0]) && u[0] == w[0];
    assert u[..|u| - |f| - 1] == w;
    assert u[|u| - |f|..] == f;
  }

  lemma JoinedDigitsValue(whole: nat, fraction: nat, precision: nat)
    requires 1 <= precision && fraction < Pow10(precision)
    ensures AllDigits(NatDigits(whole) + ZeroPad(NatDigits(fraction), precision))
    ensures DigitsValue(NatDigits(whole) + ZeroPad(NatDigits(fraction), precision))
            == whole * Pow10(precision) + fraction
  {
    var w, f := NatDigits(whole), ZeroPad(NatDigits(fraction), precision);
    NatDigitsLength(fraction, precision);
    assert |f| == precision;
    NatDigitsValue(whole);
    NatDigitsValue(fraction);
    assert DigitsValue(w) == whole && DigitsValue(f) == fraction;
    DigitsValueConcat(w, f);
  }

  /** The text is well formed, is signed exactly when `x` is negative, and
      its digits spell |x| in units of 10^-precision, rounded half to even. */
  lemma FormatFixedLayout(x: real, precision: nat)
    ensures IsFixedText(FormatFixed(x, precision), precision)
    ensures FormatFixed(x, precision)[0] == '-' <==> x < 0.0
    ensures DigitsValue(FixedDigits(FormatFixed(x, precision), precision)) == Scaled(x, Pow10(precision))
  {
    var parts := SplitUnits(Scaled(x, Pow10(precision)), precision);
    SplitUnitsParts(Scaled(x, Pow10(precision)), precision);
    LayoutReadsBack(x < 0.0, parts.0, parts.1, precision);
  }

  /** `v` is within half of 1/`units` of `x`. */
  predicate WithinHalfUnitOf(v: real, x: real, units: nat) {
    -0.5 <= (v - x) * units as real <= 0.5
  }

  /** Read back, the text is within half a unit of its last digit of `x`. */
  lemma FormatFixedIsNearest(x: real, precision: nat)
    ensures IsFixedText(FormatFixed(x, precision), precision)
    ensures WithinHalfUnitOf(FixedValue(FormatFixed(x, precision), precision), x, Pow10(precision))
  {
    FormatFixedValue(x, precision);
    ReadingIsNear(x, Pow10(precision), FixedValue(FormatFixed(x, precision), precision));
  }

  /** Read back, the text is the signed rounded count of units. */
  lemma FormatFixedValue(x: real, precision: nat)
    ensures IsFixedText(FormatFixed(x, precision), precision)
    ensures var k, units := Scaled(x, Pow10(precision)) as real, Pow10(precision) as real;
      FixedValue(FormatFixed(x, precision), precision) == if x < 0.0 then -(k / units) else k / units
  {
    FormatFixedLayout(x, precision);
  }

  /** The arithmetic behind the lemma above: the signed rounded count of
      units is within half a unit of `x`. */
  lemma ReadingIsNear(x: real, units: nat, v: real)
    requires units >= 1
    requires v == if x < 0.0 then -(Scaled(x, units) as real / units as real)
                  else Scaled(x, units) as real / units as real
    ensures WithinHalfUnitOf(v, x, units)
  {
  }

  /** A price of 0.0042 printed at six places. */
  lemma PriceExample()
    ensures FormatFixed(0.0042, 6) == "0.004200"
  {
    assert FormatFixed(0.0042, 6) == Layout(false, 0, 4200, 6) by {
      assert Pow10(6) == 1000000;
      assert Scaled(0.0042, 1000000) == 4200;
      PriceSplit();
    }
    PriceLayout();
  }

  /** 4200 millionths have no whole part. */
  lemma PriceSplit()
    ensures SplitUnits(4200, 6) == (0, 4200)
  {
    assert Pow10(6) == 1000000;
    SplitUnitsSmall(4200, 6);
  }

  /** The fraction part 4200 is padded to six digits. */
  lemma PriceLayout()
    ensures Layout(false, 0, 4200, 6) == "0.004200"
  {
    assert NatDigits(4200) == "4200";
    assert ZeroPad("4200", 6) == "004200";
  }

  /** A market cap of 250000 printed at two places. */
  lemma MarketCapExample()
    ensures FormatFixed(250000.0, 2) == "250000.00"
  {
    assert Pow10(2) == 100;
    assert Scaled(250000.0, 100) == 25000000;
    assert SplitUnits(2500000, 1) == (250000, 0);
    assert SplitUnits(25000000, 2) == (250000, 0);
    assert FormatFixed(250000.0, 2) == Layout(false, 250000, 0, 2);
    assert NatDigits(250000) == "250000";
    assert ZeroPad("0", 2) == "00";
  }
}
