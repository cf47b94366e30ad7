/** What a number text means: sign, integer part, fraction and exponent as a real number. */
module JsonDecimals {
  import opened JsonText
  import opened JsonNumber
  import opened JsonMeaning

  /** Powers of ten, also with a negative exponent. */
  function Power(e: int): (r: real)
    ensures r > 0.0
    decreases if e < 0 then -e else e
  {
    if e == 0 then 1.0 else if e > 0 then 10.0 * Power(e - 1) else Power(e + 1) / 10.0
  }

  /** The number that an item stands for. */
  function Value(mantissa: int, exponent: int): real {
    mantissa as real * Power(exponent)
  }

  predicate AllDigits(s: string) {
    forall k | 0 <= k < |s| :: IsDigit(s[k])
  }

  /** The number that digits make up, each with the weight of its place. */
  function Natural(digits: string): real
    requires AllDigits(digits)
  {
    if |digits| == 0 then 0.0
    else (digits[0] as int - '0' as int) as real * Power(|digits| - 1) + Natural(digits[1..])
  }

  /** The number behind a decimal point. */
  function Fraction(digits: string): real
    requires AllDigits(digits)
  {
    Natural(digits) * Power(-|digits|)
  }

  lemma {:induction false} PowerSum(a: int, b: int)
    ensures Power(a + b) == Power(a) * Power(b)
    decreases if b < 0 then -b else b
  {
    hide Power;
    if b > 0 {
      PowerSum(a, b - 1);
      PowerUp(a + b - 1);
      PowerUp(b - 1);
      TenTimes(Power(a), Power(b - 1));
    } else if b < 0 {
      PowerSum(a, b + 1);
      PowerUp(a + b);
      PowerUp(b);
      TenTimes(Power(a), Power(b));
    } else {
      PowerZero();
    }
  }

  lemma TenTimes(x: real, y: real)
    ensures 10.0 * (x * y) == x * (10.0 * y)
  {
  }

  lemma PowerUp(e: int)
    ensures Power(e + 1) == 10.0 * Power(e)
  {
  }

  // ---------- reading digits ----------

  lemma {:induction false} DigitsValue(s: string, i: nat, digits: string, n: nat)
    requires i <= |s| && AllDigits(digits) && Has(s, i, digits) && !IsDigit(At(s, i + |digits|))
    ensures ReadDigits(s, i, n).1 == i + |digits|
    ensures ReadDigits(s, i, n).0 as real == n as real * Power(|digits|) + Natural(digits)
    decreases digits
  {
    hide Power, Has, ReadDigits;
    DigitStep(s, i, n);
    if |digits| == 0 {
      assert Power(0) == 1.0 by { PowerZero(); }
    } else {
      HasHead(s, i, digits);
      HasRoom(s, i, digits);
      var d := DigitValue(digits[0]);
      DigitsValue(s, i + 1, digits[1..], n * 10 + d);
      PowerUp(|digits| - 1);
      Shift(n, d, Power(|digits| - 1));
    }
  }

  lemma DigitStep(s: string, i: nat, n: nat)
    requires i <= |s|
    ensures ReadDigits(s, i, n) == if IsDigit(At(s, i)) then ReadDigits(s, i + 1, n * 10 + DigitValue(s[i])) else (n, i)
  {
  }

  lemma PowerZero()
    ensures Power(0) == 1.0
  {
  }

  lemma Shift(n: nat, d: nat, p: real)
    ensures (n * 10 + d) as real * p == n as real * (10.0 * p) + d as real * p
  {
  }

  // ---------- the parts of a number ----------

  /** The parts of a number text: the digits in front of the point may have one zero before
      them, and are missing only behind a minus sign; a point stands in front of at least one
      digit. */
  datatype Decimal = Decimal(negative: bool, zero: bool, whole: string, fraction: string, exponent: Exponent)

  datatype Exponent = NoExponent | Exponent(upper: bool, sign: string, digits: string)

  predicate WellFormed(d: Decimal) {
    AllDigits(d.whole) && AllDigits(d.fraction)
    && (if |d.whole| > 0 then d.whole[0] != '0' else d.zero || d.negative)
    && (d.exponent.Exponent? ==> d.exponent.sign in ["", "+", "-"] && AllDigits(d.exponent.digits))
  }

  function WholeText(d: Decimal): string {
    (if d.zero then "0" else "") + d.whole
  }

  function FractionText(d: Decimal): string {
    if |d.fraction| > 0 then "." + d.fraction else ""
  }

  function ExponentText(d: Decimal): string {
    if d.exponent.NoExponent? then ""
    else (if d.exponent.upper then "E" else "e") + (d.exponent.sign + d.exponent.digits)
  }

  function DecimalText(d: Decimal): string {
    (if d.negative then "-" else "") + (WholeText(d) + (FractionText(d) + ExponentText(d)))
  }

  function Magnitude(d: Decimal): real
    requires WellFormed(d)
  {
    Natural(d.whole) + Fraction(d.fraction)
  }

  /** The exponent with its sign. */
  predicate IsExponent(e: Exponent, x: int)
    requires e.Exponent? ==> AllDigits(e.digits)
  {
    if e.NoExponent? then x == 0
    else if e.sign == "-" then (-x) as real == Natural(e.digits)
    else x as real == Natural(e.digits)
  }

  lemma WholeReads(s: string, i: nat, d: Decimal)
    requires WellFormed(d) && i <= |s| && Has(s, i, WholeText(d)) && !IsDigit(At(s, i + |WholeText(d)|))
    ensures ReadWhole(s, i).1 == i + |WholeText(d)| && ReadWhole(s, i).0 as real == Natural(d.whole)
    ensures d.negative || IsDigit(At(s, i))
  {
    hide Natural, Has, ReadDigits;
    HasSplit(s, i, if d.zero then "0" else "", d.whole);
    if |WholeText(d)| > 0 {
      HasHead(s, i, WholeText(d));
    }
    var j := i + if d.zero then 1 else 0;
    if |d.whole| > 0 {
      HasHead(s, j, d.whole);
      HasRoom(s, j, d.whole);
      DigitsValue(s, j, d.whole, 0);
    } else {
      assert Natural(d.whole) == 0.0 by { NoDigits(d.whole); }
    }
  }

  lemma NoDigits(digits: string)
    requires |digits| == 0
    ensures Natural(digits) == 0.0
  {
  }

  lemma HasRoom(s: string, i: nat, p: string)
    requires Has(s, i, p)
    ensures i + |p| <= |s|
  {
  }

  /** The digits behind the point go on with the number and lower its scale. */
  lemma FractionReads(s: string, i: nat, d: Decimal, n: nat)
    requires WellFormed(d) && i <= |s| && Has(s, i, FractionText(d)) && !IsDigit(At(s, i + |FractionText(d)|))
    requires |d.fraction| == 0 ==> At(s, i) != '.'
    ensures var (m, scale, j) := ReadFraction(s, i, n);
            j == i + |FractionText(d)| && scale == -|d.fraction| && m as real * Power(scale) == n as real + Fraction(d.fraction)
  {
    hide Natural, Has, ReadDigits, Power;
    PowerZero();
    if |d.fraction| > 0 {
      HasSplit(s, i, ".", d.fraction);
      HasHead(s, i, ".");
      HasHead(s, i + 1, d.fraction);
      HasRoom(s, i + 1, d.fraction);
      DigitsValue(s, i + 1, d.fraction, n);
      var k := |d.fraction|;
      PowerSum(k, -k);
      Scaled(n as real, Power(k), Natural(d.fraction), Power(-k));
    } else {
      NoDigits(d.fraction);
    }
  }

  lemma Scaled(n: real, p: real, f: real, q: real)
    requires p * q == 1.0
    ensures (n * p + f) * q == n + f * q
  {
    assert n * p * q == n * (p * q);
  }

  lemma ExponentReads(s: string, i: nat, d: Decimal)
    requires WellFormed(d) && i <= |s| && Has(s, i, ExponentText(d)) && !InNumber(At(s, i + |ExponentText(d)|))
    ensures ReadExponent(s, i).1 == i + |ExponentText(d)| && IsExponent(d.exponent, ReadExponent(s, i).0)
  {
    hide Natural, Has, ReadDigits, Power;
    PowerZero();
    if d.exponent.Exponent? {
      hide ReadExponent, AllDigits;
      var sign, digits := d.exponent.sign, d.exponent.digits;
      var letter := if d.exponent.upper then "E" else "e";
      HasSplit(s, i, letter, sign + digits);
      HasHead(s, i, letter);
      HasSplit(s, i + 1, sign, digits);
      var j := i + 1 + |sign|;
      SignReads(s, i, sign, digits);
      HasRoom(s, j, digits);
      DigitsValue(s, j, digits, 0);
    }
  }

  /** The digits of an exponent stand behind its letter and its sign. */
  lemma SignReads(s: string, i: nat, sign: string, digits: string)
    requires sign in ["", "+", "-"] && AllDigits(digits) && i < |s| && (At(s, i) == 'e' || At(s, i) == 'E')
    requires Has(s, i + 1, sign) && Has(s, i + 1 + |sign|, digits) && !InNumber(At(s, i + 1 + |sign| + |digits|))
    ensures i + 1 + |sign| <= |s|
    ensures var (x, j) := ReadDigits(s, i + 1 + |sign|, 0);
            ReadExponent(s, i) == (if sign == "-" then -(x as int) else x, j)
  {
    hide ReadDigits, Has;
    HasRoom(s, i + 1 + |sign|, digits);
    if sign != "" {
      HasHead(s, i + 1, sign);
    } else if digits != "" {
      HasHead(s, i + 1, digits);
    }
  }

  /** A number is parsed to what its text means: the integer part and the fraction, times
      ten to the exponent, with the sign; and the parser stops behind its text. */
  lemma NumberMeans(s: string, i: nat, d: Decimal)
    requires WellFormed(d) && Has(s, i, DecimalText(d)) && !InNumber(At(s, i + |DecimalText(d)|))
    ensures i < |s| && (s[i] == '-' || IsDigit(s[i]))
    ensures var r := ParseNumber(s, i);
            r.Ok? && r.end == i + |DecimalText(d)| && r.value.Number?
            && exists x :: IsExponent(d.exponent, x)
                 && Value(r.value.mantissa, r.value.exponent) == (if d.negative then -Magnitude(d) else Magnitude(d)) * Power(x)
  {
    hide Natural, Fraction, Value, Has, ParseNumber, ReadWhole, ReadFraction, ReadExponent, WellFormed, IsExponent;
    hide WholeText, FractionText, ExponentText, Power;
    var sign, a, b, e := if d.negative then "-" else "", WholeText(d), FractionText(d), ExponentText(d);
    HasSplit(s, i, sign, a + (b + e));
    var i1 := i + |sign|;
    HasSplit(s, i1, a, b + e);
    var i2 := i1 + |a|;
    HasSplit(s, i2, b, e);
    var i3 := i2 + |b|;
    Bounds(s, i1, a, i2, b, i3, e);
    Borders(s, i2, i3, d);
    WholeReads(s, i1, d);
    if d.negative {
      HasHead(s, i, sign);
    }
    var n := ReadWhole(s, i1).0;
    FractionReads(s, i2, d, n);
    NumberParts(s, i, i1, i2, i3);
    ExponentReads(s, i3, d);
    var (m, scale, _) := ReadFraction(s, i2, n);
    var x := ReadExponent(s, i3).0;
    PowerSum(scale, x);
    Signed(d, m, scale, x);
  }

  lemma Bounds(s: string, i1: nat, a: string, i2: nat, b: string, i3: nat, e: string)
    requires Has(s, i1, a) && i2 == i1 + |a| && Has(s, i2, b) && i3 == i2 + |b| && Has(s, i3, e)
    ensures i1 <= i2 <= i3 <= |s| && i3 + |e| <= |s|
  {
  }

  /** What stands behind the integer part and behind the fraction. */
  lemma Borders(s: string, i2: nat, i3: nat, d: Decimal)
    requires WellFormed(d) && Has(s, i2, FractionText(d)) && i3 == i2 + |FractionText(d)| && Has(s, i3, ExponentText(d))
    requires !InNumber(At(s, i3 + |ExponentText(d)|))
    ensures !IsDigit(At(s, i2)) && !IsDigit(At(s, i3)) && (|d.fraction| == 0 ==> At(s, i2) != '.')
  {
    hide Has;
    if |ExponentText(d)| > 0 {
      HasHead(s, i3, ExponentText(d));
    }
    if |FractionText(d)| > 0 {
      HasHead(s, i2, FractionText(d));
    }
  }

  lemma Signed(d: Decimal, m: nat, scale: int, x: int)
    requires WellFormed(d) && m as real * Power(scale) == Magnitude(d) && Power(scale + x) == Power(scale) * Power(x)
    ensures Value(if d.negative then -(m as int) else m, scale + x) == (if d.negative then -Magnitude(d) else Magnitude(d)) * Power(x)
  {
    hide Power, Magnitude;
    var p, q := Power(scale), Power(x);
    assert m as real * (p * q) == m as real * p * q;
    assert (-(m as int)) as real == -(m as real);
  }
}
