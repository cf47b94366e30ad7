/** Rendering and reading of numbers: `print_number` and `parse_number`. */
module JsonNumber {
  import opened JsonText

  predicate IsDigit(c: char) {
    '0' <= c <= '9'
  }

  function DigitOf(d: nat): (c: char)
    requires d < 10
    ensures IsDigit(c) && c as int == '0' as int + d
  {
    ('0' as int + d) as char
  }

  function DigitValue(c: char): (d: nat)
    requires IsDigit(c)
    ensures d < 10
  {
    c as int - '0' as int
  }

  /** Decimal digits of `n` without leading zeros; nothing for zero. */
  function Digits(n: nat): string {
    if n == 0 then "" else Digits(n / 10) + [DigitOf(n % 10)]
  }

  /** What `sprintf("%d")` writes. */
  function PrintInt(n: int): (r: string)
    ensures |r| > 0 && (r[0] == '-' || IsDigit(r[0]))
  {
    if n == 0 then "0"
    else if n < 0 then "-" + Digits(-n)
    else DigitsStart(n); Digits(n)
  }

  lemma {:induction false} DigitsStart(n: nat)
    requires n > 0
    ensures |Digits(n)| > 0 && '1' <= Digits(n)[0] <= '9'
  {
    if n >= 10 {
      DigitsStart(n / 10);
    }
  }

  lemma {:induction false} DigitsAreDigits(n: nat)
    ensures forall k | 0 <= k < |Digits(n)| :: IsDigit(Digits(n)[k])
  {
    if n > 0 {
      DigitsAreDigits(n / 10);
    }
  }

  /** A run of digits read into `n`: the value and the position after it. */
  function ReadDigits(s: string, i: nat, n: nat): (r: (nat, nat))
    requires i <= |s|
    ensures i <= r.1 <= |s| && !IsDigit(At(s, r.1))
    ensures IsDigit(At(s, i)) ==> i < r.1
    decreases |s| - i
  {
    if IsDigit(At(s, i)) then ReadDigits(s, i + 1, n * 10 + DigitValue(s[i])) else (n, i)
  }

  function SkipOne(s: string, i: nat, c: char): nat {
    if At(s, i) == c then i + 1 else i
  }

  /** The integer part: an optional zero, then digits that start with 1..9. */
  function ReadWhole(s: string, i: nat): (r: (nat, nat))
    requires i <= |s|
    ensures i <= r.1 <= |s|
    ensures IsDigit(At(s, i)) ==> i < r.1
  {
    var i2 := SkipOne(s, i, '0');
    if '1' <= At(s, i2) <= '9' then ReadDigits(s, i2, 0) else (0, i2)
  }

  /** The fraction: digits go on accumulating and each one lowers the scale. */
  function ReadFraction(s: string, i: nat, n: nat): (r: (nat, int, nat))
    requires i <= |s|
    ensures i <= r.2 <= |s|
  {
    if At(s, i) == '.' && IsDigit(At(s, i + 1)) then
      var (m, j) := ReadDigits(s, i + 1, n);
      (m, (i + 1) - j, j)
    else
      (n, 0, i)
  }

  /** The exponent with its sign. */
  function ReadExponent(s: string, i: nat): (r: (int, nat))
    requires i <= |s|
    ensures i <= r.1 <= |s|
  {
    if At(s, i) == 'e' || At(s, i) == 'E' then
      if At(s, i + 1) == '-' then
        var (x, j) := ReadDigits(s, i + 2, 0); (-(x as int), j)
      else
        ReadDigits(s, SkipOne(s, i + 1, '+'), 0)
    else
      (0, i)
  }

  function ParseNumber(s: string, i: nat): (r: Outcome<Json>)
    requires i < |s| && (s[i] == '-' || IsDigit(s[i]))
    ensures r.Ok? && i < r.end <= |s|
  {
    var i1 := SkipOne(s, i, '-');
    var (n, i2) := ReadWhole(s, i1);
    var (m, scale, i3) := ReadFraction(s, i2, n);
    var (subscale, i4) := ReadExponent(s, i3);
    Ok(Number(if i1 > i then -(m as int) else m, scale + subscale), i4)
  }

  /** A character that cannot go on the number before it. */
  predicate EndsNumber(c: char) {
    !IsDigit(c) && c != '.' && c != 'e' && c != 'E'
  }

  lemma {:induction false} ReadDigitsBack(s: string, i: nat, n: nat)
    requires Has(s, i, Digits(n))
    ensures ReadDigits(s, i, 0) == ReadDigits(s, i + |Digits(n)|, n)
  {
    if n > 0 {
      HasSplit(s, i, Digits(n / 10), [DigitOf(n % 10)]);
      ReadDigitsBack(s, i, n / 10);
      HasHead(s, i + |Digits(n / 10)|, [DigitOf(n % 10)]);
    }
  }

  lemma WholeBack(s: string, i: nat, m: nat)
    requires m > 0 && Has(s, i, Digits(m)) && EndsNumber(At(s, i + |Digits(m)|))
    ensures '1' <= At(s, i) <= '9' && ReadWhole(s, i) == (m, i + |Digits(m)|)
  {
    hide Digits, Has;
    DigitsStart(m);
    HasHead(s, i, Digits(m));
    DigitsInside(s, i, m);
    ReadDigitsBack(s, i, m);
  }

  lemma DigitsInside(s: string, i: nat, m: nat)
    requires Has(s, i, Digits(m))
    ensures i + |Digits(m)| <= |s|
  {
  }

  lemma NumberEnds(s: string, i: nat, n: nat)
    requires i <= |s| && EndsNumber(At(s, i))
    ensures ReadFraction(s, i, n) == (n, 0, i) && ReadExponent(s, i) == (0, i)
  {
  }

  /** Every integer is read back from its decimal rendering, and nothing after it is consumed. */
  lemma NumberBack(s: string, i: nat, n: int)
    requires Has(s, i, PrintInt(n))
    requires EndsNumber(At(s, i + |PrintInt(n)|))
    ensures At(s, i) == '-' || IsDigit(At(s, i))
    ensures ParseNumber(s, i) == Ok(Number(n, 0), i + |PrintInt(n)|)
  {
    hide Has, Digits, ReadFraction, ReadExponent;
    HasHead(s, i, PrintInt(n));
    if n == 0 {
      NumberEnds(s, i + 1, 0);
    } else {
      hide ReadWhole;
      var m: nat := if n < 0 then -n else n;
      var j := if n < 0 then i + 1 else i;
      if n < 0 {
        HasSplit(s, i, "-", Digits(m));
      }
      WholeBack(s, j, m);
      NumberEnds(s, j + |Digits(m)|, m);
    }
  }

  // ---------- the scanner as it runs ----------

  method ScanDigits(s: string, start: nat, from: nat) returns (n: nat, i: nat)
    requires start <= |s|
    ensures (n, i) == ReadDigits(s, start, from)
  {
    n, i := from, start;
    while IsDigit(At(s, i))
      invariant start <= i <= |s|
      invariant ReadDigits(s, i, n) == ReadDigits(s, start, from)
      decreases |s| - i
    {
      n, i := n * 10 + DigitValue(s[i]), i + 1;
    }
  }

  method ScanWhole(s: string, start: nat) returns (n: nat, num: nat)
    requires start <= |s|
    ensures (n, num) == ReadWhole(s, start)
  {
    n, num := 0, start;
    if At(s, num) == '0' {
      num := num + 1;
    }
    if '1' <= At(s, num) <= '9' {
      n, num := ScanDigits(s, num, n);
    }
  }

  method ScanFraction(s: string, start: nat, from: nat) returns (n: nat, scale: int, num: nat)
    requires start <= |s|
    ensures (n, scale, num) == ReadFraction(s, start, from)
  {
    n, scale, num := from, 0, start;
    if At(s, num) == '.' && IsDigit(At(s, num + 1)) {
      num := num + 1;
      while IsDigit(At(s, num))
        invariant start < num <= |s|
        invariant scale == start + 1 - num
        invariant ReadDigits(s, num, n) == ReadDigits(s, start + 1, from)
        decreases |s| - num
      {
        n, scale, num := n * 10 + DigitValue(s[num]), scale - 1, num + 1;
      }
    }
  }

  method ScanExponent(s: string, start: nat) returns (subscale: int, num: nat)
    requires start <= |s|
    ensures (subscale, num) == ReadExponent(s, start)
  {
    subscale, num := 0, start;
    if At(s, num) == 'e' || At(s, num) == 'E' {
      num := num + 1;
      var signsubscale: int := 1;
      if At(s, num) == '+' {
        num := num + 1;
      } else if At(s, num) == '-' {
        signsubscale, num := -1, num + 1;
      }
      var x;
      x, num := ScanDigits(s, num, 0);
      subscale := x * signsubscale;
    }
  }

  method ScanNumber(s: string, start: nat) returns (item: Json, num: nat)
    requires start < |s| && (s[start] == '-' || IsDigit(s[start]))
    ensures ParseNumber(s, start) == Ok(item, num)
  {
    var negative := At(s, start) == '-';
    var first := SkipOne(s, start, '-');
    var n, dot := ScanWhole(s, first);
    var m, scale, mark := ScanFraction(s, dot, n);
    var subscale;
    subscale, num := ScanExponent(s, mark);
    item := Number(if negative then -(m as int) else m, scale + subscale);
  }
}
