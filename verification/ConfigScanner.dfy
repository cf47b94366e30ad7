/** The scanner rules for words, numbers, strings and punctuation, and the texts
    the writer produces for them. Comments, includes and floating-point numbers
    are not modelled: where their rules could match, scanning yields nothing. */
module ConfigScanner {
  import opened ConfigTree
  import opened ConfigParser
  import opened Integers
  import opened Optional

  // ---------- integers ----------

  const FORM_FEED := 12 as char

  predicate IsInt32(n: int) { InKind(Int, n) }

  predicate IsInt64(n: int) { InKind(Long, n) }

  /** `strtol` and `strtoul` stop at the limits of their 64-bit types. */
  function ClampSigned(n: int): int {
    if n < -TWO63 then -TWO63 else if n >= TWO63 then TWO63 - 1 else n
  }

  function ClampUnsigned(n: nat): int {
    if n >= TWO64 then TWO64 - 1 else n
  }

  function DigitChar(d: nat): char
    requires d < 16
  {
    "0123456789ABCDEF"[d]
  }

  /** The value of a digit, or -1. */
  function DigitValue(c: char, base: nat): int {
    if '0' <= c <= '9' then c as int - '0' as int
    else if base == 16 && 'A' <= c <= 'F' then c as int - 'A' as int + 10
    else if base == 16 && 'a' <= c <= 'f' then c as int - 'a' as int + 10
    else -1
  }

  lemma DigitBack(d: nat, base: nat)
    requires d < base && (base == 10 || base == 16)
    ensures DigitValue(DigitChar(d), base) == d
  {
  }

  function LowerDigit(c: char): char {
    if 'A' <= c <= 'F' then "abcdef"[c as int - 'A' as int] else c
  }

  function LowerDigits(s: string): (r: string)
    ensures |r| == |s|
  {
    if |s| == 0 then "" else [LowerDigit(s[0])] + LowerDigits(s[1..])
  }

  /** Hexadecimal digits have the same value in both cases. */
  lemma {:induction false} LowerReads(digits: string, rest: string, acc: nat)
    requires forall k | 0 <= k < |digits| :: DigitValue(digits[k], 16) >= 0
    ensures ReadDigits(LowerDigits(digits) + rest, 16, acc) == ReadDigits(digits + rest, 16, acc)
    decreases digits
  {
    if |digits| > 0 {
      var lower := LowerDigits(digits);
      assert DigitValue(lower[0], 16) == DigitValue(digits[0], 16) by { LowerValue(digits[0]); }
      hide DigitValue, LowerDigit;
      assert (lower + rest)[1..] == LowerDigits(digits[1..]) + rest && (digits + rest)[1..] == digits[1..] + rest;
      LowerReads(digits[1..], rest, acc * 16 + DigitValue(digits[0], 16));
    }
  }

  lemma LowerValue(c: char)
    ensures DigitValue(LowerDigit(c), 16) == DigitValue(c, 16)
  {
  }

  /** The digits of a number, as `%d` and `%X` print them. */
  function Digits(n: nat, base: nat): (r: string)
    requires base == 10 || base == 16
    ensures |r| > 0 && DigitValue(r[0], base) >= 0
    decreases n
  {
    if n < base then DigitBack(n, base); [DigitChar(n)] else Digits(n / base, base) + [DigitChar(n % base)]
  }

  predicate StartsDigit(s: string, base: nat) {
    |s| > 0 && DigitValue(s[0], base) >= 0
  }

  /** Reading digits as long as there are any: their value and the text behind them. */
  function ReadDigits(s: string, base: nat, acc: nat): (r: (nat, string))
    ensures |r.1| <= |s| && (StartsDigit(s, base) ==> |r.1| < |s|)
  {
    if StartsDigit(s, base) then ReadDigits(s[1..], base, acc * base + DigitValue(s[0], base)) else (acc, s)
  }

  lemma {:induction false} DigitsBack(n: nat, base: nat, rest: string)
    requires base == 10 || base == 16
    ensures ReadDigits(Digits(n, base) + rest, base, 0) == ReadDigits(rest, base, n)
    decreases n
  {
    hide DigitChar, DigitValue, Digits;
    DigitBack(n % base, base);
    DigitsSplit(n, base);
    var last := [DigitChar(n % base)] + rest;
    assert last[1..] == rest;
    if n >= base {
      DigitsBack(n / base, base, last);
      assert Digits(n, base) + rest == Digits(n / base, base) + last;
      assert ReadDigits(last, base, n / base) == ReadDigits(rest, base, (n / base) * base + n % base);
    } else {
      assert Digits(n, base) + rest == last;
    }
  }

  lemma DigitsSplit(n: nat, base: nat)
    requires base == 10 || base == 16
    ensures Digits(n, base) == if n < base then [DigitChar(n % base)] else Digits(n / base, base) + [DigitChar(n % base)]
    ensures n / base * base + n % base == n
  {
    hide DigitChar;
  }

  // ---------- strings ----------

  /** One character as the writer escapes it. */
  function Escaped(c: char): (r: string)
    requires 0 < c as int < 256
    ensures |r| > 0
  {
    if c == '\"' || c == '\\' then ['\\', c]
    else if c == '\n' then "\\n"
    else if c == '\r' then "\\r"
    else if c == FORM_FEED then "\\f"
    else if c == '\t' then "\\t"
    else if c >= ' ' then [c]
    else ['\\', 'x', DigitChar(c as int / 16), DigitChar(c as int % 16)]
  }

  predicate Bytes(s: string) {
    forall k | 0 <= k < |s| :: 0 < s[k] as int < 256
  }

  function EscapedText(s: string): string
    requires Bytes(s)
  {
    if |s| == 0 then "" else Escaped(s[0]) + EscapedText(s[1..])
  }

  predicate IsHex(c: char) {
    DigitValue(c, 16) >= 0
  }

  /** Rules 7 to 14: what an escape appends, and its length. A backslash that starts
      no known escape stands for itself; `\x00` appends nothing. */
  function Escape(s: string): (r: (string, nat))
    requires |s| > 0 && s[0] == '\\'
    ensures 0 < r.1 <= |s|
  {
    if |s| == 1 then ("\\", 1)
    else if s[1] == 'n' then ("\n", 2)
    else if s[1] == 'r' then ("\r", 2)
    else if s[1] == 't' then ("\t", 2)
    else if s[1] == 'f' then ([FORM_FEED], 2)
    else if s[1] == '\\' then ("\\", 2)
    else if s[1] == '\"' then ("\"", 2)
    else if (s[1] == 'x' || s[1] == 'X') && |s| > 3 && IsHex(s[2]) && IsHex(s[3]) then
      var code := 16 * DigitValue(s[2], 16) + DigitValue(s[3], 16);
      (if code == 0 then "" else [code as char], 4)
    else ("\\", 1)
  }

  /** Rules 6 to 15: the string up to its closing quote, and the text behind it. */
  function ScanString(s: string, buffer: string): (r: Option<(string, string)>)
    ensures r.Some? ==> |r.value.1| < |s|
    decreases |s|
  {
    if |s| == 0 then None
    else if s[0] == '\"' then Some((buffer, s[1..]))
    else if s[0] == '\\' then ScanString(s[Escape(s).1..], buffer + Escape(s).0)
    else ScanString(s[1..], buffer + [s[0]])
  }

  /** Every byte comes back from its escape. */
  lemma EscapeBack(c: char, rest: string, buffer: string)
    requires 0 < c as int < 256
    ensures ScanString(Escaped(c) + rest, buffer) == ScanString(rest, buffer + [c])
  {
    hide DigitValue;
    var s := Escaped(c) + rest;
    if c == '\"' || c == '\\' || c == '\n' || c == '\r' || c == FORM_FEED || c == '\t' {
      assert s[2..] == rest;
    } else if c >= ' ' {
      assert s[1..] == rest;
    } else {
      assert s[4..] == rest;
      DigitBack(c as int / 16, 16);
      DigitBack(c as int % 16, 16);
    }
  }

  /** The scanner undoes the writer's escapes, for every string of non-zero bytes. */
  lemma {:induction false} StringBack(s: string, rest: string, buffer: string)
    requires Bytes(s)
    ensures ScanString(EscapedText(s) + (['\"'] + rest), buffer) == Some((buffer + s, rest))
    decreases s
  {
    hide Escaped, Escape;
    var end := ['\"'] + rest;
    if |s| == 0 {
      assert EscapedText(s) + end == end && end[1..] == rest && buffer + s == buffer;
    } else {
      assert EscapedText(s) + end == Escaped(s[0]) + (EscapedText(s[1..]) + end);
      EscapeBack(s[0], EscapedText(s[1..]) + end, buffer);
      StringBack(s[1..], rest, buffer + [s[0]]);
      assert buffer + [s[0]] + s[1..] == buffer + s;
    }
  }

  method WriteChar(c: char) returns (out: string)
    requires 0 < c as int < 256
    ensures out == Escaped(c)
  {
    if c == '\"' || c == '\\' {
      out := ['\\'] + [c];
    } else if c == '\n' {
      out := "\\n";
    } else if c == '\r' {
      out := "\\r";
    } else if c == FORM_FEED {
      out := "\\f";
    } else if c == '\t' {
      out := "\\t";
    } else if c >= ' ' {
      out := [c];
    } else {
      out := "\\x" + [DigitChar(c as int / 16)] + [DigitChar(c as int % 16)];
    }
  }

  function Quoted(s: string): string
    requires Bytes(s)
  {
    ['\"'] + (EscapedText(s) + ['\"'])
  }

  /** The string as the writer puts it out, one character after the other. */
  method WriteString(s: string) returns (out: string)
    requires Bytes(s)
    ensures out == Quoted(s)
  {
    hide Escaped;
    out := ['\"'];
    for i := 0 to |s|
      invariant out + EscapedText(s[i..]) == ['\"'] + EscapedText(s)
    {
      assert s[i..][1..] == s[i + 1..];
      var piece := WriteChar(s[i]);
      out := out + piece;
    }
    assert s[|s|..] == [] && out + [] == out;
    assert out + ['\"'] == Quoted(s);
    out := out + ['\"'];
  }

  // ---------- words and numbers ----------

  predicate IsTrue(w: string) {
    |w| == 4 && w[0] in "tT" && w[1] in "rR" && w[2] in "uU" && w[3] in "eE"
  }

  predicate IsFalse(w: string) {
    |w| == 5 && w[0] in "fF" && w[1] in "aA" && w[2] in "lL" && w[3] in "sS" && w[4] in "eE"
  }

  predicate IsBoolean(w: string) {
    IsTrue(w) || IsFalse(w)
  }

  function LowerLetter(c: char): char {
    if 'A' <= c <= 'Z' then (c as int - 'A' as int + 'a' as int) as char else c
  }

  /** The words for booleans are `true` and `false`, in upper and lower case. */
  lemma BooleanWords(w: string)
    ensures IsTrue(w) <==> seq(|w|, k requires 0 <= k < |w| => LowerLetter(w[k])) == "true"
    ensures IsFalse(w) <==> seq(|w|, k requires 0 <= k < |w| => LowerLetter(w[k])) == "false"
  {
    var lower := seq(|w|, k requires 0 <= k < |w| => LowerLetter(w[k]));
    if lower == "true" {
      assert lower[0] == 't' && lower[1] == 'r' && lower[2] == 'u' && lower[3] == 'e';
    }
    if lower == "false" {
      assert lower[0] == 'f' && lower[1] == 'a' && lower[2] == 'l' && lower[3] == 's' && lower[4] == 'e';
    }
  }

  function ReadWord(s: string): (r: (string, string))
    ensures |r.0| + |r.1| == |s|
  {
    if |s| > 0 && NameChar(s[0]) then
      var more := ReadWord(s[1..]);
      ([s[0]] + more.0, more.1)
    else ("", s)
  }

  lemma {:induction false} WordBack(w: string, rest: string)
    requires forall k | 0 <= k < |w| :: NameChar(w[k])
    requires |rest| > 0 ==> !NameChar(rest[0])
    ensures ReadWord(w + rest) == (w, rest)
  {
    if |w| == 0 {
      assert w + rest == rest;
    } else {
      WordBack(w[1..], rest);
      var s := w + rest;
      assert s[0] == w[0] && s[1..] == w[1..] + rest && NameChar(w[0]);
      assert [w[0]] + w[1..] == w;
    }
  }

  function Signed(n: nat, negative: bool): int {
    if negative then 0 - n else n
  }

  /** Rules 31 and 32 after an optional sign; a fraction or an exponent is not modelled. */
  function DecimalToken(s: string, negative: bool): (r: Option<(Token, string)>)
    ensures r.Some? && StartsDigit(s, 10) ==> |r.value.1| < |s|
  {
    var (n, rest) := ReadDigits(s, 10, 0);
    var v := ClampSigned(Signed(n, negative));
    if |rest| > 0 && rest[0] in ".eE" then None
    else if |rest| > 0 && rest[0] == 'L' then
      Some((Integer64Tok(v), if |rest| > 1 && rest[1] == 'L' then rest[2..] else rest[1..]))
    else Some((IntegerTok(Wrap(Int, v)), rest))
  }

  /** Rules 33 and 34 behind the `0x`. */
  function HexToken(s: string): (r: (Token, string))
    ensures |r.1| <= |s|
  {
    var (n, rest) := ReadDigits(s, 16, 0);
    if |rest| > 0 && rest[0] == 'L' then
      (Hex64Tok(Wrap(Long, ClampUnsigned(n))), if |rest| > 1 && rest[1] == 'L' then rest[2..] else rest[1..])
    else (HexTok(Wrap(Int, ClampUnsigned(n))), rest)
  }

  predicate StartsHex(s: string) {
    |s| > 2 && s[0] == '0' && (s[1] == 'x' || s[1] == 'X') && IsHex(s[2])
  }

  function NumberToken(s: string): (r: Option<(Token, string)>)
    requires |s| > 0
    ensures r.Some? ==> |r.value.1| < |s|
  {
    if StartsHex(s) then Some(HexToken(s[2..]))
    else if StartsDigit(s, 10) then DecimalToken(s, false)
    else if (s[0] == '-' || s[0] == '+') && StartsDigit(s[1..], 10) then DecimalToken(s[1..], s[0] == '-')
    else if (s[0] == '-' || s[0] == '+') && (|s| == 1 || s[1] != '.') then Some((GarbageTok, s[1..]))
    else None
  }

  /** A long number may have one or two letters behind its digits. */
  lemma LongSuffix(n: nat, negative: bool, rest: string)
    requires |rest| > 0 ==> rest[0] != 'L'
    ensures DecimalToken(Digits(n, 10) + ("LL" + rest), negative) == Some((Integer64Tok(ClampSigned(Signed(n, negative))), rest))
    ensures DecimalToken(Digits(n, 10) + ("L" + rest), negative) == Some((Integer64Tok(ClampSigned(Signed(n, negative))), rest))
    ensures HexToken(Digits(n, 16) + ("LL" + rest)) == (Hex64Tok(Wrap(Long, ClampUnsigned(n))), rest)
    ensures HexToken(Digits(n, 16) + ("L" + rest)) == (Hex64Tok(Wrap(Long, ClampUnsigned(n))), rest)
  {
    hide Digits, Wrap;
    var one, two := "L" + rest, "LL" + rest;
    DigitsBack(n, 10, one);
    DigitsBack(n, 10, two);
    DigitsBack(n, 16, one);
    DigitsBack(n, 16, two);
    assert one[1..] == rest && two[2..] == rest;
  }

  /** How the writer prints an integer. */
  function NumberText(n: int, wide: bool, format: Format): (r: string)
    ensures |r| > 0
  {
    var text :=
      if format == HexFormat then "0x" + Digits(n % (if wide then TWO64 else TWO32), 16)
      else if n < 0 then "-" + Digits(-n, 10)
      else Digits(n, 10);
    if wide then text + "L" else text
  }

  function IntToken(n: int, wide: bool, format: Format): Token {
    if wide then (if format == HexFormat then Hex64Tok(n) else Integer64Tok(n))
    else if format == HexFormat then HexTok(n) else IntegerTok(n)
  }

  predicate InWidth(n: int, wide: bool) {
    if wide then IsInt64(n) else IsInt32(n)
  }

  /** What may follow a number or a word that the writer puts out. */
  predicate Delimited(rest: string) {
    |rest| > 0 && rest[0] in " ,;\n"
  }

  lemma DigitsEnd(n: nat, base: nat, wide: bool, rest: string)
    requires (base == 10 || base == 16) && Delimited(rest)
    ensures ReadDigits(Digits(n, base) + (if wide then "L" + rest else rest), base, 0) == (n, if wide then "L" + rest else rest)
  {
    DigitsBack(n, base, if wide then "L" + rest else rest);
  }

  lemma DecimalBack(n: nat, wide: bool, negative: bool, rest: string)
    requires InWidth(Signed(n, negative), wide) && Delimited(rest)
    ensures var s := Digits(n, 10) + (if wide then "L" + rest else rest);
            StartsDigit(s, 10) && !StartsHex(s)
            && DecimalToken(s, negative) == Some((IntToken(Signed(n, negative), wide, DefaultFormat), rest))
  {
    hide Digits, ReadDigits, DigitValue;
    DigitsEnd(n, 10, wide, rest);
    DigitsNoHex(n, if wide then "L" + rest else rest);
    assert wide ==> ("L" + rest)[1..] == rest && ("L" + rest)[1] == rest[0];
  }

  lemma {:induction false} DigitsNoHex(n: nat, rest: string)
    requires |rest| > 0 && rest[0] != 'x' && rest[0] != 'X'
    ensures !StartsHex(Digits(n, 10) + rest)
    decreases n
  {
    if n >= 10 {
      DigitsNoHex(n / 10, [DigitChar(n % 10)] + rest);
      assert Digits(n, 10) + rest == Digits(n / 10, 10) + ([DigitChar(n % 10)] + rest);
    }
  }

  lemma HexWraps(n: int, wide: bool)
    requires InWidth(n, wide)
    ensures wide ==> Wrap(Long, ClampUnsigned(n % TWO64)) == n
    ensures !wide ==> Wrap(Int, ClampUnsigned(n % TWO32)) == n
  {
    hide Wrap;
    if wide {
      UnsignedIs(n, TWO64);
      WrapsDown(Long, n);
    } else {
      UnsignedIs(n, TWO32);
      WrapsDown(Int, n);
    }
  }

  lemma UnsignedIs(n: int, m: int)
    requires -m <= n < m && (m == TWO32 || m == TWO64)
    ensures n % m == if n < 0 then n + m else n
  {
  }

  lemma WrapsDown(kind: Integers.Kind, n: int)
    requires InKind(kind, n)
    ensures Wrap(kind, n) == n && Wrap(kind, n + Modulus(kind)) == n
  {
    if kind == Int {
      assert (n + TWO31 + TWO32) % TWO32 == n + TWO31;
    } else {
      assert (n + TWO63 + TWO64) % TWO64 == n + TWO63;
    }
  }

  lemma HexBack(n: int, wide: bool, rest: string)
    requires InWidth(n, wide) && Delimited(rest)
    ensures HexToken(Digits(n % (if wide then TWO64 else TWO32), 16) + (if wide then "L" + rest else rest))
      == (IntToken(n, wide, HexFormat), rest)
  {
    hide Digits, ReadDigits, DigitValue, Wrap, ClampUnsigned;
    HexWraps(n, wide);
    DigitsEnd(n % (if wide then TWO64 else TWO32), 16, wide, rest);
    assert wide ==> ("L" + rest)[1..] == rest && ("L" + rest)[1] == rest[0];
  }

  lemma HexNumberBack(n: int, wide: bool, rest: string)
    requires InWidth(n, wide) && Delimited(rest)
    ensures NumberToken(NumberText(n, wide, HexFormat) + rest) == Some((IntToken(n, wide, HexFormat), rest))
  {
    hide DecimalToken, HexToken, ReadDigits, DigitValue, Digits, IntToken;
    var tail := if wide then "L" + rest else rest;
    var s := NumberText(n, wide, HexFormat) + rest;
    var digits := Digits(n % (if wide then TWO64 else TWO32), 16);
    assert s[2..] == digits + tail && s[0] == '0' && s[1] == 'x' && s[2] == digits[0];
    HexBack(n, wide, rest);
  }

  lemma NegativeNumberBack(n: int, wide: bool, rest: string)
    requires n < 0 && InWidth(n, wide) && Delimited(rest)
    ensures NumberToken(NumberText(n, wide, DefaultFormat) + rest) == Some((IntToken(n, wide, DefaultFormat), rest))
  {
    hide DecimalToken, HexToken, ReadDigits, DigitValue, Digits, IntToken;
    var tail := if wide then "L" + rest else rest;
    var s := NumberText(n, wide, DefaultFormat) + rest;
    assert s[0] == '-' && s[1..] == Digits(-n, 10) + tail;
    SignNoDigit();
    DecimalBack(-n, wide, true, rest);
  }

  /** Every integer of its width comes back with its format. */
  lemma NumberBack(n: int, wide: bool, format: Format, rest: string)
    requires InWidth(n, wide) && Delimited(rest)
    ensures NumberToken(NumberText(n, wide, format) + rest) == Some((IntToken(n, wide, format), rest))
  {
    hide DecimalToken, HexToken, ReadDigits, DigitValue, Digits, IntToken, StartsHex, StartsDigit;
    if format == HexFormat {
      HexNumberBack(n, wide, rest);
    } else if n < 0 {
      NegativeNumberBack(n, wide, rest);
    } else {
      var tail := if wide then "L" + rest else rest;
      assert NumberText(n, wide, format) + rest == Digits(n, 10) + tail;
      DecimalBack(n, wide, false, rest);
    }
  }

  lemma SignNoDigit()
    ensures DigitValue('-', 10) < 0
  {
  }

  // ---------- tokens ----------

  /** Rules 23 to 26 and 35 to 39. */
  function Punctuation(c: char): Option<Token> {
    match c
    case '=' => Some(EqualsTok)
    case ':' => Some(EqualsTok)
    case ',' => Some(CommaTok)
    case '{' => Some(GroupStartTok)
    case '}' => Some(GroupEndTok)
    case '[' => Some(ArrayStartTok)
    case ']' => Some(ArrayEndTok)
    case '(' => Some(ListStartTok)
    case ')' => Some(ListEndTok)
    case ';' => Some(SemicolonTok)
    case _ => None
  }

  predicate IsBlank(c: char) {
    c == ' ' || c == '\t' || c == '\n' || c == '\r' || c == FORM_FEED
  }

  function WordToken(w: string): Token {
    if IsTrue(w) then BooleanTok(true) else if IsFalse(w) then BooleanTok(false) else NameTok(w)
  }

  function Then(t: Token, more: Option<seq<Token>>): Option<seq<Token>> {
    if more.Some? then Some([t] + more.value) else None
  }

  /** The tokens of a text. */
  function Scan(s: string): Option<seq<Token>>
    decreases |s|
  {
    if |s| == 0 then Some([])
    else if IsBlank(s[0]) then Scan(s[1..])
    else if Punctuation(s[0]).Some? then Then(Punctuation(s[0]).value, Scan(s[1..]))
    else if s[0] == '\"' then
      match ScanString(s[1..], "")
      case Some((text, rest)) => Then(StringTok(text), Scan(rest))
      case None => None
    else if IsAlpha(s[0]) || s[0] == '*' then
      var (w, rest) := ReadWord(s);
      assert NameChar(s[0]);
      Then(WordToken(w), Scan(rest))
    else if DigitValue(s[0], 10) >= 0 || s[0] in "+-." then
      match NumberToken(s)
      case Some((t, rest)) => Then(t, Scan(rest))
      case None => None
    else if s[0] in "#/@" then None
    else Then(GarbageTok, Scan(s[1..]))
  }

  // ---------- the scanner on the writer's pieces ----------

  lemma {:induction false} ScanBlanks(s: string, rest: string)
    requires forall k | 0 <= k < |s| :: IsBlank(s[k])
    ensures Scan(s + rest) == Scan(rest)
  {
    if |s| == 0 {
      assert s + rest == rest;
    } else {
      ScanBlanks(s[1..], rest);
      assert (s + rest)[1..] == s[1..] + rest;
    }
  }

  lemma ScanPunctuation(c: char, rest: string)
    requires Punctuation(c).Some?
    ensures Scan([c] + rest) == Then(Punctuation(c).value, Scan(rest))
  {
    assert ([c] + rest)[1..] == rest;
  }

  lemma ScanQuoted(s: string, rest: string)
    requires Bytes(s)
    ensures Scan(Quoted(s) + rest) == Then(StringTok(s), Scan(rest))
  {
    hide ScanString, EscapedText, Punctuation, NumberToken;
    var text := Quoted(s) + rest;
    assert text[0] == '\"' && text[1..] == EscapedText(s) + (['\"'] + rest);
    StringBack(s, rest, "");
    assert "" + s == s;
    QuoteStart();
  }

  lemma QuoteStart()
    ensures Punctuation('\"').None?
  {
  }

  lemma ScanWord(w: string, rest: string)
    requires ValidName(w) && Delimited(rest)
    ensures Scan(w + rest) == Then(WordToken(w), Scan(rest))
  {
    hide ReadWord, WordToken, Scan;
    WordBack(w, rest);
    ScanWordStep(w + rest);
  }

  lemma WordStart(c: char)
    requires IsAlpha(c) || c == '*'
    ensures NameChar(c) && !IsBlank(c) && Punctuation(c).None? && c != '\"'
  {
  }

  lemma ScanWordStep(s: string)
    requires |s| > 0 && (IsAlpha(s[0]) || s[0] == '*')
    ensures Scan(s) == Then(WordToken(ReadWord(s).0), Scan(ReadWord(s).1))
  {
    hide Punctuation, IsBlank, NameChar, WordToken, ScanString, NumberToken, DigitValue;
    WordStart(s[0]);
  }

  lemma NumberFirst(c: char)
    requires DigitValue(c, 10) >= 0 || c == '-'
    ensures !IsBlank(c) && Punctuation(c).None? && c != '\"' && !IsAlpha(c) && c != '*'
  {
  }

  lemma ScanNumberStep(s: string)
    requires |s| > 0 && (DigitValue(s[0], 10) >= 0 || s[0] == '-') && NumberToken(s).Some?
    ensures Scan(s) == Then(NumberToken(s).value.0, Scan(NumberToken(s).value.1))
  {
    hide NumberToken, ReadWord, ScanString, Punctuation, IsBlank, IsAlpha, DigitValue, WordToken;
    NumberFirst(s[0]);
  }

  lemma ScanNumber(n: int, wide: bool, format: Format, rest: string)
    requires InWidth(n, wide) && Delimited(rest)
    ensures Scan(NumberText(n, wide, format) + rest) == Then(IntToken(n, wide, format), Scan(rest))
  {
    hide NumberToken, Scan, IntToken;
    NumberBack(n, wide, format, rest);
    NumberStart(n, wide, format);
    ScanNumberStep(NumberText(n, wide, format) + rest);
  }

  lemma NumberStart(n: int, wide: bool, format: Format)
    ensures var c := NumberText(n, wide, format)[0]; DigitValue(c, 10) >= 0 || c == '-'
  {
    if format != HexFormat {
      if n < 0 {
      } else {
        assert NumberText(n, wide, format)[0] == Digits(n, 10)[0];
      }
    }
  }

  lemma WordShrinks(s: string)
    requires |s| > 0 && NameChar(s[0])
    ensures |ReadWord(s).1| < |s|
  {
  }
}
