/** String literals: `print_string_ptr`, `parse_hex4` and `parse_string`,
    with the transcoding of UTF-16 escapes to UTF-8. */
module JsonString {
  import opened BitOps
  import opened JsonText

  // ---------- UTF-8 ----------

  /** `firstByteMark`: the lead-byte mark of a sequence of each length. */
  const FIRST_BYTE_MARK: seq<nat> := [0x00, 0x00, 0xC0, 0xE0, 0xF0, 0xF8, 0xFC]

  /** The low six bits under the mark of a continuation byte. */
  function Continuation(uc: nat): char {
    (0x80 + uc % 0x40) as char
  }

  function Utf8Length(uc: nat): (len: nat)
    ensures 1 <= len <= 4
  {
    if uc < 0x80 then 1 else if uc < 0x800 then 2 else if uc < 0x10000 then 3 else 4
  }

  function Utf8(uc: nat): (r: string)
    requires uc < 0x11_0000
    ensures |r| == Utf8Length(uc)
  {
    if uc < 0x80 then [uc as char]
    else if uc < 0x800 then [(0xC0 + uc / 0x40) as char, Continuation(uc)]
    else if uc < 0x10000 then
      [(0xE0 + uc / 0x1000) as char, Continuation(uc / 0x40), Continuation(uc)]
    else
      [(0xF0 + uc / 0x4_0000) as char, Continuation(uc / 0x1000), Continuation(uc / 0x40), Continuation(uc)]
  }

  predicate IsTail(c: char) {
    0x80 <= c as int < 0xC0
  }

  /** The code point a UTF-8 sequence stands for, by the syntax of section 4 of
      RFC 3629: shortest forms only, no surrogates, nothing above 0x10FFFF. */
  function DecodeUtf8(b: string): (r: int) {
    if |b| == 1 && b[0] as int < 0x80 then b[0] as int
    else if |b| == 2 && 0xC2 <= b[0] as int <= 0xDF && IsTail(b[1]) then
      (b[0] as int - 0xC0) * 0x40 + (b[1] as int - 0x80)
    else if |b| == 3 && 0xE0 <= b[0] as int <= 0xEF && IsTail(b[1]) && IsTail(b[2])
      && (b[0] as int == 0xE0 ==> b[1] as int >= 0xA0) && (b[0] as int == 0xED ==> b[1] as int < 0xA0) then
      (b[0] as int - 0xE0) * 0x1000 + (b[1] as int - 0x80) * 0x40 + (b[2] as int - 0x80)
    else if |b| == 4 && 0xF0 <= b[0] as int <= 0xF4 && IsTail(b[1]) && IsTail(b[2]) && IsTail(b[3])
      && (b[0] as int == 0xF0 ==> b[1] as int >= 0x90) && (b[0] as int == 0xF4 ==> b[1] as int < 0x90) then
      (b[0] as int - 0xF0) * 0x4_0000 + (b[1] as int - 0x80) * 0x1000 + (b[2] as int - 0x80) * 0x40 + (b[3] as int - 0x80)
    else -1
  }

  predicate IsLow(uc: nat) {
    0xDC00 <= uc <= 0xDFFF
  }

  predicate IsHigh(uc: nat) {
    0xD800 <= uc <= 0xDBFF
  }

  lemma FourBytes(uc: nat)
    requires 0x10000 <= uc < 0x11_0000
    ensures DecodeUtf8(Utf8(uc)) == uc
  {
    var a, b, c, d := uc / 0x4_0000, uc / 0x1000 % 0x40, uc / 0x40 % 0x40, uc % 0x40;
    assert uc / 0x40 / 0x40 == uc / 0x1000 && uc / 0x1000 / 0x40 == a;
    assert uc == a * 0x4_0000 + b * 0x1000 + c * 0x40 + d;
    assert Utf8(uc) == [(0xF0 + a) as char, (0x80 + b) as char, (0x80 + c) as char, (0x80 + d) as char];
  }

  lemma ThreeBytes(uc: nat)
    requires 0x800 <= uc < 0x10000 && !IsLow(uc) && !IsHigh(uc)
    ensures DecodeUtf8(Utf8(uc)) == uc
  {
    var a, b, c := uc / 0x1000, uc / 0x40 % 0x40, uc % 0x40;
    assert uc / 0x40 / 0x40 == a;
    assert uc == a * 0x1000 + b * 0x40 + c;
    assert Utf8(uc) == [(0xE0 + a) as char, (0x80 + b) as char, (0x80 + c) as char];
  }

  /** The emitted bytes are the UTF-8 form of the code point, for every Unicode scalar value. */
  lemma Utf8Correct(uc: nat)
    requires uc < 0x11_0000 && !IsLow(uc) && !IsHigh(uc)
    ensures DecodeUtf8(Utf8(uc)) == uc
  {
    if uc >= 0x10000 {
      FourBytes(uc);
    } else if uc >= 0x800 {
      ThreeBytes(uc);
    }
  }

  // ---------- escapes ----------

  predicate IsHex(c: char) {
    '0' <= c <= '9' || 'A' <= c <= 'F' || 'a' <= c <= 'f'
  }

  function HexValue(c: char): (v: nat)
    requires IsHex(c)
    ensures v < 16
  {
    if c <= '9' then c as int - '0' as int
    else if c <= 'F' then 10 + (c as int - 'A' as int)
    else 10 + (c as int - 'a' as int)
  }

  predicate FourHex(s: string, i: nat) {
    IsHex(At(s, i)) && IsHex(At(s, i + 1)) && IsHex(At(s, i + 2)) && IsHex(At(s, i + 3))
  }

  /** `parse_hex4`: zero when one of the four characters is no hex digit. */
  function Hex4(s: string, i: nat): (r: nat)
    ensures r < 0x10000
  {
    if FourHex(s, i) then
      ((HexValue(s[i]) * 16 + HexValue(s[i + 1])) * 16 + HexValue(s[i + 2])) * 16 + HexValue(s[i + 3])
    else 0
  }

  /** Four hex digits in upper or lower case, the first one with the highest weight. */
  lemma Hex4Is(s: string, i: nat, a: nat, b: nat, c: nat, d: nat)
    requires a < 16 && b < 16 && c < 16 && d < 16
    requires IsHexOf(At(s, i), a) && IsHexOf(At(s, i + 1), b) && IsHexOf(At(s, i + 2), c) && IsHexOf(At(s, i + 3), d)
    ensures Hex4(s, i) == 0x1000 * a + 0x100 * b + 0x10 * c + d
  {
    hide HexValue, IsHexOf;
    HexIs(At(s, i), a);
    HexIs(At(s, i + 1), b);
    HexIs(At(s, i + 2), c);
    HexIs(At(s, i + 3), d);
  }

  predicate IsHexOf(c: char, d: nat)
    requires d < 16
  {
    c == "0123456789abcdef"[d] || c == "0123456789ABCDEF"[d]
  }

  lemma HexIs(c: char, d: nat)
    requires d < 16 && IsHexOf(c, d)
    ensures IsHex(c) && HexValue(c) == d
  {
  }

  /** The end of a literal's body: the closing quote or the end of the text. */
  predicate AtEnd(s: string, i: nat) {
    At(s, i) == '"' || At(s, i) == NUL
  }

  /** A character that neither ends a body nor begins an escape. */
  predicate IsPlain(c: char) {
    c != '"' && c != NUL && c != '\\'
  }

  predicate FourPlain(s: string, i: nat) {
    IsPlain(At(s, i)) && IsPlain(At(s, i + 1)) && IsPlain(At(s, i + 2)) && IsPlain(At(s, i + 3))
  }

  /** Every escape from here to the end of the body is whole: a `\u` has its four
      characters, hex digits or not, and the two passes agree on where the body goes on. */
  predicate EscapesOk(s: string, i: nat)
    decreases |s| - i
  {
    if AtEnd(s, i) then true
    else if s[i] != '\\' then EscapesOk(s, i + 1)
    else if At(s, i + 1) == 'u' then FourPlain(s, i + 2) && EscapesOk(s, i + 6)
    else At(s, i + 1) != NUL && EscapesOk(s, i + 2)
  }

  function SimpleEscape(c: char): char {
    match c
    case 'b' => '\U{08}'
    case 'f' => '\U{0C}'
    case 'n' => '\n'
    case 'r' => '\r'
    case 't' => '\t'
    case _ => c
  }

  predicate UnicodeEscape(s: string, i: nat) {
    At(s, i) == '\\' && At(s, i + 1) == 'u'
  }

  /** `0x10000 + (((uc & 0x3FF) << 10) | (uc2 & 0x3FF))` on 32 bits. */
  function Combine(high: nat, low: nat): (r: nat)
    ensures 0x10000 <= r < 0x11_0000
  {
    CombineBits(high, low);
    0x10000 + BitOr(ShiftLeft(BitAnd(high, 0x3FF, 32), 10, 32), BitAnd(low, 0x3FF, 32), 32)
  }

  lemma CombineBits(high: nat, low: nat)
    ensures BitOr(ShiftLeft(BitAnd(high, 0x3FF, 32), 10, 32), BitAnd(low, 0x3FF, 32), 32) == high % 0x400 * 0x400 + low % 0x400
  {
    hide Bitwise, Pow2;
    SmallPow2();
    FullPow2();
    MaskIsRemainder(high, 10, 32);
    MaskIsRemainder(low, 10, 32);
    OrIsSum(high % 0x400, low % 0x400, 10, 32);
  }

  /** The code point of a surrogate pair, as UTF-16 defines it. */
  function SurrogatePair(high: nat, low: nat): (r: nat)
    requires IsHigh(high) && IsLow(low)
    ensures 0x10000 <= r < 0x11_0000
  {
    0x10000 + (high - 0xD800) * 0x400 + (low - 0xDC00)
  }

  /** Masking, shifting and joining ten bits of each half gives the code point of the pair. */
  lemma CombineIsPair(high: nat, low: nat)
    requires IsHigh(high) && IsLow(low)
    ensures Combine(high, low) == SurrogatePair(high, low)
  {
    hide BitOr, BitAnd, ShiftLeft;
    CombineBits(high, low);
    assert high % 0x400 == high - 0xD800;
    assert low % 0x400 == low - 0xDC00;
  }

  /** One turn of the second pass over the body: the bytes written and the next position. */
  function Turn(s: string, i: nat): (r: (string, nat))
    requires !AtEnd(s, i)
    ensures r.1 > i
  {
    if s[i] != '\\' then ([s[i]], i + 1)
    else if At(s, i + 1) != 'u' then ([SimpleEscape(At(s, i + 1))], i + 2)
    else
      var uc := Hex4(s, i + 2);
      if IsLow(uc) || uc == 0 then ("", i + 6)
      else if !IsHigh(uc) then (Utf8(uc), i + 6)
      else if !UnicodeEscape(s, i + 6) then ("", i + 6)
      else if !IsLow(Hex4(s, i + 8)) then ("", i + 12)
      else (Utf8(Combine(uc, Hex4(s, i + 8))), i + 12)
  }

  /** The whole body: the unescaped bytes and the position after the literal. */
  function Body(s: string, i: nat): (r: (string, nat))
    ensures r.1 >= i
    decreases |s| - i
  {
    if AtEnd(s, i) then
      ("", if At(s, i) == '"' then i + 1 else i)
    else
      var (out, j) := Turn(s, i);
      var (rest, end) := Body(s, j);
      (out + rest, end)
  }

  /** A turn stays inside a body whose escapes are whole. */
  lemma TurnStays(s: string, i: nat)
    requires !AtEnd(s, i) && EscapesOk(s, i)
    ensures Turn(s, i).1 <= |s| && EscapesOk(s, Turn(s, i).1)
  {
    hide Combine;
    if UnicodeEscape(s, i) {
      assert At(s, i + 5) != NUL;
      if UnicodeEscape(s, i + 6) {
        assert EscapesOk(s, i + 6) && At(s, i + 11) != NUL;
      }
    }
  }

  lemma {:induction false} BodyEnds(s: string, i: nat)
    requires i <= |s| && EscapesOk(s, i)
    ensures Body(s, i).1 <= |s|
    decreases |s| - i
  {
    if !AtEnd(s, i) {
      TurnStays(s, i);
      BodyEnds(s, Turn(s, i).1);
    }
  }

  function ParseString(s: string, i: nat): (r: Outcome<string>)
    requires i <= |s|
    ensures r.Ok? ==> i < r.end <= |s|
  {
    if At(s, i) != '"' then Err(i)
    else if !EscapesOk(s, i + 1) then Malformed
    else BodyEnds(s, i + 1); var (text, end) := Body(s, i + 1); Ok(text, end)
  }

  // ---------- transcoding ----------

  /** What the body denotes: escapes taken as UTF-16 code units, a high unit and
      the low unit right after it make one code point, and a unit without its
      partner, like code point zero, denotes nothing. */
  function Denoted(s: string, i: nat): string
    decreases |s| - i
  {
    if AtEnd(s, i) then ""
    else if s[i] != '\\' then [s[i]] + Denoted(s, i + 1)
    else if At(s, i + 1) != 'u' then [SimpleEscape(At(s, i + 1))] + Denoted(s, i + 2)
    else
      var uc := Hex4(s, i + 2);
      if IsHigh(uc) && UnicodeEscape(s, i + 6) && IsLow(Hex4(s, i + 8)) then
        Utf8(SurrogatePair(uc, Hex4(s, i + 8))) + Denoted(s, i + 12)
      else if IsHigh(uc) || IsLow(uc) || uc == 0 then Denoted(s, i + 6)
      else Utf8(uc) + Denoted(s, i + 6)
  }

  /** The escape at `i` denotes nothing by itself. */
  predicate Silent(s: string, i: nat) {
    var uc := Hex4(s, i + 2);
    uc == 0 || (IsHigh(uc) && !(UnicodeEscape(s, i + 6) && IsLow(Hex4(s, i + 8))))
  }

  /** No high unit is followed by an escape that is not its low unit and yet
      denotes something: the scanner consumes such an escape together with the high unit. */
  predicate NoneSwallowed(s: string, i: nat)
    decreases |s| - i
  {
    if AtEnd(s, i) then true
    else if s[i] != '\\' then NoneSwallowed(s, i + 1)
    else if At(s, i + 1) != 'u' then NoneSwallowed(s, i + 2)
    else if IsHigh(Hex4(s, i + 2)) && UnicodeEscape(s, i + 6) then
      (IsLow(Hex4(s, i + 8)) || Silent(s, i + 6)) && NoneSwallowed(s, i + 12)
    else NoneSwallowed(s, i + 6)
  }

  predicate Swallows(s: string, i: nat) {
    UnicodeEscape(s, i) && IsHigh(Hex4(s, i + 2)) && UnicodeEscape(s, i + 6) && !IsLow(Hex4(s, i + 8))
  }

  /** A turn that swallows nothing emits what its escape denotes. */
  lemma TurnDenotes(s: string, i: nat)
    requires !AtEnd(s, i) && !Swallows(s, i)
    ensures Denoted(s, i) == Turn(s, i).0 + Denoted(s, Turn(s, i).1)
    ensures NoneSwallowed(s, i) == NoneSwallowed(s, Turn(s, i).1)
  {
    hide Combine;
    if UnicodeEscape(s, i) && IsHigh(Hex4(s, i + 2)) && UnicodeEscape(s, i + 6) {
      CombineIsPair(Hex4(s, i + 2), Hex4(s, i + 8));
    }
  }

  /** The bytes emitted are exactly the denoted ones if and only if no escape is
      swallowed; otherwise some are missing. */
  lemma {:induction false} Transcoding(s: string, i: nat)
    requires EscapesOk(s, i)
    ensures |Body(s, i).0| <= |Denoted(s, i)|
    ensures Body(s, i).0 == Denoted(s, i) <==> NoneSwallowed(s, i)
    ensures !NoneSwallowed(s, i) ==> |Body(s, i).0| < |Denoted(s, i)|
    decreases |s| - i
  {
    hide Turn, Body, Denoted, EscapesOk, NoneSwallowed, Silent, Swallows;
    if AtEnd(s, i) {
      TranscodingEnds(s, i);
    } else {
      var (out, j) := Turn(s, i);
      TurnStays(s, i);
      BodyTurn(s, i, out, j);
      Transcoding(s, j);
      if Swallows(s, i) {
        SwallowTurn(s, i);
        if UnicodeEscape(s, i + 12) {
          Transcoding(s, i + 18);
        }
        Swallow(s, i);
      } else {
        TurnDenotes(s, i);
        SameFront(out, Body(s, j).0, Denoted(s, j));
      }
    }
  }

  lemma TranscodingEnds(s: string, i: nat)
    requires AtEnd(s, i)
    ensures Body(s, i).0 == Denoted(s, i) && NoneSwallowed(s, i)
  {
  }

  lemma SwallowTurn(s: string, i: nat)
    requires !AtEnd(s, i) && EscapesOk(s, i) && Swallows(s, i)
    ensures Turn(s, i) == ("", i + 12) && (NoneSwallowed(s, i) <==> Silent(s, i + 6) && NoneSwallowed(s, i + 12))
    ensures UnicodeEscape(s, i + 12) ==> EscapesOk(s, i + 18)
  {
    hide Combine, Silent;
    TurnStays(s, i);
  }

  lemma SameFront(front: string, a: string, b: string)
    ensures front + a == front + b <==> a == b
  {
    if front + a == front + b {
      assert (front + a)[|front|..] == a && (front + b)[|front|..] == b;
    }
  }

  /** A swallowed escape: what it would have denoted is what goes missing. */
  lemma {:induction false} Swallow(s: string, i: nat)
    requires Swallows(s, i)
    requires |Body(s, i + 12).0| <= |Denoted(s, i + 12)|
    requires UnicodeEscape(s, i + 12) ==> |Body(s, i + 18).0| <= |Denoted(s, i + 18)|
    ensures Body(s, i).0 == Body(s, i + 12).0
    ensures Silent(s, i + 6) ==> Denoted(s, i) == Denoted(s, i + 12)
    ensures !Silent(s, i + 6) ==> |Body(s, i).0| < |Denoted(s, i)|
  {
    hide Combine;
    assert Denoted(s, i) == Denoted(s, i + 6);
    assert Turn(s, i) == ("", i + 12);
    var x := Hex4(s, i + 8);
    if !Silent(s, i + 6) {
      if IsHigh(x) {
        assert Turn(s, i + 12) == ("", i + 18);
        assert |Denoted(s, i + 6)| == 4 + |Denoted(s, i + 18)|;
      } else {
        assert |Denoted(s, i + 6)| == Utf8Length(x) + |Denoted(s, i + 12)|;
      }
    }
  }

  /** `"\uD800\u0041"`: the letter after the unpaired unit is lost. */
  lemma SwallowedLetter()
    ensures var s := "\"\\uD800\\u0041\"";
            EscapesOk(s, 1) && Body(s, 1).0 == "" && Denoted(s, 1) == "A"
  {
    var s := "\"\\uD800\\u0041\"";
    assert Hex4(s, 3) == 0xD800;
    assert Hex4(s, 9) == 0x41;
    assert AtEnd(s, 13);
    assert EscapesOk(s, 7);
    assert Denoted(s, 7) == "A" + Denoted(s, 13);
  }

  // ---------- sizes ----------

  /** The first pass of `parse_string`: an escape counts once, and so does every other character. */
  function Count(s: string, i: nat): nat
    decreases |s| - i
  {
    if AtEnd(s, i) then 0
    else if s[i] == '\\' then 1 + Count(s, i + 2)
    else 1 + Count(s, i + 1)
  }

  lemma CountPlain(s: string, i: nat)
    requires FourPlain(s, i)
    ensures Count(s, i) == 4 + Count(s, i + 4)
  {
    assert Count(s, i) == 1 + Count(s, i + 1);
    assert Count(s, i + 1) == 1 + Count(s, i + 2);
    assert Count(s, i + 2) == 1 + Count(s, i + 3);
  }

  /** Each turn of the second pass writes no more than the first pass counted for the same text. */
  lemma TurnFits(s: string, i: nat)
    requires !AtEnd(s, i) && EscapesOk(s, i)
    ensures |Turn(s, i).0| + Count(s, Turn(s, i).1) <= Count(s, i)
  {
    hide Combine;
    if UnicodeEscape(s, i) {
      CountPlain(s, i + 2);
      if UnicodeEscape(s, i + 6) {
        assert EscapesOk(s, i + 6);
        CountPlain(s, i + 8);
      }
    }
  }

  /** The output never exceeds the first-pass count. */
  lemma {:induction false} BodyFits(s: string, i: nat)
    requires EscapesOk(s, i)
    ensures |Body(s, i).0| <= Count(s, i)
    decreases |s| - i
  {
    if !AtEnd(s, i) {
      TurnFits(s, i);
      TurnStays(s, i);
      BodyFits(s, Turn(s, i).1);
    }
  }

  // ---------- printing ----------

  function HexDigit(v: nat): (c: char)
    requires v < 16
    ensures IsHex(c) && HexValue(c) == v
  {
    if v < 10 then ('0' as int + v) as char else ('a' as int + v - 10) as char
  }

  predicate Plain(c: char) {
    c as int > 31 && c != '"' && c != '\\'
  }

  /** The letter of a two-character escape, or `u` where only `\u00XX` will do. */
  function Letter(c: char): char {
    match c
    case '\\' => '\\'
    case '"' => '"'
    case '\U{08}' => 'b'
    case '\U{0C}' => 'f'
    case '\n' => 'n'
    case '\r' => 'r'
    case '\t' => 't'
    case _ => 'u'
  }

  function EscapeChar(c: char): (r: string)
    requires c as int < 256
    ensures 1 <= |r| <= 6
  {
    if Plain(c) then [c]
    else if Letter(c) != 'u' then ['\\', Letter(c)]
    else ['\\', 'u', '0', '0', HexDigit(c as int / 16), HexDigit(c as int % 16)]
  }

  function Escape(str: string): string
    requires IsCString(str)
  {
    if |str| == 0 then "" else EscapeChar(str[0]) + Escape(str[1..])
  }

  function Quote(str: string): string
    requires IsCString(str)
  {
    "\"" + Escape(str) + "\""
  }

  /** One escaped character is one turn of the scanner, which gives the character back. */
  lemma EscapeCharBack(s: string, i: nat, c: char)
    requires 0 < c as int < 256 && Has(s, i, EscapeChar(c))
    ensures !AtEnd(s, i) && Turn(s, i) == ([c], i + |EscapeChar(c)|)
    ensures EscapesOk(s, i + |EscapeChar(c)|) ==> EscapesOk(s, i)
  {
    var e := EscapeChar(c);
    HasHead(s, i, e);
    if !Plain(c) {
      HasHead(s, i + 1, e[1..]);
      if |e| == 6 {
        var p := e[2..];
        HasHead(s, i + 2, p);
        HasHead(s, i + 3, p[1..]);
        HasHead(s, i + 4, p[2..]);
        HasHead(s, i + 5, p[3..]);
        assert Hex4(s, i + 2) == c as int;
      }
    }
  }

  lemma BodyTurn(s: string, i: nat, out: string, j: nat)
    requires !AtEnd(s, i) && Turn(s, i) == (out, j)
    ensures Body(s, i).0 == out + Body(s, j).0 && Body(s, i).1 == Body(s, j).1
  {
  }

  lemma {:induction false} EscapeBack(s: string, i: nat, str: string)
    requires IsCString(str) && Has(s, i, Escape(str)) && At(s, i + |Escape(str)|) == '"'
    ensures EscapesOk(s, i)
    ensures Body(s, i).0 == str && Body(s, i).1 == i + |Escape(str)| + 1
    decreases str
  {
    hide Body, Turn, Escape, EscapeChar, EscapesOk, AtEnd;
    if |str| == 0 {
      EscapeNone(s, i, str);
    } else {
      var rest := str[1..];
      EscapeStep(s, i, str);
      EscapeBack(s, i + |EscapeChar(str[0])|, rest);
      BodyTurn(s, i, [str[0]], i + |EscapeChar(str[0])|);
      assert [str[0]] + rest == str;
    }
  }

  lemma EscapeNone(s: string, i: nat, str: string)
    requires |str| == 0 && At(s, i + |Escape(str)|) == '"'
    ensures EscapesOk(s, i) && |Body(s, i).0| == 0 && Body(s, i).1 == i + |Escape(str)| + 1
  {
  }

  lemma EscapeStep(s: string, i: nat, str: string)
    requires IsCString(str) && |str| > 0 && Has(s, i, Escape(str))
    ensures IsCString(str[1..])
    ensures |Escape(str)| == |EscapeChar(str[0])| + |Escape(str[1..])|
    ensures Has(s, i + |EscapeChar(str[0])|, Escape(str[1..]))
    ensures !AtEnd(s, i) && Turn(s, i) == ([str[0]], i + |EscapeChar(str[0])|)
    ensures EscapesOk(s, i + |EscapeChar(str[0])|) ==> EscapesOk(s, i)
  {
    HasSplit(s, i, EscapeChar(str[0]), Escape(str[1..]));
    EscapeCharBack(s, i, str[0]);
  }

  /** Every string is read back from its quoted rendering. */
  lemma StringBack(s: string, i: nat, str: string)
    requires IsCString(str) && Has(s, i, Quote(str))
    ensures ParseString(s, i) == Ok(str, i + |Quote(str)|)
  {
    HasSplit(s, i, "\"" + Escape(str), "\"");
    HasSplit(s, i, "\"", Escape(str));
    HasHead(s, i, "\"");
    HasHead(s, i + 1 + |Escape(str)|, "\"");
    EscapeBack(s, i + 1, str);
  }

  // ---------- the two passes as they run ----------

  /** `(uc | 0x80) & 0xBF` */
  lemma TailBits(uc: nat)
    ensures BitAnd(BitOr(uc, 0x80, 32), 0xBF, 32) == 0x80 + uc % 0x40 == Continuation(uc) as int
  {
    hide Bitwise, Pow2;
    SmallPow2();
    MarkedRest(uc, 6, 32);
  }

  /** `uc | firstByteMark[len]` on what is left of the code point. */
  lemma LeadBits(len: nat, uc: nat)
    requires 1 <= len <= 4 && uc < (if len == 1 then 0x80 else if len == 2 then 0x20 else if len == 3 then 0x10 else 8)
    ensures BitOr(uc, FIRST_BYTE_MARK[len], 32) == FIRST_BYTE_MARK[len] + uc
  {
    hide Bitwise, Pow2;
    SmallPow2();
    FullPow2();
    OrSwap(uc, FIRST_BYTE_MARK[len], 32);
    match len
    case 1 => OrNothing(uc, 32);
    case 2 => OrIsSum(6, uc, 5, 32);
    case 3 => OrIsSum(14, uc, 4, 32);
    case _ => OrIsSum(30, uc, 3, 32);
  }

  /** One byte in front of those written before. */
  method PutByte(out: array<char>, end: nat, b: char, ghost done: string) returns (p: nat)
    requires 0 < end && end + |done| <= out.Length && out[end..end + |done|] == done
    modifies out
    ensures p == end - 1 && out[p..end + |done|] == [b] + done
    ensures out[..p] == old(out[..p])
  {
    p := end - 1;
    out[p] := b;
    assert out[end..end + |done|] == done;
  }

  /** A continuation byte, and the code point without its bits: `uc >>= 6`. */
  method PutTail(out: array<char>, end: nat, uc: nat, ghost done: string) returns (p: nat, rest: nat)
    requires 0 < end && end + |done| <= out.Length && out[end..end + |done|] == done
    modifies out
    ensures p == end - 1 && rest == uc / 0x40 && out[p..end + |done|] == [Continuation(uc)] + done
    ensures out[..p] == old(out[..p])
  {
    hide BitAnd, BitOr, Continuation;
    TailBits(uc);
    p := PutByte(out, end, BitAnd(BitOr(uc, 0x80, 32), 0xBF, 32) as char, done);
    rest := uc / 0x40;
  }

  /** The bytes behind the first one, and the bits that are left for that. */
  function Tails(len: nat, code: nat): string
    requires 1 <= len <= 4
  {
    if len == 1 then "" else if len == 2 then [Continuation(code)] else if len == 3 then [Continuation(code / 0x40), Continuation(code)]
    else [Continuation(code / 0x40 / 0x40), Continuation(code / 0x40), Continuation(code)]
  }

  function Lead(len: nat, code: nat): nat {
    if len <= 1 then code else if len == 2 then code / 0x40 else if len == 3 then code / 0x40 / 0x40 else code / 0x40 / 0x40 / 0x40
  }

  /** The `switch` of `parse_string` without its last case: the tail bytes, last one first. */
  method WriteTails(out: array<char>, at: nat, len: nat, code: nat) returns (p: nat, uc: nat)
    requires 1 <= len <= 4 && at + len <= out.Length
    modifies out
    ensures p == at + 1 && uc == Lead(len, code) && out[p..at + len] == Tails(len, code)
    ensures out[..at] == old(out[..at])
  {
    hide Continuation;
    p, uc := at + len, code;
    ghost var before := out[..at];
    assert out[p..at + len] == "";
    if len >= 4 {
      p, uc := PutTail(out, p, uc, "");
    }
    assert out[..at] == before;
    if len >= 3 {
      p, uc := PutTail(out, p, uc, if len == 4 then [Continuation(code)] else "");
    }
    assert out[..at] == before;
    if len >= 2 {
      p, uc := PutTail(out, p, uc, if len == 4 then [Continuation(code / 0x40), Continuation(code)] else if len == 3 then [Continuation(code)] else "");
    }
    assert out[..at] == before;
  }

  /** Writes the UTF-8 form of `code` before `at + Utf8Length(code)`, last byte first. */
  method WriteUtf8(out: array<char>, at: nat, code: nat) returns (next: nat)
    requires code < 0x11_0000 && at + Utf8Length(code) <= out.Length
    modifies out
    ensures next == at + Utf8Length(code)
    ensures out[..next] == old(out[..at]) + Utf8(code)
  {
    hide Utf8, Utf8Length, Tails, Lead, BitOr;
    Utf8Backward(code);
    var len := Utf8Length(code);
    var p, uc := WriteTails(out, at, len, code);
    LeadBits(len, uc);
    p := PutByte(out, p, BitOr(uc, FIRST_BYTE_MARK[len], 32) as char, Tails(len, code));
    next := p + len;
    assert out[..next] == out[..at] + out[at..next];
  }

  /** The bytes of a code point, and what is left for the first one. */
  lemma Utf8Backward(code: nat)
    requires code < 0x11_0000
    ensures var len := Utf8Length(code);
            |Tails(len, code)| == len - 1
            && Lead(len, code) < (if len == 1 then 0x80 else if len == 2 then 0x20 else if len == 3 then 0x10 else 8)
            && Utf8(code) == [(FIRST_BYTE_MARK[len] + Lead(len, code)) as char] + Tails(len, code)
  {
    hide Continuation;
    LeadByte(code);
  }

  /** What is left of the code point after the tail bytes fits under the lead mark. */
  lemma LeadByte(code: nat)
    requires code < 0x11_0000
    ensures code / 0x40 / 0x40 == code / 0x1000 && code / 0x40 / 0x40 / 0x40 == code / 0x4_0000
    ensures code / 0x4_0000 < 8
    ensures code < 0x10000 ==> code / 0x1000 < 16
    ensures code < 0x800 ==> code / 0x40 < 32
  {
  }

  /** `parse_string`: measure, allocate, unescape. No write leaves the buffer. */
  method ScanString(s: string, str: nat) returns (r: Outcome<string>)
    requires str <= |s| && ParseString(s, str) != Malformed
    ensures r == ParseString(s, str)
  {
    hide Turn, EscapesOk;
    if At(s, str) != '"' {
      return Err(str);
    }
    var ptr, len := str + 1, 0;
    while !AtEnd(s, ptr)
      invariant len + Count(s, ptr) == Count(s, str + 1)
      decreases |s| - ptr
    {
      len := len + 1;
      ptr := if s[ptr] == '\\' then ptr + 2 else ptr + 1;
    }
    var out := new char[len + 1];
    var ptr2 := 0;
    ptr := str + 1;
    while !AtEnd(s, ptr)
      invariant str < ptr <= |s| && EscapesOk(s, ptr)
      invariant 0 <= ptr2 <= ptr2 + Count(s, ptr) <= len
      invariant out[..ptr2] + Body(s, ptr).0 == Body(s, str + 1).0
      invariant Body(s, ptr).1 == Body(s, str + 1).1
      decreases |s| - ptr
    {
      TurnFits(s, ptr);
      TurnStays(s, ptr);
      ghost var written, text := out[..ptr2], Turn(s, ptr).0;
      assert written + (text + Body(s, Turn(s, ptr).1).0) == (written + text) + Body(s, Turn(s, ptr).1).0;
      ptr2, ptr := ScanTurn(s, ptr, out, ptr2);
    }
    out[ptr2] := NUL;
    if At(s, ptr) == '"' {
      ptr := ptr + 1;
    }
    assert out[..ptr2] == Body(s, str + 1).0 by {
      assert out[..ptr2] + "" == out[..ptr2];
    }
    r := Ok(out[..ptr2], ptr);
  }

  /** The body of the second loop of `parse_string`. */
  method ScanTurn(s: string, start: nat, out: array<char>, at: nat) returns (ptr2: nat, ptr: nat)
    requires !AtEnd(s, start)
    requires at + |Turn(s, start).0| <= out.Length
    modifies out
    ensures ptr == Turn(s, start).1 && ptr2 == at + |Turn(s, start).0|
    ensures out[..ptr2] == old(out[..at]) + Turn(s, start).0
  {
    hide Combine, Utf8;
    ptr, ptr2 := start, at;
    if s[ptr] != '\\' {
      out[ptr2] := s[ptr];
      return ptr2 + 1, ptr + 1;
    }
    ptr := ptr + 1;
    if At(s, ptr) != 'u' {
      out[ptr2] := SimpleEscape(At(s, ptr));
      return ptr2 + 1, ptr + 1;
    }
    var uc := Hex4(s, ptr + 1);
    ptr := ptr + 4;
    if IsLow(uc) || uc == 0 {
      return ptr2, ptr + 1;
    }
    if IsHigh(uc) {
      if At(s, ptr + 1) != '\\' || At(s, ptr + 2) != 'u' {
        return ptr2, ptr + 1;
      }
      var uc2 := Hex4(s, ptr + 3);
      ptr := ptr + 6;
      if !IsLow(uc2) {
        return ptr2, ptr + 1;
      }
      uc := Combine(uc, uc2);
    }
    ptr2 := WriteUtf8(out, ptr2, uc);
    ptr := ptr + 1;
  }

  /** The first pass of `print_string_ptr`. */
  function EscapedLength(str: string): nat {
    if |str| == 0 then 0
    else (if str[0] in "\"\\\U{08}\U{0C}\n\r\t" then 2 else if str[0] as int < 32 then 6 else 1) + EscapedLength(str[1..])
  }

  /** The first pass measures the escaped text exactly. */
  lemma {:induction false} EscapedLengthExact(str: string)
    requires IsCString(str)
    ensures EscapedLength(str) == |Escape(str)|
  {
    if |str| > 0 {
      EscapedLengthExact(str[1..]);
    }
  }

  /** The first pass as it runs. */
  method Measure(str: string) returns (len: nat)
    ensures len == EscapedLength(str)
  {
    var ptr := 0;
    len := 0;
    while ptr < |str|
      invariant 0 <= ptr <= |str|
      invariant len + EscapedLength(str[ptr..]) == EscapedLength(str)
    {
      len := len + (if str[ptr] in "\"\\\U{08}\U{0C}\n\r\t" then 2 else if str[ptr] as int < 32 then 6 else 1);
      assert str[ptr..][1..] == str[ptr + 1..];
      ptr := ptr + 1;
    }
  }

  lemma EscapeFirst(str: string, k: nat)
    requires IsCString(str) && k < |str|
    ensures Escape(str[k..]) == EscapeChar(str[k]) + Escape(str[k + 1..])
  {
    hide EscapeChar;
    assert str[k..][1..] == str[k + 1..];
  }

  lemma EscapeRest(str: string)
    requires IsCString(str)
    ensures Escape(str[|str|..]) == ""
  {
  }

  /** `print_string_ptr`: the buffer is filled to its last byte, the terminator. */
  method RenderString(str: string) returns (r: string)
    requires IsCString(str)
    ensures r == Quote(str)
  {
    hide Escape, EscapeChar;
    var len := Measure(str);
    EscapedLengthExact(str);
    var out := new char[len + 3];
    out[0] := '"';
    var ptr, ptr2 := 0, 1;
    assert str[ptr..] == str;
    while ptr < |str|
      invariant 0 <= ptr <= |str|
      invariant 0 <= ptr2 <= ptr2 + |Escape(str[ptr..])| == out.Length - 2
      invariant out[..ptr2] + Escape(str[ptr..]) == "\"" + Escape(str)
    {
      ghost var written, text, rest := out[..ptr2], EscapeChar(str[ptr]), str[ptr + 1..];
      EscapeFirst(str, ptr);
      assert written + (text + Escape(rest)) == (written + text) + Escape(rest);
      ptr2 := RenderChar(str[ptr], out, ptr2);
      ptr := ptr + 1;
    }
    EscapeRest(str);
    assert out[..ptr2] == "\"" + Escape(str) by {
      assert out[..ptr2] + "" == out[..ptr2];
    }
    out[ptr2] := '"';
    ptr2 := ptr2 + 1;
    out[ptr2] := NUL;
    assert ptr2 + 1 == out.Length;
    r := out[..ptr2];
  }

  /** The body of the second loop of `print_string_ptr`. */
  method RenderChar(c: char, out: array<char>, at: nat) returns (ptr2: nat)
    requires 0 < c as int < 256 && at + |EscapeChar(c)| <= out.Length
    modifies out
    ensures ptr2 == at + |EscapeChar(c)| && out[..ptr2] == old(out[..at]) + EscapeChar(c)
  {
    ptr2 := at;
    if c as int > 31 && c != '"' && c != '\\' {
      out[ptr2] := c;
      ptr2 := ptr2 + 1;
    } else {
      out[ptr2] := '\\';
      ptr2 := ptr2 + 1;
      if Letter(c) != 'u' {
        out[ptr2] := Letter(c);
        ptr2 := ptr2 + 1;
      } else {
        out[ptr2], out[ptr2 + 1], out[ptr2 + 2] := 'u', '0', '0';
        out[ptr2 + 3], out[ptr2 + 4] := HexDigit(c as int / 16), HexDigit(c as int % 16);
        ptr2 := ptr2 + 5;
      }
    }
  }
}
