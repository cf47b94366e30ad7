/** Minifying keeps the meaning of a text: whatever a text parses to, white space,
    comments and all, its minified form parses to as well. */
module JsonMeaning {
  import opened JsonText
  import opened JsonNumber
  import opened JsonString
  import opened JsonParser
  import opened JsonMinify
  import opened JsonRoundTrip

  /** Position `j` of the minified text stands for position `i` of the original. */
  predicate Aligned(s: string, i: nat, m: string, j: nat) {
    j <= |m| && Closed(s, i) && m[j..] == Minified(s, i)
  }

  predicate NulFree(s: string) {
    forall k | 0 <= k < |s| :: s[k] != NUL
  }

  lemma SolidStep(s: string, i: nat, m: string, j: nat)
    requires Aligned(s, i, m, j) && Solid(At(s, i))
    ensures At(m, j) == At(s, i) && Aligned(s, i + 1, m, j + 1)
  {
    assert m[j..] == [s[i]] + Minified(s, i + 1);
    assert m[j + 1..] == m[j..][1..];
    assert m[j] == m[j..][0];
  }

  lemma BlankStep(s: string, i: nat, m: string, j: nat)
    requires Aligned(s, i, m, j) && Blank(At(s, i))
    ensures Aligned(s, i + 1, m, j)
  {
    assert m[j..] == "" + Minified(s, i + 1);
  }

  lemma EndStep(s: string, i: nat, m: string, j: nat)
    requires Aligned(s, i, m, j) && At(s, i) == NUL
    ensures j == |m|
  {
    assert |m[j..]| == 0;
  }

  lemma QuoteStep(s: string, i: nat, m: string, j: nat)
    requires Aligned(s, i, m, j) && At(s, i) == '"'
    ensures var len := LiteralEnd(s, i + 1) + 1 - i;
            i + len <= |s| && Has(m, j, s[i..i + len]) && Aligned(s, i + len, m, j + len)
    ensures At(m, j) == '"'
  {
    var e := LiteralEnd(s, i + 1) + 1;
    assert Piece(s, i) == (true, e);
    assert m[j..] == s[i..e] + Minified(s, e);
    assert |m[j..]| == |m| - j;
    assert m[j..j + (e - i)] == m[j..][..e - i] == s[i..e];
    assert m[j + (e - i)..] == m[j..][e - i..];
    assert m[j] == m[j..][0] == s[i..e][0];
  }

  /** Skipping white space in both texts keeps them aligned, unless the original goes on with a comment. */
  lemma {:induction false} SkipKept(s: string, i: nat, m: string, j: nat)
    requires i <= |s| && Aligned(s, i, m, j) && At(s, Skip(s, i)) != '/'
    ensures Aligned(s, Skip(s, i), m, Skip(m, j))
    ensures At(m, Skip(m, j)) == At(s, Skip(s, i))
    decreases |s| - i
  {
    hide Aligned, Closed, Minified, Piece;
    Bounded(s, i, m, j);
    if Blank(At(s, i)) {
      BlankStep(s, i, m, j);
      SkipKept(s, i + 1, m, j);
    } else if IsSpace(At(s, i)) {
      SolidStep(s, i, m, j);
      SkipKept(s, i + 1, m, j + 1);
    } else if At(s, i) == NUL {
      EndStep(s, i, m, j);
    } else if At(s, i) == '"' {
      QuoteStep(s, i, m, j);
    } else {
      SolidStep(s, i, m, j);
    }
  }

  lemma Bounded(s: string, i: nat, m: string, j: nat)
    requires Aligned(s, i, m, j)
    ensures j <= |m|
  {
  }

  lemma HasAt(s: string, i: nat, p: string, k: nat)
    requires Has(s, i, p) && k < |p|
    ensures At(s, i + k) == p[k]
  {
    assert s[i..i + |p|][k] == s[i + k];
  }

  lemma HasJoin(m: string, j: nat, p: string)
    requires |p| > 0 && At(m, j) == p[0] != NUL && Has(m, j + 1, p[1..])
    ensures Has(m, j, p)
  {
    assert m[j..j + |p|] == [m[j]] + m[j + 1..j + |p|];
  }

  lemma {:induction false} SolidRun(s: string, i: nat, m: string, j: nat, p: string)
    requires Aligned(s, i, m, j) && Has(s, i, p)
    requires forall k | 0 <= k < |p| :: Solid(p[k])
    ensures Has(m, j, p) && Aligned(s, i + |p|, m, j + |p|)
    decreases p
  {
    hide Closed, Minified, Piece;
    if |p| > 0 {
      HasHead(s, i, p);
      SolidStep(s, i, m, j);
      SolidRun(s, i + 1, m, j + 1, p[1..]);
      HasJoin(m, j, p);
    }
  }

  lemma Keyword(s: string, i: nat, m: string, j: nat, word: string)
    requires Aligned(s, i, m, j) && Has(s, i, word) && |word| > 0
    requires forall k | 0 <= k < |word| :: Solid(word[k])
    ensures Has(m, j, word) && At(m, j) == word[0] && Aligned(s, i + |word|, m, j + |word|)
  {
    hide Closed, Minified;
    SolidRun(s, i, m, j, word);
    HasHead(m, j, word);
  }

  // ---------- numbers ----------

  predicate InNumber(c: char) {
    IsDigit(c) || c == '-' || c == '+' || c == '.' || c == 'e' || c == 'E'
  }

  lemma {:induction false} DigitsSpan(s: string, i: nat, n: nat)
    requires i <= |s|
    ensures forall k | i <= k < ReadDigits(s, i, n).1 :: IsDigit(At(s, k))
    decreases |s| - i
  {
    if IsDigit(At(s, i)) {
      DigitsSpan(s, i + 1, n * 10 + DigitValue(s[i]));
    }
  }

  lemma NumberSpan(s: string, i: nat)
    requires i < |s| && (s[i] == '-' || IsDigit(s[i]))
    ensures forall k | i <= k < ParseNumber(s, i).end :: InNumber(At(s, k))
  {
    hide ReadWhole, ReadFraction, ReadExponent, InNumber;
    var i1 := SkipOne(s, i, '-');
    SignSpan(s, i);
    var (n, i2) := ReadWhole(s, i1);
    WholeSpan(s, i1);
    var (_, _, i3) := ReadFraction(s, i2, n);
    FractionSpan(s, i2, n);
    ExponentSpan(s, i3);
  }

  lemma SignSpan(s: string, i: nat)
    ensures forall k | i <= k < SkipOne(s, i, '-') :: InNumber(At(s, k))
  {
  }

  lemma WholeSpan(s: string, i: nat)
    requires i <= |s|
    ensures forall k | i <= k < ReadWhole(s, i).1 :: InNumber(At(s, k))
  {
    hide ReadDigits;
    DigitsSpan(s, SkipOne(s, i, '0'), 0);
  }

  lemma FractionSpan(s: string, i: nat, n: nat)
    requires i <= |s|
    ensures forall k | i <= k < ReadFraction(s, i, n).2 :: InNumber(At(s, k))
  {
    hide ReadDigits;
    if i < |s| {
      DigitsSpan(s, i + 1, n);
    }
  }

  lemma ExponentSpan(s: string, i: nat)
    requires i <= |s|
    ensures forall k | i <= k < ReadExponent(s, i).1 :: InNumber(At(s, k))
  {
    hide ReadDigits;
    if At(s, i) == 'e' || At(s, i) == 'E' {
      DigitsSpan(s, if At(s, i + 1) == '-' then i + 2 else SkipOne(s, i + 1, '+'), 0);
    }
  }

  lemma {:induction false} DigitsLocal(s: string, i: nat, m: string, j: nat, p: string, k: nat, n: nat)
    requires Has(s, i, p) && Has(m, j, p) && k <= |p| && !InNumber(At(m, j + |p|))
    requires ReadDigits(s, i + k, n).1 <= i + |p|
    ensures ReadDigits(m, j + k, n).0 == ReadDigits(s, i + k, n).0
    ensures ReadDigits(m, j + k, n).1 - j == ReadDigits(s, i + k, n).1 - i
    decreases |p| - k
  {
    if k < |p| {
      HasAt(s, i, p, k);
      HasAt(m, j, p, k);
      if IsDigit(At(s, i + k)) {
        DigitsLocal(s, i, m, j, p, k + 1, n * 10 + DigitValue(s[i + k]));
      }
    }
  }

  lemma ExponentStart(s: string, i: nat)
    requires i <= |s|
    ensures ReadExponent(s, i).1 > i ==> At(s, i) != '.'
  {
  }

  lemma NumberParts(s: string, i: nat, a: nat, i2: nat, i3: nat)
    requires i < |s| && (s[i] == '-' || IsDigit(s[i])) && a == (if s[i] == '-' then i + 1 else i)
    requires i2 == ReadWhole(s, a).1 && i3 == ReadFraction(s, i2, ReadWhole(s, a).0).2
    ensures var (m, scale, _) := ReadFraction(s, i2, ReadWhole(s, a).0);
            ParseNumber(s, i) == Ok(Number(if a > i then -(m as int) else m, scale + ReadExponent(s, i3).0), ReadExponent(s, i3).1)
  {
    hide ReadWhole, ReadFraction, ReadExponent;
  }

  /** A number depends on its own characters and on the one that ends it. */
  lemma NumberLocal(s: string, i: nat, m: string, j: nat, p: string)
    requires i < |s| && (s[i] == '-' || IsDigit(s[i])) && |p| == ParseNumber(s, i).end - i
    requires Has(s, i, p) && Has(m, j, p) && !InNumber(At(m, j + |p|))
    ensures j < |m| && m[j] == s[i]
    ensures ParseNumber(m, j) == Ok(ParseNumber(s, i).value, j + |p|)
  {
    hide ReadWhole, ReadFraction, ReadExponent, ParseNumber, Has, InNumber;
    HasAt(s, i, p, 0);
    HasAt(m, j, p, 0);
    var a := if s[i] == '-' then 1 else 0;
    var n, i2 := ReadWhole(s, i + a).0, ReadWhole(s, i + a).1;
    var i3 := ReadFraction(s, i2, n).2;
    NumberParts(s, i, i + a, i2, i3);
    WholeLocal(s, i, m, j, p, a);
    ExponentStart(s, i2);
    FractionLocal(s, i, m, j, p, i2 - i, n);
    ExponentLocal(s, i, m, j, p, i3 - i);
    NumberParts(m, j, j + a, j + (i2 - i), j + (i3 - i));
  }

  lemma WholeLocal(s: string, i: nat, m: string, j: nat, p: string, k: nat)
    requires Has(s, i, p) && Has(m, j, p) && k <= |p| && !InNumber(At(m, j + |p|))
    requires ReadWhole(s, i + k).1 <= i + |p|
    ensures ReadWhole(m, j + k).0 == ReadWhole(s, i + k).0
    ensures ReadWhole(m, j + k).1 - j == ReadWhole(s, i + k).1 - i
  {
    if k < |p| { HasAt(s, i, p, k); HasAt(m, j, p, k); }
    var z := SkipOne(s, i + k, '0') - i;
    if z < |p| { HasAt(s, i, p, z); HasAt(m, j, p, z); }
    if '1' <= At(s, i + z) <= '9' {
      DigitsLocal(s, i, m, j, p, z, 0);
    }
  }

  lemma FractionLocal(s: string, i: nat, m: string, j: nat, p: string, k: nat, n: nat)
    requires Has(s, i, p) && Has(m, j, p) && k <= |p| && !InNumber(At(m, j + |p|))
    requires ReadFraction(s, i + k, n).2 <= i + |p|
    requires ReadFraction(s, i + k, n).2 == i + k < i + |p| ==> At(s, i + k) != '.'
    ensures ReadFraction(m, j + k, n).0 == ReadFraction(s, i + k, n).0
    ensures ReadFraction(m, j + k, n).1 == ReadFraction(s, i + k, n).1
    ensures ReadFraction(m, j + k, n).2 - j == ReadFraction(s, i + k, n).2 - i
  {
    if k < |p| { HasAt(s, i, p, k); HasAt(m, j, p, k); }
    if At(s, i + k) == '.' && IsDigit(At(s, i + k + 1)) {
      if k + 1 < |p| { HasAt(s, i, p, k + 1); HasAt(m, j, p, k + 1); }
      DigitsLocal(s, i, m, j, p, k + 1, n);
    }
  }

  lemma ExponentLocal(s: string, i: nat, m: string, j: nat, p: string, k: nat)
    requires Has(s, i, p) && Has(m, j, p) && k <= |p| && !InNumber(At(m, j + |p|))
    requires ReadExponent(s, i + k).1 == i + |p|
    ensures ReadExponent(m, j + k).0 == ReadExponent(s, i + k).0
    ensures ReadExponent(m, j + k).1 == j + |p|
  {
    hide ReadDigits;
    if k < |p| { HasAt(s, i, p, k); HasAt(m, j, p, k); }
    if At(s, i + k) == 'e' || At(s, i + k) == 'E' {
      if k + 1 < |p| { HasAt(s, i, p, k + 1); HasAt(m, j, p, k + 1); }
      if At(s, i + k + 1) == '-' || At(s, i + k + 1) == '+' {
        DigitsLocal(s, i, m, j, p, k + 2, 0);
      } else {
        DigitsLocal(s, i, m, j, p, k + 1, 0);
      }
    }
  }

  /** A value that strict parsing or an enclosing bracket allows to stand here. */
  predicate Terminated(s: string, e: nat)
    requires e <= |s|
  {
    var c := At(s, Skip(s, e));
    c == NUL || c == ',' || c == ']' || c == '}'
  }

  lemma EndOfNumber(s: string, e: nat, m: string, j: nat)
    requires e <= |s| && Aligned(s, e, m, j) && Terminated(s, e)
    ensures !InNumber(At(m, j))
  {
    hide Aligned;
    SkipKept(s, e, m, j);
    Bounded(s, e, m, j);
  }

  lemma NumberKept(s: string, i: nat, m: string, j: nat)
    requires i < |s| && (s[i] == '-' || IsDigit(s[i])) && Aligned(s, i, m, j)
    requires Terminated(s, ParseNumber(s, i).end)
    ensures var len := ParseNumber(s, i).end - i;
            j < |m| && m[j] == s[i] && ParseNumber(m, j) == Ok(ParseNumber(s, i).value, j + len)
            && Aligned(s, i + len, m, j + len)
  {
    hide ParseNumber, Aligned;
    var len := ParseNumber(s, i).end - i;
    var p := s[i..i + len];
    NumberSpan(s, i);
    forall k | 0 <= k < len ensures Solid(p[k]) {
      assert InNumber(At(s, i + k));
    }
    SolidRun(s, i, m, j, p);
    EndOfNumber(s, i + len, m, j + len);
    NumberLocal(s, i, m, j, p);
  }

  // ---------- strings ----------

  /** The scanner's escapes and the minifier's two-character steps end at the same quote. */
  lemma {:induction false} SameQuote(s: string, i: nat)
    requires EscapesOk(s, i)
    ensures Body(s, i).1 == if At(s, LiteralEnd(s, i)) == '"' then LiteralEnd(s, i) + 1 else LiteralEnd(s, i)
    ensures LiteralEnd(s, i) >= i
    decreases |s| - i
  {
    if !AtEnd(s, i) {
      TurnStays(s, i);
      BodyTurn(s, i, Turn(s, i).0, Turn(s, i).1);
      SameQuote(s, Turn(s, i).1);
      TurnQuote(s, i);
    }
  }

  lemma TurnQuote(s: string, i: nat)
    requires !AtEnd(s, i) && EscapesOk(s, i)
    ensures LiteralEnd(s, i) == LiteralEnd(s, Turn(s, i).1)
  {
    if UnicodeEscape(s, i) {
      SixQuote(s, i);
      if UnicodeEscape(s, i + 6) {
        SixQuote(s, i + 6);
      }
    }
  }

  lemma SixQuote(s: string, i: nat)
    requires EscapesOk(s, i) && UnicodeEscape(s, i)
    ensures LiteralEnd(s, i) == LiteralEnd(s, i + 6) && EscapesOk(s, i + 6)
  {
    assert LiteralEnd(s, i) == LiteralEnd(s, i + 2);
    assert LiteralEnd(s, i + 2) == LiteralEnd(s, i + 3);
    assert LiteralEnd(s, i + 3) == LiteralEnd(s, i + 4);
    assert LiteralEnd(s, i + 4) == LiteralEnd(s, i + 5);
  }

  /** What a turn depends on. */
  lemma SameTurn(s: string, i: nat, m: string, j: nat)
    requires !AtEnd(s, i) && EscapesOk(s, i) && At(m, j) == At(s, i)
    requires At(s, i) == '\\' ==> At(m, j + 1) == At(s, i + 1)
    requires UnicodeEscape(s, i) ==> FourPlain(m, j + 2) && Hex4(m, j + 2) == Hex4(s, i + 2)
    requires UnicodeEscape(s, i) ==> UnicodeEscape(m, j + 6) == UnicodeEscape(s, i + 6)
    requires UnicodeEscape(s, i) && UnicodeEscape(s, i + 6) ==> FourPlain(m, j + 8) && Hex4(m, j + 8) == Hex4(s, i + 8)
    ensures !AtEnd(m, j) && Turn(m, j).0 == Turn(s, i).0 && Turn(m, j).1 - j == Turn(s, i).1 - i
    ensures EscapesOk(m, Turn(m, j).1) ==> EscapesOk(m, j)
  {
    hide FourPlain, Hex4, Utf8, Combine, IsHigh, IsLow;
    if UnicodeEscape(m, j) && UnicodeEscape(m, j + 6) && EscapesOk(m, j + 12) {
      assert EscapesOk(m, j + 6);
    }
  }

  /** A turn looks no further than the closing quote of its literal. */
  lemma TurnLocal(s: string, i: nat, m: string, j: nat, p: string, k: nat)
    requires Has(s, i, p) && Has(m, j, p) && EscapesOk(s, i + k) && !AtEnd(s, i + k)
    requires LiteralEnd(s, i + k) + 1 == i + |p|
    ensures k < |p| && !AtEnd(m, j + k) && Turn(m, j + k).0 == Turn(s, i + k).0
    ensures Turn(m, j + k).1 - j == Turn(s, i + k).1 - i
    ensures EscapesOk(m, j + (Turn(s, i + k).1 - i)) ==> EscapesOk(m, j + k)
  {
    hide Turn, Has, FourPlain, Hex4;
    HasAt(s, i, p, k);
    HasAt(m, j, p, k);
    if At(s, i + k) == '\\' {
      EscapeLocal(s, i, m, j, p, k);
    }
    SameTurn(s, i + k, m, j + k);
  }

  lemma EscapeLocal(s: string, i: nat, m: string, j: nat, p: string, k: nat)
    requires Has(s, i, p) && Has(m, j, p) && EscapesOk(s, i + k) && !AtEnd(s, i + k)
    requires LiteralEnd(s, i + k) + 1 == i + |p| && At(s, i + k) == '\\'
    ensures At(m, j + k + 1) == At(s, i + k + 1)
    ensures UnicodeEscape(s, i + k) ==>
      FourPlain(m, j + k + 2) && Hex4(m, j + k + 2) == Hex4(s, i + k + 2)
      && UnicodeEscape(m, j + k + 6) == UnicodeEscape(s, i + k + 6)
      && (UnicodeEscape(s, i + k + 6) ==> FourPlain(m, j + k + 8) && Hex4(m, j + k + 8) == Hex4(s, i + k + 8))
  {
    hide Has, Hex4;
    HasAt(s, i, p, k + 1);
    HasAt(m, j, p, k + 1);
    if At(s, i + k + 1) == 'u' {
      SixQuote(s, i + k);
      HexLocal(s, i, m, j, p, k + 2);
      HasAt(s, i, p, k + 6);
      HasAt(m, j, p, k + 6);
      if At(s, i + k + 6) == '\\' {
        HasAt(s, i, p, k + 7);
        HasAt(m, j, p, k + 7);
        if At(s, i + k + 7) == 'u' {
          SixQuote(s, i + k + 6);
          HexLocal(s, i, m, j, p, k + 8);
        }
      }
    }
  }

  lemma HexLocal(s: string, i: nat, m: string, j: nat, p: string, k: nat)
    requires Has(s, i, p) && Has(m, j, p) && k + 4 <= |p|
    ensures FourPlain(m, j + k) == FourPlain(s, i + k) && Hex4(m, j + k) == Hex4(s, i + k)
  {
    HasAt(s, i, p, k);
    HasAt(m, j, p, k);
    HasAt(s, i, p, k + 1);
    HasAt(m, j, p, k + 1);
    HasAt(s, i, p, k + 2);
    HasAt(m, j, p, k + 2);
    HasAt(s, i, p, k + 3);
    HasAt(m, j, p, k + 3);
  }

  lemma {:induction false} BodyLocal(s: string, i: nat, m: string, j: nat, p: string, k: nat)
    requires Has(s, i, p) && Has(m, j, p) && EscapesOk(s, i + k) && k <= |p|
    requires LiteralEnd(s, i + k) + 1 == i + |p| && At(s, LiteralEnd(s, i + k)) == '"'
    ensures EscapesOk(m, j + k)
    ensures Body(m, j + k).0 == Body(s, i + k).0 && Body(m, j + k).1 == j + |p|
    decreases |s| - i - k
  {
    hide Turn, Body, EscapesOk, LiteralEnd, Has;
    if AtEnd(s, i + k) {
      BodyEnd(s, i, m, j, p, k);
    } else {
      var next := Turn(s, i + k).1 - i;
      TurnStays(s, i + k);
      TurnQuote(s, i + k);
      SameQuote(s, i + next);
      TurnLocal(s, i, m, j, p, k);
      BodyLocal(s, i, m, j, p, next);
      BodyTurn(s, i + k, Turn(s, i + k).0, i + next);
      BodyTurn(m, j + k, Turn(s, i + k).0, j + next);
    }
  }

  lemma BodyEnd(s: string, i: nat, m: string, j: nat, p: string, k: nat)
    requires Has(s, i, p) && Has(m, j, p) && AtEnd(s, i + k)
    requires LiteralEnd(s, i + k) + 1 == i + |p| && At(s, LiteralEnd(s, i + k)) == '"'
    ensures EscapesOk(m, j + k)
    ensures Body(m, j + k).0 == Body(s, i + k).0 && Body(m, j + k).1 == j + |p|
  {
    HasAt(s, i, p, k);
    HasAt(m, j, p, k);
  }

  lemma StringKept(s: string, i: nat, m: string, j: nat)
    requires i <= |s| && NulFree(s) && Aligned(s, i, m, j) && ParseString(s, i).Ok?
    ensures var len := ParseString(s, i).end - i;
            j <= |m| && At(m, j) == '"' && ParseString(m, j) == Ok(ParseString(s, i).value, j + len)
            && Aligned(s, i + len, m, j + len)
  {
    hide Body, LiteralEnd, EscapesOk, Aligned;
    QuoteStep(s, i, m, j);
    var len := LiteralEnd(s, i + 1) + 1 - i;
    SameQuote(s, i + 1);
    QuoteAt(s, i + 1);
    BodyLocal(s, i, m, j, s[i..i + len], 1);
    Bounded(s, i + len, m, j + len);
  }

  lemma QuoteAt(s: string, i: nat)
    requires NulFree(s) && LiteralEnd(s, i) < |s|
    ensures At(s, LiteralEnd(s, i)) == '"'
  {
  }

  // ---------- values ----------

  lemma ValueKept(s: string, i: nat, m: string, j: nat)
    requires i <= |s| && NulFree(s) && Aligned(s, i, m, j)
    requires ParseValue(s, i).Ok? && Terminated(s, ParseValue(s, i).end)
    ensures j <= |m| && ParseValue(m, j).Ok? && ParseValue(m, j).value == ParseValue(s, i).value
    ensures Aligned(s, ParseValue(s, i).end, m, ParseValue(m, j).end)
    decreases |s| - i, 1
  {
    hide Aligned, ParseArray, ParseObject, ParseString, ParseNumber, Has;
    Bounded(s, i, m, j);
    NoKeyword(s, i);
    NoKeyword(m, j);
    if Has(s, i, "null") {
      Keyword(s, i, m, j, "null");
    } else if Has(s, i, "false") {
      Keyword(s, i, m, j, "false");
    } else if Has(s, i, "true") {
      Keyword(s, i, m, j, "true");
    } else if At(s, i) == '"' {
      StringKept(s, i, m, j);
    } else if At(s, i) == '-' || IsDigit(At(s, i)) {
      NumberKept(s, i, m, j);
    } else {
      SolidStep(s, i, m, j);
      if At(s, i) == '[' {
        ArrayKept(s, i, m, j);
      } else {
        ObjectKept(s, i, m, j);
      }
    }
  }

  lemma ArrayKept(s: string, i: nat, m: string, j: nat)
    requires i < |s| && s[i] == '[' && NulFree(s) && Aligned(s, i, m, j) && j < |m| && m[j] == '['
    requires ParseArray(s, i).Ok?
    ensures ParseArray(m, j).Ok? && ParseArray(m, j).value == ParseArray(s, i).value
    ensures Aligned(s, ParseArray(s, i).end, m, ParseArray(m, j).end)
    decreases |s| - i, 0
  {
    hide Aligned, ParseItems, ParseValue;
    OpenArray(s, i);
    OpenArray(m, j);
    SolidStep(s, i, m, j);
    var v := Skip(s, i + 1);
    if At(s, v) == '/' {
      ItemsOk(s, v, []);
    }
    SkipKept(s, i + 1, m, j + 1);
    if At(s, v) == ']' {
      SolidStep(s, v, m, Skip(m, j + 1));
    } else {
      ItemsKept(s, v, m, Skip(m, j + 1), []);
    }
  }

  /** What an accepted list of items looks like from its first item. */
  lemma ItemsOk(s: string, v: nat, done: seq<Json>)
    requires v <= |s| && ParseItems(s, v, done).Ok?
    ensures ParseValue(s, Skip(s, v)).Ok? && At(s, Skip(s, v)) != '/'
    ensures var item := ParseValue(s, Skip(s, v));
            ParseItems(s, v, done) == AfterItem(s, Skip(s, item.end), done + [item.value])
            && Terminated(s, item.end) && At(s, Skip(s, item.end)) in ",]"
  {
    NoKeyword(s, Skip(s, v));
    hide ParseString, ParseNumber, ParseArray, ParseObject, Has;
  }

  lemma ItemsKept(s: string, v: nat, m: string, u: nat, done: seq<Json>)
    requires v <= |s| && NulFree(s) && Aligned(s, v, m, u) && ParseItems(s, v, done).Ok?
    ensures u <= |m| && ParseItems(m, u, done).Ok? && ParseItems(m, u, done).value == ParseItems(s, v, done).value
    ensures Aligned(s, ParseItems(s, v, done).end, m, ParseItems(m, u, done).end)
    decreases |s| - v, 2
  {
    hide Aligned, ParseItems, ParseValue, Terminated;
    Bounded(s, v, m, u);
    ItemsOk(s, v, done);
    SkipKept(s, v, m, u);
    ValueKept(s, Skip(s, v), m, Skip(m, u));
    var item, copy := ParseValue(s, Skip(s, v)), ParseValue(m, Skip(m, u));
    SkipKept(s, item.end, m, copy.end);
    ItemsTurn(m, u, done, copy);
    var w, x := Skip(s, item.end), Skip(m, copy.end);
    SolidStep(s, w, m, x);
    if At(s, w) == ',' {
      ItemsKept(s, w + 1, m, x + 1, done + [item.value]);
    }
  }

  lemma ObjectKept(s: string, i: nat, m: string, j: nat)
    requires i < |s| && s[i] == '{' && NulFree(s) && Aligned(s, i, m, j) && j < |m| && m[j] == '{'
    requires ParseObject(s, i).Ok?
    ensures ParseObject(m, j).Ok? && ParseObject(m, j).value == ParseObject(s, i).value
    ensures Aligned(s, ParseObject(s, i).end, m, ParseObject(m, j).end)
    decreases |s| - i, 0
  {
    hide Aligned, ParseMembers, ParseMember, ParseValue;
    OpenObject(s, i);
    OpenObject(m, j);
    SolidStep(s, i, m, j);
    var v := Skip(s, i + 1);
    if At(s, v) == '/' {
      MembersOk(s, v, []);
      var _, _, _ := MemberOk(s, v);
    }
    SkipKept(s, i + 1, m, j + 1);
    if At(s, v) == '}' {
      SolidStep(s, v, m, Skip(m, j + 1));
    } else {
      MembersKept(s, v, m, Skip(m, j + 1), []);
    }
  }

  lemma MembersOk(s: string, v: nat, done: seq<Member>)
    requires v <= |s| && ParseMembers(s, v, done).Ok?
    ensures ParseMember(s, v).Ok?
    ensures var member := ParseMember(s, v);
            ParseMembers(s, v, done) == AfterMember(s, Skip(s, member.end), done + [member.value])
            && Terminated(s, member.end) && At(s, Skip(s, member.end)) in ",}"
  {
    hide ParseMember;
  }

  /** What an accepted member looks like. */
  lemma MemberOk(s: string, v: nat) returns (name: Outcome<string>, c: nat, value: Outcome<Json>)
    requires v <= |s| && ParseMember(s, v).Ok?
    ensures At(s, Skip(s, v)) == '"' && name == ParseString(s, Skip(s, v)) && name.Ok? && name.end <= |s|
    ensures c == Skip(s, name.end) && c < |s| && At(s, c) == ':' && At(s, Skip(s, c + 1)) != '/'
    ensures value == ParseValue(s, Skip(s, c + 1)) && value.Ok? && ParseMember(s, v) == Ok(Member(name.value, value.value), value.end)
  {
    hide ParseNumber, ParseArray, ParseObject, Has, Body, EscapesOk, ParseString, ParseValue;
    name := ParseString(s, Skip(s, v));
    QuoteFirst(s, Skip(s, v));
    c := Skip(s, name.end);
    value := ParseValue(s, Skip(s, c + 1));
    NoComment(s, Skip(s, c + 1));
  }

  lemma QuoteFirst(s: string, i: nat)
    requires i <= |s| && ParseString(s, i).Ok?
    ensures At(s, i) == '"'
  {
  }

  lemma MemberKept(s: string, v: nat, m: string, u: nat)
    requires v <= |s| && NulFree(s) && Aligned(s, v, m, u)
    requires ParseMember(s, v).Ok? && Terminated(s, ParseMember(s, v).end)
    ensures u <= |m| && ParseMember(m, u).Ok? && ParseMember(m, u).value == ParseMember(s, v).value
    ensures Aligned(s, ParseMember(s, v).end, m, ParseMember(m, u).end)
    decreases |s| - v, 2
  {
    hide Aligned, ParseMember, ParseValue, ParseString, Terminated;
    Bounded(s, v, m, u);
    var name, c, value := MemberOk(s, v);
    SkipKept(s, v, m, u);
    StringKept(s, Skip(s, v), m, Skip(m, u));
    var copy := ParseString(m, Skip(m, u));
    SkipKept(s, name.end, m, copy.end);
    var d := Skip(m, copy.end);
    SolidStep(s, c, m, d);
    SkipKept(s, c + 1, m, d + 1);
    ValueKept(s, Skip(s, c + 1), m, Skip(m, d + 1));
    var copied := ParseValue(m, Skip(m, d + 1));
    MemberParts(m, u, copy.end, d, Member(name.value, value.value), copied.end);
  }

  lemma MembersKept(s: string, v: nat, m: string, u: nat, done: seq<Member>)
    requires v <= |s| && NulFree(s) && Aligned(s, v, m, u) && ParseMembers(s, v, done).Ok?
    ensures u <= |m| && ParseMembers(m, u, done).Ok? && ParseMembers(m, u, done).value == ParseMembers(s, v, done).value
    ensures Aligned(s, ParseMembers(s, v, done).end, m, ParseMembers(m, u, done).end)
    decreases |s| - v, 3
  {
    hide Aligned, ParseMembers, ParseMember, Terminated;
    MembersOk(s, v, done);
    MemberKept(s, v, m, u);
    var member, copy := ParseMember(s, v), ParseMember(m, u);
    SkipKept(s, member.end, m, copy.end);
    MembersTurn(m, u, done, copy);
    var w, x := Skip(s, member.end), Skip(m, copy.end);
    SolidStep(s, w, m, x);
    if At(s, w) == ',' {
      MembersKept(s, w + 1, m, x + 1, done + [member.value]);
    }
  }

  /** Whatever a text strictly parses to, its minified form strictly parses to as well. */
  lemma MinifyKeepsMeaning(s: string)
    requires NulFree(s) && Closed(s, 0) && Parse(s, true).Ok?
    ensures var m := Minified(s, 0);
            Parse(m, true) == Ok(Parse(s, true).value, |m|)
  {
    hide ParseValue, Minified, Closed;
    var m := Minified(s, 0);
    assert m[0..] == m;
    var v := ParseValue(s, Skip(s, 0));
    assert Terminated(s, v.end);
    NoComment(s, Skip(s, 0));
    SkipKept(s, 0, m, 0);
    ValueKept(s, Skip(s, 0), m, Skip(m, 0));
    SkipKept(s, v.end, m, ParseValue(m, Skip(m, 0)).end);
    EndStep(s, Skip(s, v.end), m, Skip(m, ParseValue(m, Skip(m, 0)).end));
  }

  lemma NoComment(s: string, i: nat)
    requires i <= |s| && ParseValue(s, i).Ok?
    ensures At(s, i) != '/'
  {
    NoKeyword(s, i);
    hide ParseString, ParseNumber, ParseArray, ParseObject, Has;
  }
}
