/** Exactly which texts the parser accepts: those of the documents of its grammar. */
module JsonLanguage {
  import opened JsonText
  import opened JsonNumber
  import opened JsonString
  import opened JsonParser
  import opened JsonMinify
  import opened JsonRoundTrip
  import opened JsonMeaning
  import opened JsonDecimals

  // ---------- documents ----------

  datatype Doc =
    | Word(value: Json)
    | Num(decimal: Decimal)
    | Str(raw: string)
    | Arr(gap: string, items: seq<Elem>)
    | Obj(gap: string, pairs: seq<Pair>)

  /** A value between two gaps. */
  datatype Elem = Elem(before: string, doc: Doc, after: string)

  /** A gap, a name, a gap, a colon, and a value between two gaps. */
  datatype Pair = Pair(before: string, name: string, mid: string, item: Elem)

  predicate IsGap(s: string) {
    forall k | 0 <= k < |s| :: IsSpace(s[k])
  }

  /** What stands between two quotes: a backslash comes with the character behind it, and
      with four more behind a `u`. */
  predicate IsRaw(s: string) {
    |s| == 0
    || if s[0] != '\\' then IsPlain(s[0]) && IsRaw(s[1..])
       else if |s| > 1 && s[1] == 'u' then |s| >= 6 && (forall k | 2 <= k < 6 :: IsPlain(s[k])) && IsRaw(s[6..])
       else |s| > 1 && s[1] != NUL && IsRaw(s[2..])
  }

  /** The length of the first character with what belongs to it. */
  function Unit(raw: string): (n: nat)
    requires |raw| > 0
    ensures n > 0
  {
    if raw[0] != '\\' then 1 else if |raw| > 1 && raw[1] == 'u' then 6 else 2
  }

  lemma UnitFits(raw: string)
    requires |raw| > 0 && IsRaw(raw)
    ensures Unit(raw) <= |raw| && IsRaw(raw[Unit(raw)..])
  {
  }

  function WordText(v: Json): string {
    match v
    case Null => "null"
    case False => "false"
    case _ => "true"
  }

  function DocText(x: Doc): string
    decreases x
  {
    match x
    case Word(v) => WordText(v)
    case Num(d) => DecimalText(d)
    case Str(raw) => "\"" + (raw + "\"")
    case Arr(gap, items) => "[" + (gap + (ElemsText(items) + "]"))
    case Obj(gap, pairs) => "{" + (gap + (PairsText(pairs) + "}"))
  }

  function ElemText(e: Elem): string
    decreases e
  {
    e.before + (DocText(e.doc) + e.after)
  }

  function ElemsText(items: seq<Elem>): string
    decreases items
  {
    if |items| == 0 then ""
    else if |items| == 1 then ElemText(items[0])
    else ElemText(items[0]) + ("," + ElemsText(items[1..]))
  }

  function PairText(p: Pair): string
    decreases p
  {
    p.before + (("\"" + (p.name + "\"")) + (p.mid + (":" + ElemText(p.item))))
  }

  function PairsText(pairs: seq<Pair>): string
    decreases pairs
  {
    if |pairs| == 0 then ""
    else if |pairs| == 1 then PairText(pairs[0])
    else PairText(pairs[0]) + ("," + PairsText(pairs[1..]))
  }

  predicate DocOk(x: Doc)
    decreases x
  {
    match x
    case Word(v) => v == Null || v == False || v == True
    case Num(d) => WellFormed(d)
    case Str(raw) => IsRaw(raw)
    case Arr(gap, items) => IsGap(gap) && ElemsOk(items)
    case Obj(gap, pairs) => IsGap(gap) && PairsOk(pairs)
  }

  predicate ElemOk(e: Elem)
    decreases e
  {
    IsGap(e.before) && DocOk(e.doc) && IsGap(e.after)
  }

  predicate ElemsOk(items: seq<Elem>)
    decreases items
  {
    |items| > 0 ==> ElemOk(items[0]) && ElemsOk(items[1..])
  }

  predicate PairOk(p: Pair)
    decreases p
  {
    IsGap(p.before) && IsRaw(p.name) && IsGap(p.mid) && ElemOk(p.item)
  }

  predicate PairsOk(pairs: seq<Pair>)
    decreases pairs
  {
    |pairs| > 0 ==> PairOk(pairs[0]) && PairsOk(pairs[1..])
  }

  /** The bytes of a literal; Transcoding says what they are. */
  function Unquoted(raw: string): string {
    Body(raw + "\"", 0).0
  }

  /** The number that a text by itself is read as; NumberMeans says which one it is. */
  function NumberOf(d: Decimal): Json
    requires WellFormed(d)
  {
    var s := DecimalText(d);
    DecimalStarts(d);
    ParseNumber(s, 0).value
  }

  lemma DecimalStarts(d: Decimal)
    requires WellFormed(d)
    ensures |DecimalText(d)| > 0 && (DecimalText(d)[0] == '-' || IsDigit(DecimalText(d)[0]))
  {
  }

  function Meaning(x: Doc): Json
    requires DocOk(x)
    decreases x
  {
    match x
    case Word(v) => v
    case Num(d) => NumberOf(d)
    case Str(raw) => String(Unquoted(raw))
    case Arr(_, items) => Array(Meanings(items))
    case Obj(_, pairs) => Object(Members(pairs))
  }

  function ElemMeaning(e: Elem): Json
    requires ElemOk(e)
    decreases e
  {
    Meaning(e.doc)
  }

  function Meanings(items: seq<Elem>): seq<Json>
    requires ElemsOk(items)
    decreases items
  {
    if |items| == 0 then [] else [ElemMeaning(items[0])] + Meanings(items[1..])
  }

  function MemberOf(p: Pair): Member
    requires PairOk(p)
    decreases p
  {
    Member(Unquoted(p.name), ElemMeaning(p.item))
  }

  function Members(pairs: seq<Pair>): seq<Member>
    requires PairsOk(pairs)
    decreases pairs
  {
    if |pairs| == 0 then [] else [MemberOf(pairs[0])] + Members(pairs[1..])
  }

  // ---------- gaps, literals and numbers in a text ----------

  lemma {:induction false} SkipGap(s: string, i: nat, gap: string)
    requires Has(s, i, gap) && IsGap(gap)
    ensures i + |gap| <= |s| && Skip(s, i) == Skip(s, i + |gap|)
    decreases gap
  {
    if |gap| > 0 {
      HasHead(s, i, gap);
      SkipGap(s, i + 1, gap[1..]);
    }
  }

  lemma {:induction false} GapAt(s: string, i: nat)
    requires i <= |s|
    ensures IsGap(s[i..Skip(s, i)])
    decreases |s| - i
  {
    if IsSpace(At(s, i)) {
      GapAt(s, i + 1);
      assert s[i..Skip(s, i)] == [s[i]] + s[i + 1..Skip(s, i)];
    }
  }

  lemma {:induction false} RawEnds(s: string, i: nat, raw: string)
    requires IsRaw(raw) && Has(s, i, raw + "\"")
    ensures i + |raw| < |s| && s[i + |raw|] == '"' && EscapesOk(s, i) && LiteralEnd(s, i) == i + |raw|
    decreases raw
  {
    hide Has, IsRaw, Unit, EscapesOk, LiteralEnd;
    HasSplit(s, i, raw, "\"");
    HasHead(s, i + |raw|, "\"");
    HasRoom(s, i + |raw|, "\"");
    if |raw| == 0 {
      QuoteEnds(s, i);
    } else {
      var n := Unit(raw);
      UnitFits(raw);
      assert raw + "\"" == raw[..n] + (raw[n..] + "\"");
      HasSplit(s, i, raw[..n], raw[n..] + "\"");
      RawEnds(s, i + n, raw[n..]);
      RawStep(s, i, raw, n);
    }
  }

  lemma QuoteEnds(s: string, i: nat)
    requires i < |s| && s[i] == '"'
    ensures EscapesOk(s, i) && LiteralEnd(s, i) == i
  {
  }

  lemma RawStep(s: string, i: nat, raw: string, n: nat)
    requires IsRaw(raw) && 0 < n <= |raw| && n == Unit(raw) && Has(s, i, raw[..n])
    requires EscapesOk(s, i + n)
    ensures EscapesOk(s, i) && LiteralEnd(s, i) == LiteralEnd(s, i + n)
  {
    HasAt(s, i, raw[..n], 0);
    if n > 1 {
      HasAt(s, i, raw[..n], 1);
    }
    if n == 6 {
      HasAt(s, i, raw[..n], 2);
      HasAt(s, i, raw[..n], 3);
      HasAt(s, i, raw[..n], 4);
      HasAt(s, i, raw[..n], 5);
      assert FourPlain(s, i + 2);
      SixQuote(s, i);
    }
  }

  /** A literal is read as it is by itself, wherever it stands. */
  lemma LiteralReads(s: string, i: nat, raw: string)
    requires IsRaw(raw) && Has(s, i, "\"" + (raw + "\""))
    ensures i < |s| && s[i] == '"' && ParseString(s, i) == Ok(Unquoted(raw), i + |raw| + 2)
  {
    hide Body, EscapesOk, LiteralEnd, IsRaw;
    var p := raw + "\"";
    HasSplit(s, i, "\"", p);
    HasHead(s, i, "\"");
    assert p[0..|p|] == p;
    RawEnds(p, 0, raw);
    RawEnds(s, i + 1, raw);
    BodyLocal(p, 0, s, i + 1, p, 0);
  }

  /** A number is read as it is by itself, where its text ends. */
  lemma NumberReads(s: string, i: nat, d: Decimal)
    requires WellFormed(d) && Has(s, i, DecimalText(d)) && !InNumber(At(s, i + |DecimalText(d)|))
    ensures i < |s| && (s[i] == '-' || IsDigit(s[i]))
    ensures ParseNumber(s, i) == Ok(NumberOf(d), i + |DecimalText(d)|)
  {
    hide ParseNumber, WellFormed, DecimalText;
    var p := DecimalText(d);
    DecimalStarts(d);
    assert p[0..|p|] == p;
    NumberMeans(p, 0, d);
    HasHead(s, i, p);
    NumberLocal(p, 0, s, i, p);
  }

  // ---------- every document is accepted ----------

  /** What may follow a value in a document. */
  predicate Stops(c: char) {
    c == NUL || c == ',' || c == ']' || c == '}'
  }

  lemma StopsThere()
    ensures Stops(',') && Stops(']') && Stops('}') && !IsSpace(']') && !IsSpace('}')
  {
  }

  lemma NumberStops(c: char)
    requires Stops(c) || IsSpace(c)
    ensures !InNumber(c)
  {
  }

  lemma DocStart(x: Doc)
    requires DocOk(x)
    ensures |DocText(x)| > 0 && !IsSpace(DocText(x)[0]) && !Stops(DocText(x)[0])
  {
    hide WellFormed, DecimalText, IsRaw, ElemsText, PairsText;
    if x.Num? {
      DecimalStarts(x.decimal);
    }
  }

  /** A value between gaps: where it starts, and where the gap behind it ends. */
  lemma ElemPlaces(s: string, v: nat, q: nat, e: Elem)
    requires ElemOk(e) && v <= |s| && q <= |s| && Skip(s, v) == Skip(s, q) && Has(s, q, ElemText(e))
    requires Stops(At(s, q + |ElemText(e)|))
    ensures var i := q + |e.before|;
            Skip(s, v) == i && Has(s, i, DocText(e.doc)) && i + |DocText(e.doc)| <= |s|
            && Skip(s, i + |DocText(e.doc)|) == q + |ElemText(e)| && !InNumber(At(s, i + |DocText(e.doc)|))
            && !Stops(At(s, i))
  {
    hide DocText, DocOk, Has, IsGap, InNumber, Stops, Skip;
    var text := DocText(e.doc);
    HasSplit(s, q, e.before, text + e.after);
    var i := q + |e.before|;
    HasSplit(s, i, text, e.after);
    SkipGap(s, q, e.before);
    DocStart(e.doc);
    HasHead(s, i, text);
    SkipsNothing(s, i);
    HasRoom(s, i, text);
    GapStops(s, i + |text|, e.after);
  }

  /** A gap in front of what stops a value. */
  lemma GapStops(s: string, i: nat, gap: string)
    requires i <= |s| && Has(s, i, gap) && IsGap(gap) && Stops(At(s, i + |gap|))
    ensures Skip(s, i) == i + |gap| && !InNumber(At(s, i))
  {
    hide InNumber, Has, Skip;
    SkipGap(s, i, gap);
    SkipsNothing(s, i + |gap|);
    if |gap| > 0 {
      HasHead(s, i, gap);
    }
    NumberStops(At(s, i));
  }

  lemma {:induction false} DocParses(s: string, i: nat, x: Doc)
    requires DocOk(x) && Has(s, i, DocText(x)) && !InNumber(At(s, i + |DocText(x)|))
    ensures i <= |s| && ParseValue(s, i) == Ok(Meaning(x), i + |DocText(x)|)
    decreases x, 0
  {
    hide ParseNumber, ParseString, ParseArray, ParseObject, Has, InNumber, WellFormed, DecimalText, IsRaw, IsGap;
    hide ElemsText, PairsText, Unquoted, NumberOf, ElemsOk, PairsOk, Meanings, Members;
    DocStart(x);
    HasHead(s, i, DocText(x));
    NoKeyword(s, i);
    match x
    case Word(_) =>
    case Num(d) => NumberReads(s, i, d);
    case Str(raw) => LiteralReads(s, i, raw);
    case Arr(gap, items) => ArrParses(s, i, gap, items);
    case Obj(gap, pairs) => ObjParses(s, i, gap, pairs);
  }

  lemma {:induction false} ArrParses(s: string, i: nat, gap: string, items: seq<Elem>)
    requires IsGap(gap) && ElemsOk(items) && Has(s, i, "[" + (gap + (ElemsText(items) + "]")))
    ensures i < |s| && s[i] == '[' && ParseArray(s, i) == Ok(Array(Meanings(items)), i + |gap| + |ElemsText(items)| + 2)
    decreases items, 2
  {
    hide ParseArray, ParseItems, Has, Skip, IsSpace, IsGap, ElemsText, Meanings, ElemsOk;
    StopsThere();
    var body := ElemsText(items) + "]";
    HasSplit(s, i, "[", gap + body);
    HasHead(s, i, "[");
    HasSplit(s, i + 1, gap, body);
    SkipGap(s, i + 1, gap);
    OpenArray(s, i);
    var q, v := i + 1 + |gap|, Skip(s, i + 1);
    if |items| == 0 {
      NoElems(items);
      HasHead(s, q, body);
      SkipsNothing(s, q);
    } else {
      SkipTwice(s, i + 1);
      ElemsParse(s, v, q, items, []);
      assert [] + Meanings(items) == Meanings(items);
    }
  }

  lemma NoElems(items: seq<Elem>)
    requires |items| == 0
    ensures ElemsText(items) + "]" == "]" && (ElemsOk(items) ==> Meanings(items) == [])
  {
  }

  lemma SkipTwice(s: string, i: nat)
    requires i <= |s|
    ensures Skip(s, Skip(s, i)) == Skip(s, i)
  {
    SkipsNothing(s, Skip(s, i));
  }

  lemma Regrouped(a: string, b: string, close: string)
    ensures a + ("," + b) + close == a + ("," + (b + close))
  {
  }

  lemma ElemsHead(items: seq<Elem>)
    requires |items| > 0 && ElemsOk(items)
    ensures ElemOk(items[0]) && ElemsOk(items[1..])
    ensures Meanings(items) == [ElemMeaning(items[0])] + Meanings(items[1..])
    ensures |items| == 1 ==> ElemsText(items) + "]" == ElemText(items[0]) + "]" && Meanings(items[1..]) == []
    ensures |items| > 1 ==> ElemsText(items) + "]" == ElemText(items[0]) + ("," + (ElemsText(items[1..]) + "]"))
  {
    hide ElemText, ElemMeaning, ElemOk;
    if |items| > 1 {
      Regrouped(ElemText(items[0]), ElemsText(items[1..]), "]");
    }
  }

  /** Where the first one ends, and what stands behind it. */
  lemma ElemsShape(s: string, q: nat, items: seq<Elem>)
    requires |items| > 0 && ElemsOk(items) && Has(s, q, ElemsText(items) + "]")
    ensures var w := q + |ElemText(items[0])|;
            Has(s, q, ElemText(items[0])) && w < |s|
            && if |items| == 1 then At(s, w) == ']' && |ElemsText(items)| == |ElemText(items[0])|
               else At(s, w) == ',' && Has(s, w + 1, ElemsText(items[1..]) + "]")
                    && q + |ElemsText(items)| == w + 1 + |ElemsText(items[1..])|
  {
    hide Has, ElemsText, ElemText, ElemsOk, ElemOk, ElemMeaning, Meanings;
    ElemsHead(items);
    var first, more := ElemText(items[0]), if |items| == 1 then "" else ElemsText(items[1..]) + "]";
    var w := q + |first|;
    if |items| == 1 {
      HasSplit(s, q, first, "]");
      HasHead(s, w, "]");
      HasRoom(s, w, "]");
    } else {
      HasSplit(s, q, first, "," + more);
      HasSplit(s, w, ",", more);
      HasHead(s, w, ",");
      HasRoom(s, w, ",");
    }
    assert |ElemsText(items) + "]"| == |ElemsText(items)| + 1;
  }

  lemma {:induction false} ElemsParse(s: string, v: nat, q: nat, items: seq<Elem>, done: seq<Json>)
    requires |items| > 0 && ElemsOk(items) && v <= |s| && q <= |s| && Skip(s, v) == Skip(s, q)
    requires Has(s, q, ElemsText(items) + "]")
    ensures ParseItems(s, v, done) == Ok(Array(done + Meanings(items)), q + |ElemsText(items)| + 1)
    ensures At(s, Skip(s, v)) != ']'
    decreases items, 1
  {
    hide ParseItems, ParseValue, Has, ElemsText, ElemText, Meaning, Meanings, ElemsOk, DocOk, DocText, InNumber, Skip, Stops, IsSpace, IsGap;
    StopsThere();
    var e := items[0];
    ElemsHead(items);
    ElemsShape(s, q, items);
    var w := q + |ElemText(e)|;
    ElemPlaces(s, v, q, e);
    assert e.doc < e;
    DocParses(s, q + |e.before|, e.doc);
    ItemsTurn(s, v, done, Ok(ElemMeaning(e), q + |e.before| + |DocText(e.doc)|));
    Appended(done, ElemMeaning(e), Meanings(items[1..]));
    if |items| > 1 {
      ElemsParse(s, w + 1, w + 1, items[1..], done + [ElemMeaning(e)]);
    }
  }

  lemma Appended<T>(done: seq<T>, x: T, more: seq<T>)
    ensures done + [x] + more == done + ([x] + more) && (more == [] ==> done + [x] == done + ([x] + more))
  {
  }

  lemma {:induction false} ObjParses(s: string, i: nat, gap: string, pairs: seq<Pair>)
    requires IsGap(gap) && PairsOk(pairs) && Has(s, i, "{" + (gap + (PairsText(pairs) + "}")))
    ensures i < |s| && s[i] == '{' && ParseObject(s, i) == Ok(Object(Members(pairs)), i + |gap| + |PairsText(pairs)| + 2)
    decreases pairs, 2
  {
    hide ParseObject, ParseMembers, Has, Skip, IsSpace, IsGap, PairsText, Members, PairsOk;
    StopsThere();
    var body := PairsText(pairs) + "}";
    HasSplit(s, i, "{", gap + body);
    HasHead(s, i, "{");
    HasSplit(s, i + 1, gap, body);
    SkipGap(s, i + 1, gap);
    OpenObject(s, i);
    var q, v := i + 1 + |gap|, Skip(s, i + 1);
    if |pairs| == 0 {
      NoPairs(pairs);
      HasHead(s, q, body);
      SkipsNothing(s, q);
    } else {
      SkipTwice(s, i + 1);
      PairsParse(s, v, q, pairs, []);
      assert [] + Members(pairs) == Members(pairs);
    }
  }

  lemma NoPairs(pairs: seq<Pair>)
    requires |pairs| == 0
    ensures PairsText(pairs) + "}" == "}" && (PairsOk(pairs) ==> Members(pairs) == [])
  {
  }

  lemma PairsHead(pairs: seq<Pair>)
    requires |pairs| > 0 && PairsOk(pairs)
    ensures PairOk(pairs[0]) && PairsOk(pairs[1..])
    ensures Members(pairs) == [MemberOf(pairs[0])] + Members(pairs[1..])
    ensures |pairs| == 1 ==> PairsText(pairs) + "}" == PairText(pairs[0]) + "}" && Members(pairs[1..]) == []
    ensures |pairs| > 1 ==> PairsText(pairs) + "}" == PairText(pairs[0]) + ("," + (PairsText(pairs[1..]) + "}"))
  {
    hide PairText, MemberOf, PairOk;
    if |pairs| > 1 {
      Regrouped(PairText(pairs[0]), PairsText(pairs[1..]), "}");
    }
  }

  lemma PairSplit(s: string, q: nat, p: Pair)
    requires Has(s, q, PairText(p))
    ensures var n := q + |p.before|;
            var m := n + |p.name| + 2;
            var c := m + |p.mid|;
            Has(s, q, p.before) && Has(s, n, "\"" + (p.name + "\"")) && Has(s, m, p.mid) && Has(s, c, ":")
            && Has(s, c + 1, ElemText(p.item)) && q + |PairText(p)| == c + 1 + |ElemText(p.item)|
  {
    hide Has, ElemText;
    var name, item := "\"" + (p.name + "\""), ElemText(p.item);
    HasSplit(s, q, p.before, name + (p.mid + (":" + item)));
    var n := q + |p.before|;
    HasSplit(s, n, name, p.mid + (":" + item));
    HasSplit(s, n + |name|, p.mid, ":" + item);
    HasSplit(s, n + |name| + |p.mid|, ":", item);
  }

  /** The places of a pair: its name, its colon and its value. */
  lemma PairPlaces(s: string, v: nat, q: nat, p: Pair)
    requires PairOk(p) && v <= |s| && q <= |s| && Skip(s, v) == Skip(s, q) && Has(s, q, PairText(p))
    ensures var n := q + |p.before|;
            var m := n + |p.name| + 2;
            var c := m + |p.mid|;
            Skip(s, v) == n && Has(s, n, "\"" + (p.name + "\"")) && At(s, n) == '"' && m <= |s|
            && Skip(s, m) == c && c < |s| && s[c] == ':' && Has(s, c + 1, ElemText(p.item))
            && q + |PairText(p)| == c + 1 + |ElemText(p.item)|
  {
    hide Has, IsGap, IsRaw, ElemText, PairText, ElemOk, Skip, IsSpace;
    PairSplit(s, q, p);
    var name := "\"" + (p.name + "\"");
    var n := q + |p.before|;
    var m := n + |name|;
    HasRoom(s, n, name);
    HasHead(s, n, name);
    HasHead(s, m + |p.mid|, ":");
    Marks();
    GapThen(s, q, p.before);
    GapThen(s, m, p.mid);
  }

  lemma Marks()
    ensures !IsSpace('"') && !IsSpace(':')
  {
  }

  lemma GapThen(s: string, i: nat, gap: string)
    requires i <= |s| && Has(s, i, gap) && IsGap(gap) && !IsSpace(At(s, i + |gap|))
    ensures Skip(s, i) == i + |gap|
  {
    hide Has, IsGap, Skip;
    SkipGap(s, i, gap);
    SkipsNothing(s, i + |gap|);
  }

  lemma {:induction false} PairParses(s: string, v: nat, q: nat, p: Pair)
    requires PairOk(p) && v <= |s| && q <= |s| && Skip(s, v) == Skip(s, q) && Has(s, q, PairText(p))
    requires Stops(At(s, q + |PairText(p)|))
    ensures ParseMember(s, v).Ok? && ParseMember(s, v).value == MemberOf(p)
    ensures Skip(s, ParseMember(s, v).end) == q + |PairText(p)| && At(s, Skip(s, v)) == '"'
    decreases p, 0
  {
    hide ParseMember, ParseValue, ParseString, Has, PairText, ElemText, Meaning, DocText, InNumber, Unquoted, IsRaw, IsGap, Skip;
    PairPlaces(s, v, q, p);
    var n := q + |p.before|;
    var m := n + |p.name| + 2;
    var c := m + |p.mid|;
    LiteralReads(s, n, p.name);
    var e := p.item;
    ElemPlaces(s, c + 1, c + 1, e);
    assert e < p && e.doc < e;
    DocParses(s, c + 1 + |e.before|, e.doc);
    assert MemberOf(p).value == ElemMeaning(e) == Meaning(e.doc);
    MemberParts(s, v, m, c, MemberOf(p), c + 1 + |e.before| + |DocText(e.doc)|);
  }

  /** Where the first one ends, and what stands behind it. */
  lemma PairsShape(s: string, q: nat, pairs: seq<Pair>)
    requires |pairs| > 0 && PairsOk(pairs) && Has(s, q, PairsText(pairs) + "}")
    ensures var w := q + |PairText(pairs[0])|;
            Has(s, q, PairText(pairs[0])) && w < |s|
            && if |pairs| == 1 then At(s, w) == '}' && |PairsText(pairs)| == |PairText(pairs[0])|
               else At(s, w) == ',' && Has(s, w + 1, PairsText(pairs[1..]) + "}")
                    && q + |PairsText(pairs)| == w + 1 + |PairsText(pairs[1..])|
  {
    hide Has, PairsText, PairText, PairsOk, PairOk, MemberOf, Members;
    PairsHead(pairs);
    var first, more := PairText(pairs[0]), if |pairs| == 1 then "" else PairsText(pairs[1..]) + "}";
    var w := q + |first|;
    if |pairs| == 1 {
      HasSplit(s, q, first, "}");
      HasHead(s, w, "}");
      HasRoom(s, w, "}");
    } else {
      HasSplit(s, q, first, "," + more);
      HasSplit(s, w, ",", more);
      HasHead(s, w, ",");
      HasRoom(s, w, ",");
    }
    assert |PairsText(pairs) + "}"| == |PairsText(pairs)| + 1;
  }

  lemma {:induction false} PairsParse(s: string, v: nat, q: nat, pairs: seq<Pair>, done: seq<Member>)
    requires |pairs| > 0 && PairsOk(pairs) && v <= |s| && q <= |s| && Skip(s, v) == Skip(s, q)
    requires Has(s, q, PairsText(pairs) + "}")
    ensures ParseMembers(s, v, done) == Ok(Object(done + Members(pairs)), q + |PairsText(pairs)| + 1)
    ensures At(s, Skip(s, v)) != '}'
    decreases pairs, 1
  {
    hide ParseMembers, ParseMember, Has, PairsText, PairText, MemberOf, Members, PairsOk, PairOk, Skip, Stops, IsSpace;
    StopsThere();
    var p := pairs[0];
    PairsHead(pairs);
    PairsShape(s, q, pairs);
    var w := q + |PairText(p)|;
    PairParses(s, v, q, p);
    MembersTurn(s, v, done, ParseMember(s, v));
    Appended(done, MemberOf(p), Members(pairs[1..]));
    if |pairs| > 1 {
      PairsParse(s, w + 1, w + 1, pairs[1..], done + [MemberOf(p)]);
    }
  }

  // ---------- every accepted text is that of a document ----------

  lemma HasGlue(s: string, i: nat, a: string, b: string)
    requires Has(s, i, a) && Has(s, i + |a|, b)
    ensures Has(s, i, a + b)
  {
    assert s[i..i + |a| + |b|] == s[i..i + |a|] + s[i + |a|..i + |a| + |b|];
  }

  lemma HasSlice(s: string, i: nat, j: nat)
    requires i <= j <= |s|
    ensures Has(s, i, s[i..j])
  {
  }

  lemma HasChar(s: string, i: nat, p: string)
    requires |p| == 1 && At(s, i) == p[0] != NUL
    ensures Has(s, i, p)
  {
    assert s[i..i + 1] == p;
  }

  lemma {:induction false} RawAt(s: string, i: nat)
    requires NulFree(s) && EscapesOk(s, i) && i <= LiteralEnd(s, i) <= |s|
    ensures IsRaw(s[i..LiteralEnd(s, i)])
    decreases |s| - i
  {
    var e := LiteralEnd(s, i);
    if !AtEnd(s, i) {
      var n := if s[i] != '\\' then 1 else if At(s, i + 1) == 'u' then 6 else 2;
      RawTurn(s, i, n);
      RawAt(s, i + n);
      var raw := s[i..e];
      assert raw[n..] == s[i + n..e];
      assert forall k | 0 <= k < n :: raw[k] == At(s, i + k);
      assert n == 6 ==> raw[2] == At(s, i + 2) && raw[3] == At(s, i + 3) && raw[4] == At(s, i + 4) && raw[5] == At(s, i + 5);
    }
  }

  lemma RawTurn(s: string, i: nat, n: nat)
    requires NulFree(s) && EscapesOk(s, i) && !AtEnd(s, i)
    requires n == if s[i] != '\\' then 1 else if At(s, i + 1) == 'u' then 6 else 2
    ensures i + n <= |s| && EscapesOk(s, i + n) && LiteralEnd(s, i) == LiteralEnd(s, i + n) && LiteralEnd(s, i + n) >= i + n
    ensures n == 1 ==> IsPlain(s[i])
    ensures n == 6 ==> FourPlain(s, i + 2)
  {
    if n == 6 {
      SixQuote(s, i);
      assert At(s, i + 5) != NUL;
      assert IsPlain(At(s, i + 2)) && IsPlain(At(s, i + 3)) && IsPlain(At(s, i + 4)) && IsPlain(At(s, i + 5));
    } else if n == 2 {
      assert At(s, i + 1) != NUL;
    }
  }

  /** A literal that is accepted in front of anything is closed. */
  lemma LiteralFound(s: string, i: nat) returns (raw: string)
    requires i <= |s| && NulFree(s) && ParseString(s, i).Ok?
    ensures i < |s| && s[i] == '"' && IsRaw(raw) && i + 1 + |raw| <= |s| && s[i + 1..i + 1 + |raw|] == raw
    ensures ParseString(s, i).end == if i + 1 + |raw| < |s| then i + |raw| + 2 else |s|
    ensures i + 1 + |raw| < |s| ==> Has(s, i, "\"" + (raw + "\""))
  {
    hide Body, EscapesOk, LiteralEnd, IsRaw;
    SameQuote(s, i + 1);
    BodyEnds(s, i + 1);
    var e := LiteralEnd(s, i + 1);
    assert e <= |s|;
    RawAt(s, i + 1);
    raw := s[i + 1..e];
    if e < |s| {
      QuoteAt(s, i + 1);
      assert s[i..e + 1] == "\"" + (raw + "\"");
    }
  }

  lemma NumberFound(s: string, i: nat) returns (d: Decimal)
    requires i < |s| && (s[i] == '-' || IsDigit(s[i]))
    ensures WellFormed(d) && Has(s, i, DecimalText(d)) && ParseNumber(s, i).end == i + |DecimalText(d)|
  {
    hide Has, ParseNumber, ReadWhole, ReadFraction, ReadExponent, WellFormed, DecimalText, WholeText, FractionText, ExponentText;
    var i1 := if s[i] == '-' then i + 1 else i;
    var negative := s[i] == '-';
    var sign := if negative then "-" else "";
    var zero, whole := WholeFound(s, i1);
    var i2 := ReadWhole(s, i1).1;
    var n := ReadWhole(s, i1).0;
    var fraction := FractionFound(s, i2, n);
    var i3 := ReadFraction(s, i2, n).2;
    var exponent := ExponentFound(s, i3);
    d := Decimal(negative, zero, whole, fraction, exponent);
    NumberParts(s, i, i1, i2, i3);
    FormedOf(d);
    TextsOf(d);
    if negative {
      HasChar(s, i, sign);
    } else {
      HasSlice(s, i, i);
      assert s[i..i] == sign;
    }
    DecimalGlue(s, i, i1, i2, i3, d);
  }

  lemma DecimalGlue(s: string, i: nat, i1: nat, i2: nat, i3: nat, d: Decimal)
    requires Has(s, i, if d.negative then "-" else "") && i1 == (if d.negative then i + 1 else i)
    requires Has(s, i1, WholeText(d)) && i2 == i1 + |WholeText(d)|
    requires Has(s, i2, FractionText(d)) && i3 == i2 + |FractionText(d)| && Has(s, i3, ExponentText(d))
    ensures Has(s, i, DecimalText(d)) && i + |DecimalText(d)| == i3 + |ExponentText(d)|
  {
    hide Has, WholeText, FractionText, ExponentText;
    HasGlue(s, i2, FractionText(d), ExponentText(d));
    HasGlue(s, i1, WholeText(d), FractionText(d) + ExponentText(d));
    HasGlue(s, i, if d.negative then "-" else "", WholeText(d) + (FractionText(d) + ExponentText(d)));
  }

  lemma FormedOf(d: Decimal)
    requires AllDigits(d.whole) && AllDigits(d.fraction) && (if |d.whole| > 0 then d.whole[0] != '0' else d.zero || d.negative)
    requires d.exponent.Exponent? ==> d.exponent.sign in ["", "+", "-"] && AllDigits(d.exponent.digits)
    ensures WellFormed(d)
  {
  }

  lemma TextsOf(d: Decimal)
    ensures WholeText(d) == (if d.zero then "0" else "") + d.whole
    ensures FractionText(d) == if |d.fraction| > 0 then "." + d.fraction else ""
    ensures ExponentText(d) ==
      if d.exponent.NoExponent? then "" else (if d.exponent.upper then "E" else "e") + (d.exponent.sign + d.exponent.digits)
  {
  }

  lemma WholeFound(s: string, i: nat) returns (zero: bool, whole: string)
    requires i <= |s|
    ensures AllDigits(whole) && (|whole| > 0 ==> whole[0] != '0') && (|whole| == 0 && IsDigit(At(s, i)) ==> zero)
    ensures Has(s, i, (if zero then "0" else "") + whole) && ReadWhole(s, i).1 == i + (if zero then 1 else 0) + |whole|
  {
    hide ReadDigits, Has;
    zero := At(s, i) == '0';
    var j := SkipOne(s, i, '0');
    var e := ReadWhole(s, i).1;
    whole := s[j..e];
    if '1' <= At(s, j) <= '9' {
      DigitsSpan(s, j, 0);
      assert forall k | 0 <= k < |whole| :: whole[k] == At(s, j + k);
    }
    HasSlice(s, j, e);
    if zero {
      HasChar(s, i, "0");
      HasGlue(s, i, "0", whole);
    } else {
      assert "" + whole == whole;
    }
  }

  lemma FractionFound(s: string, i: nat, n: nat) returns (fraction: string)
    requires i <= |s|
    ensures AllDigits(fraction)
    ensures var text := if |fraction| > 0 then "." + fraction else "";
            Has(s, i, text) && ReadFraction(s, i, n).2 == i + |text|
  {
    hide ReadDigits, Has;
    var e := ReadFraction(s, i, n).2;
    if e > i {
      DigitsSpan(s, i + 1, n);
      fraction := s[i + 1..e];
      assert forall k | 0 <= k < |fraction| :: fraction[k] == At(s, i + 1 + k);
      HasChar(s, i, ".");
      HasSlice(s, i + 1, e);
      HasGlue(s, i, ".", fraction);
    } else {
      fraction := "";
      HasSlice(s, i, i);
      assert s[i..i] == "";
    }
  }

  lemma ExponentFound(s: string, i: nat) returns (x: Exponent)
    requires i <= |s|
    ensures x.Exponent? ==> x.sign in ["", "+", "-"] && AllDigits(x.digits)
    ensures var text := if x.NoExponent? then "" else (if x.upper then "E" else "e") + (x.sign + x.digits);
            Has(s, i, text) && ReadExponent(s, i).1 == i + |text|
  {
    hide ReadDigits, ReadExponent, Has;
    ExponentEnds(s, i);
    var e := ReadExponent(s, i).1;
    if At(s, i) == 'e' || At(s, i) == 'E' {
      var letter := if At(s, i) == 'E' then "E" else "e";
      var sign := if At(s, i + 1) == '-' then "-" else if At(s, i + 1) == '+' then "+" else "";
      var j := i + 1 + |sign|;
      DigitsSpan(s, j, 0);
      var digits := s[j..e];
      assert forall k | 0 <= k < |digits| :: digits[k] == At(s, j + k);
      x := Exponent(At(s, i) == 'E', sign, digits);
      HasChar(s, i, letter);
      if sign != "" {
        HasChar(s, i + 1, sign);
      } else {
        HasSlice(s, i + 1, i + 1);
        assert s[i + 1..i + 1] == sign;
      }
      HasSlice(s, j, e);
      HasGlue(s, i + 1, sign, digits);
      HasGlue(s, i, letter, sign + digits);
    } else {
      x := NoExponent;
      HasSlice(s, i, i);
      assert s[i..i] == "";
    }
  }

  lemma ExponentEnds(s: string, i: nat)
    requires i <= |s|
    ensures var j := if At(s, i + 1) == '-' || At(s, i + 1) == '+' then i + 2 else i + 1;
            if At(s, i) == 'e' || At(s, i) == 'E' then j <= |s| && ReadExponent(s, i).1 == ReadDigits(s, j, 0).1
            else ReadExponent(s, i) == (0, i)
  {
    hide ReadDigits;
  }

  /** A value is found whose text is closed. */
  predicate Ends(s: string, i: nat)
    requires i <= |s|
  {
    ParseValue(s, i).Ok? && Terminated(s, ParseValue(s, i).end)
    && (At(s, i) == '"' ==> ParseValue(s, i).end < |s| || LiteralEnd(s, i + 1) < |s|)
  }

  lemma {:induction false} DocFound(s: string, i: nat) returns (x: Doc)
    requires i <= |s| && NulFree(s) && Ends(s, i)
    ensures DocOk(x) && Has(s, i, DocText(x)) && ParseValue(s, i).end == i + |DocText(x)|
    decreases |s| - i, 1
  {
    hide ParseString, ParseArray, ParseObject, ParseNumber, Has, NulFree, LiteralEnd, ElemsOk, PairsOk, ElemsText, PairsText, WellFormed, DecimalText, IsRaw;
    NoKeyword(s, i);
    if Has(s, i, "null") {
      x := Word(Null);
    } else if Has(s, i, "false") {
      x := Word(False);
    } else if Has(s, i, "true") {
      x := Word(True);
    } else if At(s, i) == '"' {
      var raw := LiteralFound(s, i);
      ClosedLiteral(s, i, raw);
      x := Str(raw);
    } else if At(s, i) == '-' || IsDigit(At(s, i)) {
      var d := NumberFound(s, i);
      x := Num(d);
    } else if At(s, i) == '[' {
      x := ArrFound(s, i);
    } else {
      x := ObjFound(s, i);
    }
  }

  lemma ClosedLiteral(s: string, i: nat, raw: string)
    requires i < |s| && NulFree(s) && ParseString(s, i).Ok? && (ParseString(s, i).end < |s| || LiteralEnd(s, i + 1) < |s|)
    requires IsRaw(raw) && i + 1 + |raw| <= |s| && s[i + 1..i + 1 + |raw|] == raw
    requires ParseString(s, i).end == if i + 1 + |raw| < |s| then i + |raw| + 2 else |s|
    ensures i + 1 + |raw| < |s|
  {
    hide Body, EscapesOk, IsRaw;
    SameQuote(s, i + 1);
    if LiteralEnd(s, i + 1) < |s| {
      QuoteAt(s, i + 1);
      if i + 1 + |raw| == |s| {
        RawNoEnd(s, i + 1, raw);
      }
    }
  }

  /** A raw text has no closing quote inside. */
  lemma {:induction false} RawNoEnd(s: string, i: nat, raw: string)
    requires IsRaw(raw) && i + |raw| == |s| && s[i..] == raw && EscapesOk(s, i)
    ensures LiteralEnd(s, i) >= |s|
    decreases raw
  {
    if |raw| > 0 {
      var n := Unit(raw);
      UnitFits(raw);
      HasSlice(s, i, i + n);
      assert s[i..i + n] == raw[..n];
      assert s[i + n..] == raw[n..];
      RawSkips(s, i, raw, n);
      RawNoEnd(s, i + n, raw[n..]);
    }
  }

  lemma RawSkips(s: string, i: nat, raw: string, n: nat)
    requires IsRaw(raw) && 0 < n <= |raw| && n == Unit(raw)
    requires Has(s, i, raw[..n]) && EscapesOk(s, i)
    ensures LiteralEnd(s, i) == LiteralEnd(s, i + n) && EscapesOk(s, i + n)
  {
    HasAt(s, i, raw[..n], 0);
    if n > 1 {
      HasAt(s, i, raw[..n], 1);
    }
    if n == 6 {
      SixQuote(s, i);
    }
  }

  lemma {:induction false} ArrFound(s: string, i: nat) returns (x: Doc)
    requires i < |s| && NulFree(s) && s[i] == '[' && ParseArray(s, i).Ok?
    ensures DocOk(x) && Has(s, i, DocText(x)) && ParseArray(s, i).end == i + |DocText(x)|
    decreases |s| - i, 0
  {
    hide ParseArray, ParseItems, Has, NulFree, ElemsText, ElemsOk, IsGap;
    OpenArray(s, i);
    var v := Skip(s, i + 1);
    var gap := s[i + 1..v];
    GapAt(s, i + 1);
    HasSlice(s, i + 1, v);
    HasChar(s, i, "[");
    var items: seq<Elem> := [];
    if At(s, v) == ']' {
      HasChar(s, v, "]");
      NoElems(items);
      EmptyOk();
    } else {
      items := ElemsFound(s, v, []);
    }
    x := Arr(gap, items);
    HasGlue(s, i + 1, gap, ElemsText(items) + "]");
    HasGlue(s, i, "[", gap + (ElemsText(items) + "]"));
  }

  lemma EmptyOk()
    ensures ElemsOk([]) && PairsOk([])
  {
  }

  /** An accepted value with its gaps. */
  lemma {:induction false} ElemFound(s: string, v: nat) returns (e: Elem)
    requires v <= |s| && NulFree(s) && Ends(s, Skip(s, v))
    ensures ElemOk(e) && Has(s, v, ElemText(e)) && Skip(s, ParseValue(s, Skip(s, v)).end) == v + |ElemText(e)|
    decreases |s| - v, 2
  {
    hide Ends, ParseValue, Has, NulFree, DocText, DocOk, IsGap;
    var i := Skip(s, v);
    GapAt(s, v);
    HasSlice(s, v, i);
    var x := DocFound(s, i);
    var k := i + |DocText(x)|;
    HasRoom(s, i, DocText(x));
    GapAt(s, k);
    HasSlice(s, k, Skip(s, k));
    e := Elem(s[v..i], x, s[k..Skip(s, k)]);
    HasGlue(s, i, DocText(x), e.after);
    HasGlue(s, v, e.before, DocText(x) + e.after);
  }

  lemma ItemEnds(s: string, v: nat, done: seq<Json>)
    requires v <= |s| && ParseItems(s, v, done).Ok?
    ensures Ends(s, Skip(s, v)) && ParseValue(s, Skip(s, v)).Ok?
    ensures var item := ParseValue(s, Skip(s, v));
            ParseItems(s, v, done) == AfterItem(s, Skip(s, item.end), done + [item.value]) && At(s, Skip(s, item.end)) in ",]"
  {
    hide ParseValue, ParseItems, LiteralEnd;
    ItemsOk(s, v, done);
  }

  lemma {:induction false} ElemsFound(s: string, v: nat, done: seq<Json>) returns (items: seq<Elem>)
    requires v <= |s| && NulFree(s) && ParseItems(s, v, done).Ok?
    ensures |items| > 0 && ElemsOk(items) && Has(s, v, ElemsText(items) + "]")
    ensures ParseItems(s, v, done).end == v + |ElemsText(items)| + 1
    decreases |s| - v, 3
  {
    hide ParseValue, ParseItems, Has, NulFree, Ends, ElemText, ElemsText, ElemOk, ElemsOk;
    ItemEnds(s, v, done);
    var e := ElemFound(s, v);
    var item := ParseValue(s, Skip(s, v));
    var w := v + |ElemText(e)|;
    if At(s, w) == ',' {
      var more := ElemsFound(s, w + 1, done + [item.value]);
      items := [e] + more;
      assert items[1..] == more;
      ElemsJoin(items);
      HasChar(s, w, ",");
      HasGlue(s, w, ",", ElemsText(more) + "]");
      HasGlue(s, v, ElemText(e), "," + (ElemsText(more) + "]"));
    } else {
      items := [e];
      ElemsJoin(items);
      HasChar(s, w, "]");
      HasGlue(s, v, ElemText(e), "]");
    }
  }

  lemma ElemsJoin(items: seq<Elem>)
    requires |items| > 0 && ElemOk(items[0]) && (|items| > 1 ==> ElemsOk(items[1..]))
    ensures ElemsOk(items)
    ensures ElemsText(items) + "]" ==
      ElemText(items[0]) + if |items| == 1 then "]" else "," + (ElemsText(items[1..]) + "]")
  {
    hide ElemText, ElemOk;
    if |items| > 1 {
      Regrouped(ElemText(items[0]), ElemsText(items[1..]), "]");
    } else {
      assert items[1..] == [];
    }
  }

  lemma {:induction false} ObjFound(s: string, i: nat) returns (x: Doc)
    requires i < |s| && NulFree(s) && s[i] == '{' && ParseObject(s, i).Ok?
    ensures DocOk(x) && Has(s, i, DocText(x)) && ParseObject(s, i).end == i + |DocText(x)|
    decreases |s| - i, 0
  {
    hide ParseObject, ParseMembers, Has, NulFree, PairsText, PairsOk, IsGap;
    OpenObject(s, i);
    var v := Skip(s, i + 1);
    var gap := s[i + 1..v];
    GapAt(s, i + 1);
    HasSlice(s, i + 1, v);
    HasChar(s, i, "{");
    var pairs: seq<Pair> := [];
    if At(s, v) == '}' {
      HasChar(s, v, "}");
      NoPairs(pairs);
      EmptyOk();
    } else {
      pairs := PairsFound(s, v, []);
    }
    x := Obj(gap, pairs);
    HasGlue(s, i + 1, gap, PairsText(pairs) + "}");
    HasGlue(s, i, "{", gap + (PairsText(pairs) + "}"));
  }

  lemma {:induction false} PairFound(s: string, v: nat) returns (p: Pair)
    requires v <= |s| && NulFree(s) && ParseMember(s, v).Ok? && At(s, Skip(s, ParseMember(s, v).end)) in ",}"
    ensures PairOk(p) && Has(s, v, PairText(p)) && Skip(s, ParseMember(s, v).end) == v + |PairText(p)|
    decreases |s| - v, 2
  {
    hide ParseMember, ParseValue, ParseString, Has, NulFree, PairText, ElemText, ElemOk, IsGap, IsRaw, Skip;
    var name, c, value := MemberOk(s, v);
    var n := Skip(s, v);
    GapAt(s, v);
    HasSlice(s, v, n);
    var raw := LiteralFound(s, n);
    GapAt(s, name.end);
    HasSlice(s, name.end, c);
    HasChar(s, c, ":");
    ValueEnds(s, Skip(s, c + 1));
    var e := ElemFound(s, c + 1);
    p := Pair(s[v..n], raw, s[name.end..c], e);
    PairGlue(s, v, p);
  }

  lemma PairGlue(s: string, q: nat, p: Pair)
    requires var n := q + |p.before|;
             var m := n + |p.name| + 2;
             var c := m + |p.mid|;
             Has(s, q, p.before) && Has(s, n, "\"" + (p.name + "\"")) && Has(s, m, p.mid) && Has(s, c, ":")
             && Has(s, c + 1, ElemText(p.item))
    ensures Has(s, q, PairText(p)) && |PairText(p)| == |p.before| + |p.name| + |p.mid| + 3 + |ElemText(p.item)|
  {
    hide Has, ElemText;
    var name, item := "\"" + (p.name + "\""), ElemText(p.item);
    var n := q + |p.before|;
    var m := n + |name|;
    HasGlue(s, m + |p.mid|, ":", item);
    HasGlue(s, m, p.mid, ":" + item);
    HasGlue(s, n, name, p.mid + (":" + item));
    HasGlue(s, q, p.before, name + (p.mid + (":" + item)));
  }

  lemma ValueEnds(s: string, i: nat)
    requires i <= |s| && ParseValue(s, i).Ok? && At(s, Skip(s, ParseValue(s, i).end)) in ",]}"
    ensures Ends(s, i)
  {
    hide ParseValue, LiteralEnd;
  }

  lemma {:induction false} PairsFound(s: string, v: nat, done: seq<Member>) returns (pairs: seq<Pair>)
    requires v <= |s| && NulFree(s) && ParseMembers(s, v, done).Ok?
    ensures |pairs| > 0 && PairsOk(pairs) && Has(s, v, PairsText(pairs) + "}")
    ensures ParseMembers(s, v, done).end == v + |PairsText(pairs)| + 1
    decreases |s| - v, 3
  {
    hide ParseMember, ParseMembers, Has, NulFree, PairText, PairsText, PairOk, PairsOk;
    MembersOk(s, v, done);
    var p := PairFound(s, v);
    var member := ParseMember(s, v);
    var w := v + |PairText(p)|;
    if At(s, w) == ',' {
      var more := PairsFound(s, w + 1, done + [member.value]);
      pairs := [p] + more;
      assert pairs[1..] == more;
      PairsJoin(pairs);
      HasChar(s, w, ",");
      HasGlue(s, w, ",", PairsText(more) + "}");
      HasGlue(s, v, PairText(p), "," + (PairsText(more) + "}"));
    } else {
      pairs := [p];
      PairsJoin(pairs);
      HasChar(s, w, "}");
      HasGlue(s, v, PairText(p), "}");
    }
  }

  lemma PairsJoin(pairs: seq<Pair>)
    requires |pairs| > 0 && PairOk(pairs[0]) && (|pairs| > 1 ==> PairsOk(pairs[1..]))
    ensures PairsOk(pairs)
    ensures PairsText(pairs) + "}" ==
      PairText(pairs[0]) + if |pairs| == 1 then "}" else "," + (PairsText(pairs[1..]) + "}")
  {
    hide PairText, PairOk;
    if |pairs| > 1 {
      Regrouped(PairText(pairs[0]), PairsText(pairs[1..]), "}");
    } else {
      assert pairs[1..] == [];
    }
  }

  // ---------- whole texts ----------

  /** A text is a value between two gaps, or a literal that is not closed: the parser takes
      the end of the text for its closing quote. */
  datatype Document = Whole(elem: Elem) | Unclosed(gap: string, raw: string)

  function DocumentText(x: Document): string {
    match x
    case Whole(e) => ElemText(e)
    case Unclosed(gap, raw) => gap + ("\"" + raw)
  }

  predicate DocumentOk(x: Document) {
    match x
    case Whole(e) => ElemOk(e)
    case Unclosed(gap, raw) => IsGap(gap) && IsRaw(raw)
  }

  function DocumentMeaning(x: Document): Json
    requires DocumentOk(x)
  {
    match x
    case Whole(e) => ElemMeaning(e)
    case Unclosed(_, raw) => String(Unquoted(raw))
  }

  /** A raw text that ends with the text is a whole literal's body. */
  lemma {:induction false} RawOpen(s: string, i: nat, raw: string)
    requires IsRaw(raw) && i + |raw| == |s| && s[i..] == raw
    ensures EscapesOk(s, i) && LiteralEnd(s, i) == |s|
    decreases raw
  {
    if |raw| > 0 {
      var n := Unit(raw);
      UnitFits(raw);
      HasSlice(s, i, i + n);
      assert s[i..i + n] == raw[..n];
      assert s[i + n..] == raw[n..];
      RawOpen(s, i + n, raw[n..]);
      RawStep(s, i, raw, n);
    }
  }

  lemma TurnSame(s: string, i: nat, m: string)
    requires !AtEnd(s, i) && EscapesOk(s, i) && m == s + "\""
    ensures !AtEnd(m, i) && Turn(m, i) == Turn(s, i)
  {
    hide Turn;
    assert forall k | 0 <= k < |s| :: At(m, k) == At(s, k);
    if UnicodeEscape(s, i) {
      assert At(s, i + 5) != NUL && EscapesOk(s, i + 6);
      if UnicodeEscape(s, i + 6) {
        assert At(s, i + 11) != NUL;
      }
    }
    SameTurn(s, i, m, i);
  }

  /** The end of the text closes a literal as a quote does. */
  lemma {:induction false} OpenBody(s: string, i: nat)
    requires i <= |s| && EscapesOk(s, i) && LiteralEnd(s, i) == |s|
    ensures Body(s, i) == (Body(s + "\"", i).0, |s|)
    decreases |s| - i
  {
    hide Turn, Body, EscapesOk, LiteralEnd;
    var m := s + "\"";
    if AtEnd(s, i) {
      QuoteHere(s, i);
      BodyStops(s, i);
      BodyStops(m, i);
    } else {
      TurnStays(s, i);
      TurnQuote(s, i);
      TurnSame(s, i, m);
      OpenBody(s, Turn(s, i).1);
      BodyTurn(s, i, Turn(s, i).0, Turn(s, i).1);
      BodyTurn(m, i, Turn(s, i).0, Turn(s, i).1);
    }
  }

  lemma QuoteHere(s: string, i: nat)
    requires i <= |s| && AtEnd(s, i) && LiteralEnd(s, i) == |s|
    ensures i == |s|
  {
  }

  lemma BodyStops(s: string, i: nat)
    requires AtEnd(s, i)
    ensures Body(s, i) == ("", if At(s, i) == '"' then i + 1 else i)
  {
  }

  lemma UnclosedParses(s: string, i: nat, raw: string)
    requires IsRaw(raw) && i + 1 + |raw| == |s| && s[i] == '"' && s[i + 1..] == raw
    ensures ParseString(s, i) == Ok(Unquoted(raw), |s|)
  {
    hide Body, EscapesOk, LiteralEnd, IsRaw;
    var m, p := s + "\"", raw + "\"";
    RawOpen(s, i + 1, raw);
    OpenBody(s, i + 1);
    assert m[i + 1..i + 1 + |p|] == p && p[0..|p|] == p;
    RawEnds(p, 0, raw);
    RawEnds(m, i + 1, raw);
    BodyLocal(p, 0, m, i + 1, p, 0);
  }

  /** Every document is accepted, with its meaning, to its end. */
  lemma DocumentParses(x: Document)
    requires DocumentOk(x)
    ensures Parse(DocumentText(x), true) == Ok(DocumentMeaning(x), |DocumentText(x)|)
  {
    hide ParseValue, ElemText, DocText, DocOk, IsGap, IsRaw, InNumber, Meaning, Unquoted;
    var s := DocumentText(x);
    assert s[0..|s|] == s;
    match x
    case Whole(e) =>
      ElemPlaces(s, 0, 0, e);
      DocParses(s, |e.before|, e.doc);
      assert ElemMeaning(e) == Meaning(e.doc);
    case Unclosed(gap, raw) =>
      HasSplit(s, 0, gap, "\"" + raw);
      var i := |gap|;
      HasHead(s, i, "\"" + raw);
      NoSpaceQuote();
      GapThen(s, 0, gap);
      assert s[i + 1..] == raw;
      UnclosedParses(s, i, raw);
      StringValue(s, i);
      SkipsNothing(s, |s|);
  }

  lemma NoSpaceQuote()
    ensures !IsSpace('"')
  {
  }

  lemma StringValue(s: string, i: nat)
    requires i <= |s| && At(s, i) == '"' && ParseString(s, i).Ok?
    ensures ParseValue(s, i) == Ok(String(ParseString(s, i).value), ParseString(s, i).end)
  {
    NoKeyword(s, i);
    hide ParseString, Has;
  }

  lemma DocumentFound(s: string) returns (x: Document)
    requires NulFree(s) && Parse(s, true).Ok?
    ensures DocumentOk(x) && DocumentText(x) == s
  {
    hide ParseValue, ParseString, ElemText, ElemOk, IsGap, IsRaw, NulFree, Has, LiteralEnd;
    var i := Skip(s, 0);
    var r := ParseValue(s, i);
    if At(s, i) == '"' {
      StringFirst(s, i);
      var raw := LiteralFound(s, i);
      if i + 1 + |raw| == |s| {
        GapAt(s, 0);
        x := Unclosed(s[0..i], raw);
        assert s == s[0..i] + ([s[i]] + s[i + 1..]);
        return;
      }
      LiteralLength(s, i, raw);
    }
    TextEnds(s);
    NulAtEnd(s, Skip(s, r.end));
    var e := ElemFound(s, 0);
    x := Whole(e);
    WholeHas(s, ElemText(e));
  }

  lemma StringFirst(s: string, i: nat)
    requires i <= |s| && At(s, i) == '"' && ParseValue(s, i).Ok?
    ensures ParseString(s, i).Ok? && ParseString(s, i).end == ParseValue(s, i).end
  {
    NoKeyword(s, i);
    hide ParseString, Has;
  }

  lemma NulAtEnd(s: string, i: nat)
    requires NulFree(s) && i <= |s| && At(s, i) == NUL
    ensures i == |s|
  {
  }

  lemma WholeHas(s: string, text: string)
    requires Has(s, 0, text) && |text| == |s|
    ensures text == s
  {
    assert s[0..|s|] == s;
  }

  lemma LiteralLength(s: string, i: nat, raw: string)
    requires i < |s| && IsRaw(raw) && i + 1 + |raw| < |s| && Has(s, i, "\"" + (raw + "\""))
    ensures LiteralEnd(s, i + 1) < |s|
  {
    hide LiteralEnd, IsRaw;
    HasSplit(s, i, "\"", raw + "\"");
    RawEnds(s, i + 1, raw);
  }

  lemma TextEnds(s: string)
    requires Parse(s, true).Ok? && (At(s, Skip(s, 0)) == '"' ==> LiteralEnd(s, Skip(s, 0) + 1) < |s|)
    ensures Ends(s, Skip(s, 0)) && At(s, Skip(s, ParseValue(s, Skip(s, 0)).end)) == NUL
  {
    hide ParseValue, LiteralEnd;
  }

  /** The parser accepts a text if and only if it is that of a document; a document is read
      to its end, with its meaning. */
  lemma LanguageExactly(s: string)
    requires NulFree(s)
    ensures Parse(s, true).Ok? <==> exists x :: DocumentOk(x) && DocumentText(x) == s
    ensures forall x :: DocumentOk(x) && DocumentText(x) == s ==> Parse(s, true) == Ok(DocumentMeaning(x), |s|)
  {
    hide Parse, DocumentOk, DocumentText, NulFree, DocumentMeaning;
    if Parse(s, true).Ok? {
      var x := DocumentFound(s);
    }
    forall x | DocumentOk(x) && DocumentText(x) == s ensures Parse(s, true) == Ok(DocumentMeaning(x), |s|) {
      DocumentParses(x);
    }
  }
}
