/** Reading back what was written. */
module ConfigRoundTrip {
  import opened ConfigTables
  import opened ConfigTree
  import opened ConfigParser
  import opened ConfigScanner
  import opened ConfigSyntax
  import opened ConfigDepth
  import opened ConfigWriter
  import opened ConfigRebuild
  import opened Optional

  /** `config_read_string`: scanning and parsing; nothing where the scanner is not modelled. */
  function Read(text: string): Option<Outcome> {
    var tokens := Scan(text);
    if tokens.Some? then Some(Parse(tokens.value)) else None
  }

  function End(o: Options): Terminator {
    if o.semicolons then Semi else Bare
  }

  // ---------- the tokens of the text ----------

  /** The scanner finds these tokens in front of `rest`. */
  predicate Scans(text: string, tokens: seq<Token>, rest: string) {
    Scan(rest).Some? ==> Scan(text + rest) == Some(tokens + Scan(rest).value)
  }

  lemma ScansBoth(a: string, b: string, s: seq<Token>, t: seq<Token>, rest: string)
    requires Scans(a, s, b + rest) && Scans(b, t, rest)
    ensures Scans(a + b, s + t, rest)
  {
    hide Scan;
    assert (a + b) + rest == a + (b + rest);
    if Scan(rest).Some? {
      assert (s + t) + Scan(rest).value == s + (t + Scan(rest).value);
    }
  }

  lemma ScansBlank(a: string, rest: string)
    requires forall k | 0 <= k < |a| :: IsBlank(a[k])
    ensures Scans(a, [], rest)
  {
    hide Scan;
    ScanBlanks(a, rest);
    if Scan(rest).Some? {
      assert [] + Scan(rest).value == Scan(rest).value;
    }
  }

  lemma ScansPunctuation(c: char, rest: string)
    requires Punctuation(c).Some?
    ensures Scans([c], [Punctuation(c).value], rest)
  {
    hide Scan;
    ScanPunctuation(c, rest);
  }

  /** A punctuation mark with blanks before and behind it. */
  lemma ScansMark(before: string, c: char, after: string, rest: string)
    requires Punctuation(c).Some?
    requires forall k | 0 <= k < |before| :: IsBlank(before[k])
    requires forall k | 0 <= k < |after| :: IsBlank(after[k])
    ensures Scans(before + ([c] + after), [Punctuation(c).value], rest)
  {
    hide Scan, Scans, Punctuation, IsBlank;
    var t := [Punctuation(c).value];
    ScansBlank(after, rest);
    ScansPunctuation(c, after + rest);
    ScansBoth([c], after, t, [], rest);
    ScansBlank(before, ([c] + after) + rest);
    ScansBoth(before, [c] + after, [], t + [], rest);
    assert [] + (t + []) == t;
  }

  lemma {:induction false} RepeatBlank(c: char, n: nat)
    requires IsBlank(c)
    ensures forall k | 0 <= k < |Repeat(c, n)| :: IsBlank(Repeat(c, n)[k])
  {
    if n > 0 {
      RepeatBlank(c, n - 1);
    }
  }

  lemma IndentBlank(o: Options, depth: nat)
    ensures forall k | 0 <= k < |Indent(o, depth)| :: IsBlank(Indent(o, depth)[k])
  {
    if depth > 1 {
      RepeatBlank(' ', (depth - 1) * o.tab);
      RepeatBlank('\t', depth - 1);
    }
  }

  lemma ScalarScans(b: Body, o: Options, depth: nat, rest: string)
    requires ScalarBody(b) && Readable(b) && Written(b) && Delimited(rest)
    ensures Scans(ValueText(b, o, depth), ValTokens(Syntax(b, End(o))), rest)
  {
    hide Scan, Quoted, NumberText, Delimited, InWidth;
    match b
    case Flag(n) => FlagScans(n, rest);
    case Number(n, wide, format) => ScanNumber(n, wide, format, rest);
    case Words(s) =>
      ScanQuoted(s, rest);
      var parts := [s];
      assert StringTokens(parts) == [StringTok(s)] + StringTokens(parts[1..]) == [StringTok(s)];
      assert Syntax(b, End(o)) == Strings(parts);
  }

  lemma FlagScans(n: int, rest: string)
    requires Delimited(rest)
    ensures Scans(if n != 0 then "true" else "false", [BooleanTok(n != 0)], rest)
  {
    hide Scan;
    var w := if n != 0 then "true" else "false";
    assert ValidName(w);
    ScanWord(w, rest);
    assert WordToken(w) == BooleanTok(n != 0);
  }

  lemma SettingEnds(o: Options, depth: nat, rest: string)
    requires depth > 0
    ensures Delimited(SettingEnd(o, depth) + rest)
    ensures Scans(SettingEnd(o, depth), EndTokens(End(o)), rest)
  {
    hide Scan, Scans, Delimited, Punctuation, IsBlank;
    EndDelimits(o, depth, rest);
    EndMarks();
    if o.semicolons {
      ScansMark("", ';', "\n", rest);
      assert "" + ([';'] + "\n") == ";\n";
    } else {
      ScansBlank("\n", rest);
    }
  }

  lemma EndDelimits(o: Options, depth: nat, rest: string)
    requires depth > 0
    ensures Delimited(SettingEnd(o, depth) + rest)
  {
  }

  lemma EndMarks()
    ensures Punctuation(';') == Some(SemicolonTok) && IsBlank('\n')
  {
  }

  lemma SettingStarts(t: Tree, o: Options, depth: nat, rest: string)
    requires t.name.Some? && ValidName(t.name.value) && !IsBoolean(t.name.value)
    ensures Scans(SettingStart(t, o, depth), [NameTok(t.name.value), EqualsTok], rest)
  {
    hide Scan, Indent, ValidName, Scans, IsBoolean, Punctuation;
    var w := t.name.value;
    var c := if (if t.body.GroupOf? then o.colonGroups else o.colonOthers) then ':' else '=';
    var mark := " " + ([c] + " ");
    Assigns(c);
    ScansMark(" ", c, " ", rest);
    NameScans(w, mark + rest);
    ScansBoth(w, mark, [NameTok(w)], [EqualsTok], rest);
    IndentBlank(o, depth);
    ScansBlank(Indent(o, depth), (w + mark) + rest);
    ScansBoth(Indent(o, depth), w + mark, [], [NameTok(w)] + [EqualsTok], rest);
    assert [] + ([NameTok(w)] + [EqualsTok]) == [NameTok(w), EqualsTok];
    assert SettingStart(t, o, depth) == Indent(o, depth) + (w + mark);
  }

  lemma Assigns(c: char)
    requires c == ':' || c == '='
    ensures Punctuation(c) == Some(EqualsTok)
  {
  }

  lemma NameScans(w: string, rest: string)
    requires ValidName(w) && !IsBoolean(w) && Delimited(rest)
    ensures Scans(w, [NameTok(w)], rest)
  {
    hide Scan, ValidName, IsTrue, IsFalse;
    ScanWord(w, rest);
  }

  lemma GroupScans(o: Options, depth: nat, inner: seq<Token>, text: string, rest: string)
    requires depth > 0 && Scans(text, inner, GroupEnd(o, depth) + rest)
    ensures Scans(GroupStart(o, depth) + (text + GroupEnd(o, depth)), [GroupStartTok] + (inner + [GroupEndTok]), rest)
  {
    hide Scan, Scans, Indent, Punctuation;
    Braces();
    IndentBlank(o, depth);
    var before := if o.braceLine then "\n" + Indent(o, depth) else "";
    ScansMark(Indent(o, depth), '}', "", rest);
    assert Indent(o, depth) + (['}'] + "") == GroupEnd(o, depth);
    ScansBoth(text, GroupEnd(o, depth), inner, [GroupEndTok], rest);
    BraceLineBlank(o, depth, before);
    ScansMark(before, '{', "\n", (text + GroupEnd(o, depth)) + rest);
    assert before + (['{'] + "\n") == GroupStart(o, depth);
    ScansBoth(GroupStart(o, depth), text + GroupEnd(o, depth), [GroupStartTok], inner + [GroupEndTok], rest);
  }

  lemma Braces()
    ensures Punctuation('{') == Some(GroupStartTok) && Punctuation('}') == Some(GroupEndTok)
    ensures Punctuation('[') == Some(ArrayStartTok) && Punctuation(']') == Some(ArrayEndTok)
    ensures Punctuation('(') == Some(ListStartTok) && Punctuation(')') == Some(ListEndTok)
    ensures Punctuation(',') == Some(CommaTok)
  {
  }

  lemma BraceLineBlank(o: Options, depth: nat, before: string)
    requires before == if o.braceLine then "\n" + Indent(o, depth) else ""
    ensures forall k | 0 <= k < |before| :: IsBlank(before[k])
  {
    hide Indent;
    IndentBlank(o, depth);
    forall k | 0 <= k < |before| ensures IsBlank(before[k]) {
      if k > 0 {
        assert before[k] == Indent(o, depth)[k - 1];
      }
    }
  }

  lemma BracketScans(start: char, end: char, inner: seq<Token>, text: string, rest: string)
    requires (start == '[' && end == ']') || (start == '(' && end == ')')
    requires Scans(text, inner, [end] + rest)
    ensures Scans([start] + " " + (text + [end]), [Punctuation(start).value] + (inner + [Punctuation(end).value]), rest)
  {
    hide Scan, Scans, Punctuation;
    Braces();
    ScansPunctuation(end, rest);
    ScansBoth(text, [end], inner, [Punctuation(end).value], rest);
    ScansMark("", start, " ", (text + [end]) + rest);
    assert "" + ([start] + " ") == [start] + " ";
    ScansBoth([start] + " ", text + [end], [Punctuation(start).value], inner + [Punctuation(end).value], rest);
  }

  /** The scanner finds in the text of a value the tokens of its syntax. */
  lemma {:induction false} ValueScans(b: Body, o: Options, depth: nat, rest: string)
    requires Readable(b) && Written(b) && Delimited(rest) && depth > 0
    ensures Scans(ValueText(b, o, depth), ValTokens(Syntax(b, End(o))), rest)
    decreases b, 2
  {
    hide Scan, Scans, ItemsText, SettingsText, ItemTokens, FieldsTokens, ItemsSyntax, FieldsSyntax, GroupStart, GroupEnd, Punctuation, Delimited;
    Braces();
    if ScalarBody(b) {
      ScalarScans(b, o, depth, rest);
    } else if b.GroupOf? {
      FieldsScan(b.items, o, depth + 1, GroupEnd(o, depth) + rest);
      GroupScans(o, depth, FieldsTokens(FieldsSyntax(b.items, End(o))), SettingsText(b.items, o, depth + 1), rest);
    } else {
      var start, end := if b.ArrayOf? then '[' else '(', if b.ArrayOf? then ']' else ')';
      ItemsScan(b.items, o, depth, [end] + rest);
      BracketScans(start, end, ItemTokens(ItemsSyntax(b.items, End(o))), ItemsText(b.items, o, depth), rest);
      assert [start] + " " == if b.ArrayOf? then "[ " else "( ";
    }
  }

  lemma ItemSeparator(more: bool, rest: string)
    ensures var text := if more then ", " else " ";
            Delimited(text + rest) && Scans(text, if more then [CommaTok] else [], rest)
  {
    hide Scan;
    Braces();
    if more {
      ScansMark("", ',', " ", rest);
      assert "" + ([','] + " ") == ", ";
    } else {
      ScansBlank(" ", rest);
    }
  }

  lemma ItemTokensStep(items: seq<Tree>, end: Terminator)
    requires |items| > 0
    ensures ItemTokens(ItemsSyntax(items, end)) ==
      ValTokens(Syntax(items[0].body, end)) + ((if |items| > 1 then [CommaTok] else []) + ItemTokens(ItemsSyntax(items[1..], end)))
  {
    hide ValTokens, Syntax;
    var all := ItemsSyntax(items, end);
    assert all[0] == Syntax(items[0].body, end) && all[1..] == ItemsSyntax(items[1..], end);
  }

  lemma {:induction false} ItemsScan(items: seq<Tree>, o: Options, depth: nat, rest: string)
    requires AllReadable(items) && AllWritten(items)
    ensures Scans(ItemsText(items, o, depth), ItemTokens(ItemsSyntax(items, End(o))), rest)
    decreases items, 1
  {
    hide Scan, Scans, ValueText, ValTokens, Syntax, ItemsSyntax, ItemTokens, Readable, Written, Delimited;
    if |items| == 0 {
      NoItemsScan(items, o, depth, rest);
    } else {
      var b := items[0].body;
      assert b < items[0];
      var separator := if |items| > 1 then ", " else " ";
      var more := ItemsText(items[1..], o, depth);
      var tail := separator + more;
      ItemsScan(items[1..], o, depth, rest);
      ItemSeparator(|items| > 1, more + rest);
      var commas := if |items| > 1 then [CommaTok] else [];
      var tokens := ItemTokens(ItemsSyntax(items[1..], End(o)));
      ScansBoth(separator, more, commas, tokens, rest);
      assert tail + rest == separator + (more + rest);
      ValueScans(b, o, depth + 1, tail + rest);
      ScansBoth(ValueText(b, o, depth + 1), tail, ValTokens(Syntax(b, End(o))), commas + tokens, rest);
      ItemTokensStep(items, End(o));
    }
  }

  lemma NoItemsScan(items: seq<Tree>, o: Options, depth: nat, rest: string)
    requires |items| == 0
    ensures Scans(ItemsText(items, o, depth), ItemTokens(ItemsSyntax(items, End(o))), rest)
    ensures Scans(SettingsText(items, o, depth), FieldsTokens(FieldsSyntax(items, End(o))), rest)
  {
    hide Scan;
    ScansBlank("", rest);
  }

  lemma {:induction false} FieldTokensStep(items: seq<Tree>, end: Terminator)
    requires |items| > 0 && items[0].name.Some?
    ensures FieldsTokens(FieldsSyntax(items, end)) ==
      ([NameTok(items[0].name.value), EqualsTok] + (ValTokens(Syntax(items[0].body, end)) + EndTokens(end)))
      + FieldsTokens(FieldsSyntax(items[1..], end))
  {
    hide ValTokens, Syntax, EndTokens;
    var all := FieldsSyntax(items, end);
    var f := Field(items[0].name.value, Syntax(items[0].body, end), end);
    assert all[0] == f && all[1..] == FieldsSyntax(items[1..], end);
    var tail := ValTokens(f.value) + EndTokens(end);
    assert FieldTokens(f) == [NameTok(f.name)] + ([EqualsTok] + tail);
    assert [NameTok(f.name)] + ([EqualsTok] + tail) == [NameTok(f.name), EqualsTok] + tail;
  }

  lemma {:induction false} FieldsScan(items: seq<Tree>, o: Options, depth: nat, rest: string)
    requires AllReadable(items) && AllWritten(items) && Names(items) && depth > 0
    ensures Scans(SettingsText(items, o, depth), FieldsTokens(FieldsSyntax(items, End(o))), rest)
    decreases items, 1
  {
    hide Scan, Scans, ValueText, ValTokens, Syntax, FieldsSyntax, FieldsTokens, Readable, Written, Delimited, SettingStart, SettingEnd, EndTokens, ValidName, IsBoolean;
    if |items| == 0 {
      NoItemsScan(items, o, depth, rest);
    } else {
      var t := items[0];
      assert t.body < t;
      var more := SettingsText(items[1..], o, depth);
      var tokens := FieldsTokens(FieldsSyntax(items[1..], End(o)));
      FieldsScan(items[1..], o, depth, rest);
      var end := SettingEnd(o, depth);
      var value := ValueText(t.body, o, depth);
      var val := ValTokens(Syntax(t.body, End(o)));
      SettingEnds(o, depth, more + rest);
      ValueScans(t.body, o, depth, end + (more + rest));
      ScansBoth(value, end, val, EndTokens(End(o)), more + rest);
      SettingStarts(t, o, depth, (value + end) + (more + rest));
      ScansBoth(SettingStart(t, o, depth), value + end, [NameTok(t.name.value), EqualsTok], val + EndTokens(End(o)), more + rest);
      ScansBoth(SettingText(t, o, depth), more, [NameTok(t.name.value), EqualsTok] + (val + EndTokens(End(o))), tokens, rest);
      FieldTokensStep(items, End(o));
    }
  }

  // ---------- room on the stack ----------

  /** How far reading a body makes the parser's stack grow. */
  function StackPeak(b: Body): (r: nat)
    ensures r > 0
    decreases b, 0
  {
    match b
    case ArrayOf(items) => Larger(4, 2 + ItemsPeak(items, true))
    case ListOf(items) => Larger(4, 2 + ItemsPeak(items, true))
    case GroupOf(items) => Larger(4, 2 + SettingsPeak(items, true))
    case _ => 1
  }

  function ItemsPeak(items: seq<Tree>, first: bool): nat
    decreases items, 0
  {
    if |items| == 0 then 0
    else
      assert items[0].body < items[0];
      Larger((if first then 0 else 2) + StackPeak(items[0].body), ItemsPeak(items[1..], false))
  }

  function SettingsPeak(items: seq<Tree>, first: bool): nat
    decreases items, 0
  {
    if |items| == 0 then 0
    else
      assert items[0].body < items[0];
      Larger((if first then 0 else 1) + Larger(5, 3 + StackPeak(items[0].body)), SettingsPeak(items[1..], false))
  }

  /** The settings of a root for which the parser's stack is high enough. */
  predicate Shallow(items: seq<Tree>) {
    1 + SettingsPeak(items, true) < YYMAXDEPTH
  }

  lemma {:induction false} PeakIs(b: Body, end: Terminator)
    requires Readable(b)
    ensures Formed(Syntax(b, end)) && Peak(Syntax(b, end)) == StackPeak(b)
    decreases b, 2
  {
    hide AllReadable, ItemsSyntax, FieldsSyntax, Names;
    match b
    case ArrayOf(items) =>
      SimpleItems(items, end);
      ItemsPeakIs(items, end, true);
    case ListOf(items) => ItemsPeakIs(items, end, true);
    case GroupOf(items) => SettingsPeakIs(items, end, true);
    case _ =>
  }

  lemma {:induction false} SimpleItems(items: seq<Tree>, end: Terminator)
    requires forall k | 0 <= k < |items| :: ScalarBody(items[k].body)
    ensures forall k | 0 <= k < |items| :: Simple(ItemsSyntax(items, end)[k])
    decreases items
  {
    if |items| > 0 {
      SimpleItems(items[1..], end);
      var all, more := ItemsSyntax(items, end), ItemsSyntax(items[1..], end);
      assert all == [Syntax(items[0].body, end)] + more;
    }
  }

  lemma {:induction false} ItemsPeakIs(items: seq<Tree>, end: Terminator, first: bool)
    requires AllReadable(items)
    ensures forall k | 0 <= k < |items| :: Formed(ItemsSyntax(items, end)[k])
    ensures ElementsPeak(ItemsSyntax(items, end), first) == ItemsPeak(items, first)
    decreases items, 1
  {
    hide Readable, Formed, Syntax, Peak, StackPeak;
    if |items| > 0 {
      assert items[0].body < items[0];
      PeakIs(items[0].body, end);
      ItemsPeakIs(items[1..], end, false);
      var all, more := ItemsSyntax(items, end), ItemsSyntax(items[1..], end);
      assert all == [Syntax(items[0].body, end)] + more && all[1..] == more;
    }
  }

  lemma {:induction false} SettingsPeakIs(items: seq<Tree>, end: Terminator, first: bool)
    requires AllReadable(items)
    ensures AllFormed(FieldsSyntax(items, end))
    ensures FieldsPeak(FieldsSyntax(items, end), first) == SettingsPeak(items, first)
    decreases items, 1
  {
    hide Readable, Formed, Syntax, Peak, StackPeak;
    if |items| > 0 {
      assert items[0].body < items[0];
      PeakIs(items[0].body, end);
      SettingsPeakIs(items[1..], end, false);
      var all, more := FieldsSyntax(items, end), FieldsSyntax(items[1..], end);
      assert all[0].value == Syntax(items[0].body, end) && all[1..] == more;
      forall k | 0 <= k < |items| ensures Formed(all[k].value) {
        assert k > 0 ==> all[k] == more[k - 1];
      }
    }
  }

  // ---------- nesting ----------

  /** How deep arrays, lists and groups are nested. */
  function Nesting(b: Body): nat
    decreases b
  {
    match b
    case ArrayOf(items) => 1 + MaxNesting(items)
    case ListOf(items) => 1 + MaxNesting(items)
    case GroupOf(items) => 1 + MaxNesting(items)
    case _ => 0
  }

  function MaxNesting(items: seq<Tree>): nat
    decreases items
  {
    if |items| == 0 then 0
    else
      assert items[0].body < items[0];
      Larger(Nesting(items[0].body), MaxNesting(items[1..]))
  }

  /** Up to this nesting below the root the stack is always high enough. */
  const MAXNESTING := 1665

  lemma NestingFits(items: seq<Tree>)
    requires MaxNesting(items) <= MAXNESTING
    ensures Shallow(items)
  {
    ItemsNesting(items, true);
  }

  lemma {:induction false} BodyNesting(b: Body)
    ensures StackPeak(b) <= 2 + 6 * Nesting(b)
    decreases b, 2
  {
    match b
    case ArrayOf(items) => ItemsNesting(items, true);
    case ListOf(items) => ItemsNesting(items, true);
    case GroupOf(items) => ItemsNesting(items, true);
    case _ =>
  }

  lemma {:induction false} ItemsNesting(items: seq<Tree>, first: bool)
    ensures ItemsPeak(items, first) <= 6 + 6 * MaxNesting(items)
    ensures SettingsPeak(items, first) <= 6 + 6 * MaxNesting(items)
    decreases items, 1
  {
    hide StackPeak, Nesting;
    if |items| > 0 {
      assert items[0].body < items[0];
      BodyNesting(items[0].body);
      ItemsNesting(items[1..], false);
    }
  }

  // ---------- the round trip ----------

  /** The written text of a whole configuration: its settings, one after the other. */
  lemma RootText(t: Tree, o: Options)
    requires t.name.None? && t.body.GroupOf? && Written(t.body)
    ensures SettingText(t, o, 0) == SettingsText(t.body.items, o, 1)
  {
    hide SettingsText;
    assert GroupStart(o, 0) == "" && GroupEnd(o, 0) == "" && SettingStart(t, o, 0) == "" && SettingEnd(o, 0) == "";
  }

  lemma TextTokens(items: seq<Tree>, o: Options)
    requires AllReadable(items) && AllWritten(items) && Names(items)
    ensures Scan(SettingsText(items, o, 1)) == Some(FieldsTokens(FieldsSyntax(items, End(o))))
  {
    hide Scan, AllReadable, AllWritten, Names, SettingsText, FieldsTokens, FieldsSyntax;
    FieldsScan(items, o, 1, "");
    NothingScans();
    var text := SettingsText(items, o, 1);
    assert text + "" == text;
    assert FieldsTokens(FieldsSyntax(items, End(o))) + [] == FieldsTokens(FieldsSyntax(items, End(o)));
  }

  lemma NothingScans()
    ensures Scan("") == Some([])
  {
  }

  /** The actions on the syntax of the root's settings rebuild them. */
  lemma RootMeans(items: seq<Tree>, end: Terminator)
    requires AllReadable(items) && Names(items)
    ensures var done := DoFields(FieldsSyntax(items, end), START.ctx);
            done.Next? && InRange(done.ctx) && Content(done.ctx.config, DefaultFormat, 0) == Tree(None, GroupOf(items))
  {
    hide AllReadable, FieldsSyntax, DoFields, Names;
    var ctx := START.ctx;
    assert Inside(ctx, 0, GroupT) && |ctx.config[0].elements| == 0;
    OpenedApart(ctx, 0, items);
    FieldsMean(items, end, ctx, 0);
  }

  /** Reading what was written for `t` gives a configuration with the contents `t`. */
  predicate ReadsBack(t: Tree, o: Options)
    requires Written(t.body)
  {
    var r := Read(SettingText(t, o, 0));
    r.Some? && r.value.Accepted? && Linked(r.value.ctx.config) && Content(r.value.ctx.config, DefaultFormat, 0) == t
  }

  /** Writing a configuration and reading the text back gives a configuration with
      the same contents: the same nesting, order, names, values and number formats.
      It holds for every tree that the grammar can express and the stack can hold. */
  lemma ReadBack(t: Tree, o: Options)
    requires t.name.None? && t.body.GroupOf? && Written(t.body)
    requires Readable(t.body) && Shallow(t.body.items)
    ensures ReadsBack(t, o)
  {
    hide Scan, AllReadable, AllWritten, Names, SettingText, SettingsText, FieldsTokens, FieldsSyntax, Content, Parse, DoFields, AllFormed, FieldsPeak, SettingsPeak;
    var items := t.body.items;
    RootText(t, o);
    TextTokens(items, o);
    SettingsPeakIs(items, End(o), true);
    ParseRuns(FieldsSyntax(items, End(o)));
    RootMeans(items, End(o));
    assert t == Tree(None, GroupOf(items));
  }

  /** What the stack cannot hold is not read back. */
  lemma TooDeep(t: Tree, o: Options)
    requires t.name.None? && t.body.GroupOf? && Written(t.body)
    requires Readable(t.body) && !Shallow(t.body.items)
    ensures var r := Read(SettingText(t, o, 0)); r.Some? && !r.value.Accepted?
  {
    hide Scan, AllReadable, AllWritten, Names, SettingText, SettingsText, FieldsTokens, FieldsSyntax, Parse, DoFields, AllFormed, FieldsPeak, SettingsPeak;
    var items := t.body.items;
    RootText(t, o);
    TextTokens(items, o);
    SettingsPeakIs(items, End(o), true);
    ParseExactly(FieldsSyntax(items, End(o)));
  }
}
