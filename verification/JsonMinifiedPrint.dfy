/** Minifying the formatted print gives the unformatted one. */
module JsonMinifiedPrint {
  import opened JsonText
  import opened JsonNumber
  import opened JsonString
  import opened JsonParser
  import opened JsonPrinter
  import opened JsonRoundTrip
  import opened JsonMinify

  /** The text from `i` to `j` leaves `text`. */
  predicate Leaves(s: string, i: nat, j: nat, text: string) {
    Closed(s, j) ==> Closed(s, i) && Minified(s, i) == text + Minified(s, j)
  }

  lemma Chain(s: string, i: nat, j: nat, k: nat, a: string, b: string)
    requires Leaves(s, i, j, a) && Leaves(s, j, k, b)
    ensures Leaves(s, i, k, a + b)
  {
    hide Closed, Minified;
    if Closed(s, k) {
      assert a + (b + Minified(s, k)) == (a + b) + Minified(s, k);
    }
  }

  lemma Stay(s: string, i: nat)
    ensures Leaves(s, i, i, "")
  {
    if Closed(s, i) {
      assert "" + Minified(s, i) == Minified(s, i);
    }
  }

  lemma Solo(s: string, i: nat, c: char)
    requires Has(s, i, [c]) && Solid(c)
    ensures Leaves(s, i, i + 1, [c])
  {
    HasHead(s, i, [c]);
  }

  lemma Drop(s: string, i: nat, c: char)
    requires Has(s, i, [c]) && Blank(c)
    ensures Leaves(s, i, i + 1, "")
  {
    HasHead(s, i, [c]);
  }

  lemma {:induction false} SolidRun(s: string, i: nat, p: string)
    requires Has(s, i, p)
    requires forall k | 0 <= k < |p| :: Solid(p[k])
    ensures Leaves(s, i, i + |p|, p)
    decreases p
  {
    hide Leaves, Has;
    if |p| == 0 {
      Stay(s, i);
      assert p == "";
    } else {
      assert p == [p[0]] + p[1..];
      HasSplit(s, i, [p[0]], p[1..]);
      Solo(s, i, p[0]);
      SolidRun(s, i + 1, p[1..]);
      Chain(s, i, i + 1, i + |p|, [p[0]], p[1..]);
    }
  }

  lemma {:induction false} BlankRun(s: string, i: nat, p: string)
    requires Has(s, i, p)
    requires forall k | 0 <= k < |p| :: Blank(p[k])
    ensures Leaves(s, i, i + |p|, "")
    decreases p
  {
    hide Leaves, Has;
    if |p| == 0 {
      Stay(s, i);
    } else {
      assert p == [p[0]] + p[1..];
      HasSplit(s, i, [p[0]], p[1..]);
      Drop(s, i, p[0]);
      BlankRun(s, i + 1, p[1..]);
      Chain(s, i, i + 1, i + |p|, "", "");
      assert "" + "" == "";
    }
  }

  lemma {:induction false} EscapedLiteral(s: string, i: nat, str: string)
    requires IsCString(str) && Has(s, i, Escape(str)) && At(s, i + |Escape(str)|) == '"'
    ensures LiteralEnd(s, i) == i + |Escape(str)|
    decreases str
  {
    hide EscapeChar, LiteralEnd, Has;
    if |str| == 0 {
      LiteralStays(s, i);
    } else {
      HasSplit(s, i, EscapeChar(str[0]), Escape(str[1..]));
      EscapedLiteral(s, i + |EscapeChar(str[0])|, str[1..]);
      EscapedCharacter(s, i, str[0]);
    }
  }

  lemma EscapedCharacter(s: string, i: nat, c: char)
    requires 0 < c as int < 256 && Has(s, i, EscapeChar(c))
    ensures LiteralEnd(s, i) == LiteralEnd(s, i + |EscapeChar(c)|)
  {
    var e := EscapeChar(c);
    HasHead(s, i, e);
    if |e| > 1 {
      HasHead(s, i + 1, e[1..]);
    }
    if |e| == 6 {
      HexRun(s, i, e);
    }
  }

  /** The digits of a `\u` escape are no quotes and no backslashes. */
  lemma HexRun(s: string, i: nat, e: string)
    requires Has(s, i, e) && |e| == 6 && e[0] == '\\' && IsHex(e[2]) && IsHex(e[3]) && IsHex(e[4]) && IsHex(e[5])
    ensures LiteralEnd(s, i) == LiteralEnd(s, i + 6)
  {
    HasHead(s, i, e);
    assert s[i..i + 6] == e;
    assert s[i + 2] == e[2] && s[i + 3] == e[3] && s[i + 4] == e[4] && s[i + 5] == e[5];
    assert LiteralEnd(s, i) == LiteralEnd(s, i + 2);
    assert LiteralEnd(s, i + 2) == LiteralEnd(s, i + 3);
    assert LiteralEnd(s, i + 3) == LiteralEnd(s, i + 4);
    assert LiteralEnd(s, i + 4) == LiteralEnd(s, i + 5);
  }

  lemma QuotedRun(s: string, i: nat, str: string)
    requires IsCString(str) && Has(s, i, Quote(str))
    ensures Leaves(s, i, i + |Quote(str)|, Quote(str))
  {
    hide Escape, LiteralEnd;
    HasSplit(s, i, "\"" + Escape(str), "\"");
    HasSplit(s, i, "\"", Escape(str));
    HasHead(s, i, "\"");
    HasHead(s, i + 1 + |Escape(str)|, "\"");
    EscapedLiteral(s, i + 1, str);
    assert Piece(s, i) == (true, i + |Quote(str)|);
    assert s[i..i + |Quote(str)|] == Quote(str);
  }

  lemma PrintedInt(n: int)
    ensures forall k | 0 <= k < |PrintInt(n)| :: Solid(PrintInt(n)[k])
  {
    DigitsAreDigits(if n < 0 then -n else n);
  }

  lemma {:induction false} TabsBlank(n: int)
    ensures forall k | 0 <= k < |Tabs(n)| :: Blank(Tabs(n)[k])
    decreases n
  {
    if n > 0 {
      TabsBlank(n - 1);
    }
  }

  /** A rendered value, wherever it stands and however it was formatted, leaves its unformatted rendering. */
  lemma {:induction false} PrintedValue(s: string, i: nat, t: Json, depth: nat, fmt: bool, flat: nat)
    requires Printable(t) && Has(s, i, PrintValue(t, depth, fmt))
    ensures Leaves(s, i, i + |PrintValue(t, depth, fmt)|, PrintValue(t, flat, false))
    decreases t, 1
  {
    hide PrintItems, PrintMembers, Quote, PrintInt, Has, Leaves, Tabs;
    match t
    case Null => SolidRun(s, i, "null");
    case False => SolidRun(s, i, "false");
    case True => SolidRun(s, i, "true");
    case Number(n, _) => PrintedInt(n); SolidRun(s, i, PrintInt(n));
    case String(text) => QuotedRun(s, i, text);
    case Array(items) => PrintedArray(s, i, t, depth, fmt, flat);
    case Object(members) => PrintedObject(s, i, t, depth, fmt, flat);
  }

  lemma PrintedArray(s: string, i: nat, t: Json, depth: nat, fmt: bool, flat: nat)
    requires t.Array? && Printable(t) && Has(s, i, PrintValue(t, depth, fmt))
    ensures Leaves(s, i, i + |PrintValue(t, depth, fmt)|, PrintValue(t, flat, false))
    decreases t, 0
  {
    hide PrintItems, Has, Leaves;
    var body, flatBody := PrintItems(t.items, depth + 1, fmt), PrintItems(t.items, flat + 1, false);
    var close := i + 1 + |body|;
    HasSplit(s, i, ['['] + body, [']']);
    HasSplit(s, i, ['['], body);
    Solo(s, i, '[');
    PrintedItems(s, i + 1, t.items, depth + 1, fmt, flat + 1);
    Chain(s, i, i + 1, close, ['['], flatBody);
    Solo(s, close, ']');
    Chain(s, i, close, close + 1, ['['] + flatBody, [']']);
  }

  lemma {:induction false} PrintedItems(s: string, p: nat, items: seq<Json>, depth: nat, fmt: bool, flat: nat)
    requires AllPrintable(items) && Has(s, p, PrintItems(items, depth, fmt))
    ensures Leaves(s, p, p + |PrintItems(items, depth, fmt)|, PrintItems(items, flat, false))
    decreases items
  {
    hide PrintValue, Has, Leaves, Separator;
    if |items| == 0 {
      Stay(s, p);
    } else {
      var more := |items| > 1;
      var one, sep, rest := PrintValue(items[0], depth, fmt), Separator(more, fmt), PrintItems(items[1..], depth, fmt);
      HasSplit(s, p, one + sep, rest);
      HasSplit(s, p, one, sep);
      var w := p + |one|;
      PrintedValue(s, p, items[0], depth, fmt, flat);
      PrintedSeparator(s, w, more, fmt);
      PrintedItems(s, w + |sep|, items[1..], depth, fmt, flat);
      Chain(s, p, w, w + |sep|, PrintValue(items[0], flat, false), Separator(more, false));
      Chain(s, p, w + |sep|, w + |sep| + |rest|, PrintValue(items[0], flat, false) + Separator(more, false), PrintItems(items[1..], flat, false));
    }
  }

  lemma PrintedSeparator(s: string, w: nat, more: bool, fmt: bool)
    requires Has(s, w, Separator(more, fmt))
    ensures Leaves(s, w, w + |Separator(more, fmt)|, Separator(more, false))
  {
    hide Has, Leaves;
    if more {
      HasSplit(s, w, [','], Fmt(fmt, " "));
      Solo(s, w, ',');
      BlankRun(s, w + 1, Fmt(fmt, " "));
      Chain(s, w, w + 1, w + |Separator(more, fmt)|, [','], Fmt(false, " "));
    } else {
      Stay(s, w);
    }
  }

  lemma PrintedObject(s: string, i: nat, t: Json, depth: nat, fmt: bool, flat: nat)
    requires t.Object? && Printable(t) && Has(s, i, PrintValue(t, depth, fmt))
    ensures Leaves(s, i, i + |PrintValue(t, depth, fmt)|, PrintValue(t, flat, false))
    decreases t, 0
  {
    hide PrintMembers, PrintValue, Has, Leaves, Tabs;
    var line, body := Fmt(fmt, ['\n']), PrintMembers(t.members, depth + 1, fmt);
    var indent := Fmt(fmt, Tabs(if |t.members| == 0 then depth - 1 else depth));
    var flatBody := PrintMembers(t.members, flat + 1, false);
    ObjectPieces(t, depth, fmt);
    ObjectPieces(t, flat, false);
    var m := i + 1 + |line|;
    var x := m + |body|;
    var close := x + |indent|;
    HasSplit(s, i, ['{'] + line + body + indent, ['}']);
    HasSplit(s, i, ['{'] + line + body, indent);
    HasSplit(s, i, ['{'] + line, body);
    HasSplit(s, i, ['{'], line);
    Solo(s, i, '{');
    BlankRun(s, i + 1, line);
    Chain(s, i, i + 1, m, ['{'], "");
    PrintedMembers(s, m, t.members, depth + 1, fmt, flat + 1);
    Chain(s, i, m, x, ['{'] + "", flatBody);
    TabsBlank(if |t.members| == 0 then depth - 1 else depth);
    BlankRun(s, x, indent);
    Chain(s, i, x, close, ['{'] + "" + flatBody, "");
    Solo(s, close, '}');
    Chain(s, i, close, close + 1, ['{'] + "" + flatBody + "", ['}']);
  }

  lemma ObjectPieces(t: Json, depth: nat, fmt: bool)
    requires t.Object? && Printable(t)
    ensures PrintValue(t, depth, fmt) ==
            ['{'] + Fmt(fmt, ['\n']) + PrintMembers(t.members, depth + 1, fmt)
            + Fmt(fmt, Tabs(if |t.members| == 0 then depth - 1 else depth)) + ['}']
  {
    hide PrintMembers, Tabs;
    NoMembersText(t.members, depth + 1, fmt);
  }

  lemma MembersText(members: seq<Member>, depth: nat, fmt: bool)
    requires MembersPrintable(members) && |members| > 0
    ensures PrintMembers(members, depth, fmt) ==
            PrintMember(members[0], depth, fmt) + (if |members| > 1 then [','] else "") + Fmt(fmt, ['\n'])
            + PrintMembers(members[1..], depth, fmt)
  {
    hide PrintMember;
  }

  lemma {:induction false} PrintedMembers(s: string, q: nat, members: seq<Member>, depth: nat, fmt: bool, flat: nat)
    requires MembersPrintable(members) && Has(s, q, PrintMembers(members, depth, fmt))
    ensures Leaves(s, q, q + |PrintMembers(members, depth, fmt)|, PrintMembers(members, flat, false))
    decreases members
  {
    hide PrintMember, PrintMembers, Has, Leaves;
    if |members| == 0 {
      NoMembersText(members, depth, fmt);
      NoMembersText(members, flat, false);
      Stay(s, q);
    } else {
      MembersText(members, depth, fmt);
      MembersText(members, flat, false);
      var one, comma, line := PrintMember(members[0], depth, fmt), if |members| > 1 then [','] else "", Fmt(fmt, ['\n']);
      var rest, flatOne := PrintMembers(members[1..], depth, fmt), PrintMember(members[0], flat, false);
      HasSplit(s, q, one + comma + line, rest);
      HasSplit(s, q, one + comma, line);
      HasSplit(s, q, one, comma);
      var w := q + |one|;
      var l := w + |comma|;
      PrintedMember(s, q, members[0], depth, fmt, flat);
      PrintedComma(s, w, comma);
      BlankRun(s, l, line);
      PrintedMembers(s, l + |line|, members[1..], depth, fmt, flat);
      Chain(s, q, w, l, flatOne, comma);
      Chain(s, q, l, l + |line|, flatOne + comma, Fmt(false, ['\n']));
      Chain(s, q, l + |line|, l + |line| + |rest|, flatOne + comma + Fmt(false, ['\n']), PrintMembers(members[1..], flat, false));
    }
  }

  lemma PrintedComma(s: string, w: nat, comma: string)
    requires Has(s, w, comma) && (comma == [','] || comma == "")
    ensures Leaves(s, w, w + |comma|, comma)
  {
    SolidRun(s, w, comma);
  }

  lemma PrintedMember(s: string, q: nat, m: Member, depth: nat, fmt: bool, flat: nat)
    requires IsCString(m.name) && Printable(m.value) && Has(s, q, PrintMember(m, depth, fmt))
    ensures Leaves(s, q, q + |PrintMember(m, depth, fmt)|, PrintMember(m, flat, false))
    decreases m, 0
  {
    hide PrintValue, Has, Leaves, Tabs, Quote;
    MemberPieces(s, q, m, depth, fmt);
    var tabs, gap := Fmt(fmt, Tabs(depth)), Fmt(fmt, ['\t']);
    var n := q + |tabs|;
    var c := n + |Quote(m.name)|;
    var v := c + 1 + |gap|;
    var text := Fmt(false, Tabs(flat));
    TabsBlank(depth);
    BlankRun(s, q, tabs);
    QuotedRun(s, n, m.name);
    Chain(s, q, n, c, text, Quote(m.name));
    Solo(s, c, ':');
    Chain(s, q, c, c + 1, text + Quote(m.name), [':']);
    BlankRun(s, c + 1, gap);
    Chain(s, q, c + 1, v, text + Quote(m.name) + [':'], Fmt(false, ['\t']));
    PrintedValue(s, v, m.value, depth, fmt, flat);
    Chain(s, q, v, v + |PrintValue(m.value, depth, fmt)|, text + Quote(m.name) + [':'] + Fmt(false, ['\t']), PrintValue(m.value, flat, false));
  }

  /** Minifying the formatted print of any printable tree gives the unformatted
      print, and leaves the unformatted print as it is. */
  lemma MinifiedPrint(t: Json, fmt: bool)
    requires Printable(t)
    ensures Closed(PrintValue(t, 0, fmt), 0)
    ensures Minified(PrintValue(t, 0, fmt), 0) == PrintValue(t, 0, false)
  {
    hide PrintValue;
    var s := PrintValue(t, 0, fmt);
    assert s[0..|s|] == s;
    PrintedValue(s, 0, t, 0, fmt, 0);
    assert PrintValue(t, 0, false) + "" == PrintValue(t, 0, false);
  }
}
