/** Parsing what either printer wrote gives back the tree and consumes the whole text. */
module JsonRoundTrip {
  import opened JsonText
  import opened JsonNumber
  import opened JsonString
  import opened JsonParser
  import opened JsonPrinter

  /** The first character of a rendered value tells its kind, and is neither white space nor a closing bracket. */
  lemma ValueStart(t: Json, depth: nat, fmt: bool)
    requires Printable(t)
    ensures |PrintValue(t, depth, fmt)| > 0
    ensures !IsSpace(PrintValue(t, depth, fmt)[0]) && PrintValue(t, depth, fmt)[0] !in ",]}"
  {
  }

  lemma QuoteStart(str: string)
    requires IsCString(str)
    ensures |Quote(str)| > 0 && Quote(str)[0] == '"'
  {
  }

  lemma Prefix(s: string, i: nat, p: string)
    requires Has(s, i, p) && |p| >= 4
    ensures i + 3 < |s| && s[i] == p[0] && s[i + 1] == p[1] && s[i + 2] == p[2] && s[i + 3] == p[3]
  {
    var w := s[i..i + |p|];
    assert w[0] == p[0] && w[1] == p[1] && w[2] == p[2] && w[3] == p[3];
  }

  /** The three keywords start differently from each other and from every other value. */
  lemma NoKeyword(s: string, i: nat)
    ensures Has(s, i, "null") ==> At(s, i) == 'n'
    ensures Has(s, i, "false") ==> At(s, i) == 'f'
    ensures Has(s, i, "true") ==> At(s, i) == 't'
  {
    if Has(s, i, "null") { Prefix(s, i, "null"); }
    if Has(s, i, "false") { Prefix(s, i, "false"); }
    if Has(s, i, "true") { Prefix(s, i, "true"); }
  }

  lemma {:induction false} SkipTabs(s: string, i: nat, n: int)
    requires Has(s, i, Tabs(n))
    ensures i + |Tabs(n)| <= |s| && Skip(s, i) == Skip(s, i + |Tabs(n)|)
    decreases n
  {
    if n > 0 {
      HasHead(s, i, Tabs(n));
      assert Tabs(n)[1..] == Tabs(n - 1);
      SkipTabs(s, i + 1, n - 1);
    }
  }

  /** Every printable value is read back from its rendering at any position, depth
      and format, whatever follows that cannot continue a number. */
  lemma {:induction false} ValueBack(s: string, i: nat, t: Json, depth: nat, fmt: bool)
    requires Printable(t) && Has(s, i, PrintValue(t, depth, fmt))
    requires EndsNumber(At(s, i + |PrintValue(t, depth, fmt)|))
    ensures ParseValue(s, i) == Ok(t, i + |PrintValue(t, depth, fmt)|)
    decreases t, 1
  {
    hide ParseArray, ParseObject, ParseNumber, ParseString, PrintItems, PrintMembers, Quote, PrintInt, Has, EndsNumber, Tabs;
    NoKeyword(s, i);
    ValueStart(t, depth, fmt);
    HasHead(s, i, PrintValue(t, depth, fmt));
    match t
    case Null =>
    case False =>
    case True =>
    case Number(n, _) => NumberBack(s, i, n);
    case String(text) => QuoteStart(text); StringBack(s, i, text);
    case Array(items) => ArrayBack(s, i, t, depth, fmt);
    case Object(members) => ObjectBack(s, i, t, depth, fmt);
  }

  lemma ArrayText(t: Json, depth: nat, fmt: bool)
    requires t.Array? && Printable(t)
    ensures PrintValue(t, depth, fmt) == ['['] + (PrintItems(t.items, depth + 1, fmt) + [']'])
    ensures |t.items| == 0 ==> |PrintItems(t.items, depth + 1, fmt)| == 0
  {
  }

  lemma ArrayShape(s: string, i: nat, t: Json, depth: nat, fmt: bool)
    requires t.Array? && Printable(t) && Has(s, i, PrintValue(t, depth, fmt))
    ensures var body := PrintItems(t.items, depth + 1, fmt);
            |PrintValue(t, depth, fmt)| == |body| + 2 && At(s, i) == '[' && i + 1 + |body| < |s|
            && Has(s, i + 1, body) && At(s, i + 1 + |body|) == ']'
    ensures |t.items| == 0 ==> |PrintItems(t.items, depth + 1, fmt)| == 0
  {
    hide Has, PrintItems, PrintValue;
    var body := PrintItems(t.items, depth + 1, fmt);
    ArrayText(t, depth, fmt);
    HasSplit(s, i, ['['], body + [']']);
    HasSplit(s, i + 1, body, [']']);
    HasHead(s, i, ['[']);
    HasHead(s, i + 1 + |body|, [']']);
  }

  lemma {:induction false} ArrayBack(s: string, i: nat, t: Json, depth: nat, fmt: bool)
    requires t.Array? && Printable(t) && Has(s, i, PrintValue(t, depth, fmt))
    ensures i < |s| && ParseArray(s, i) == Ok(t, i + |PrintValue(t, depth, fmt)|)
    decreases t, 0
  {
    hide PrintValue, PrintItems, ParseItems, ParseValue, Has, EndsNumber;
    ArrayShape(s, i, t, depth, fmt);
    if |t.items| == 0 {
      assert t.items == [];
    } else {
      ItemsStart(s, i + 1, t.items, depth + 1, fmt);
      ItemsBack(s, i + 1, i + 1, t.items, depth + 1, fmt, []);
      assert [] + t.items == t.items;
    }
  }

  lemma ItemsStart(s: string, p: nat, items: seq<Json>, depth: nat, fmt: bool)
    requires AllPrintable(items) && |items| > 0 && Has(s, p, PrintItems(items, depth, fmt))
    ensures |PrintItems(items, depth, fmt)| > 0
    ensures p <= |s| && Skip(s, p) == p && At(s, p) !in ",]}"
  {
    hide PrintValue;
    ValueStart(items[0], depth, fmt);
    HasHead(s, p, PrintItems(items, depth, fmt));
  }

  lemma ItemsText(items: seq<Json>, depth: nat, fmt: bool)
    requires AllPrintable(items) && |items| > 0
    ensures PrintItems(items, depth, fmt) ==
            PrintValue(items[0], depth, fmt) + Separator(|items| > 1, fmt) + PrintItems(items[1..], depth, fmt)
    ensures |items| == 1 ==> |PrintItems(items[1..], depth, fmt)| == 0
  {
    hide PrintValue;
  }

  lemma ItemsShape(s: string, p: nat, items: seq<Json>, depth: nat, fmt: bool)
    requires AllPrintable(items) && |items| > 0 && Has(s, p, PrintItems(items, depth, fmt))
    ensures var w := p + |PrintValue(items[0], depth, fmt)|;
            var next := if |items| == 1 then w else if fmt then w + 2 else w + 1;
            Has(s, p, PrintValue(items[0], depth, fmt)) && Has(s, next, PrintItems(items[1..], depth, fmt))
            && p + |PrintItems(items, depth, fmt)| == next + |PrintItems(items[1..], depth, fmt)|
            && (|items| > 1 ==> At(s, w) == ',' && Skip(s, w + 1) == next)
            && (|items| == 1 ==> |PrintItems(items[1..], depth, fmt)| == 0)
  {
    hide PrintValue, PrintItems, Has, Skip, Separator;
    ItemsText(items, depth, fmt);
    SeparatorText(fmt);
    var one, sep, rest := PrintValue(items[0], depth, fmt), Separator(|items| > 1, fmt), PrintItems(items[1..], depth, fmt);
    HasSplit(s, p, one + sep, rest);
    HasSplit(s, p, one, sep);
    var w := p + |one|;
    if |items| > 1 {
      HasHead(s, w, sep);
      ItemsStart(s, w + |sep|, items[1..], depth, fmt);
      if fmt {
        HasHead(s, w + 1, sep[1..]);
        SkipsSpace(s, w + 1);
      }
    }
  }

  lemma SeparatorText(fmt: bool)
    ensures |Separator(false, fmt)| == 0 && |Separator(true, fmt)| == (if fmt then 2 else 1)
    ensures Separator(true, fmt)[0] == ',' && (fmt ==> Separator(true, fmt)[1..][0] == ' ')
  {
  }

  /** The items of an array, from the position `p` of the first one on. */
  lemma {:induction false} ItemsBack(s: string, v: nat, p: nat, items: seq<Json>, depth: nat, fmt: bool, done: seq<Json>)
    requires AllPrintable(items) && |items| > 0
    requires v <= |s| && Skip(s, v) == p && Has(s, p, PrintItems(items, depth, fmt))
    requires At(s, p + |PrintItems(items, depth, fmt)|) == ']'
    ensures ParseItems(s, v, done) == Ok(Array(done + items), p + |PrintItems(items, depth, fmt)| + 1)
    decreases items
  {
    hide PrintValue, PrintItems, ParseValue, ParseItems, Has;
    ItemsShape(s, p, items, depth, fmt);
    var w := p + |PrintValue(items[0], depth, fmt)|;
    ValueBack(s, p, items[0], depth, fmt);
    ItemsTurn(s, v, done, Ok(items[0], w));
    if |items| > 1 {
      ItemsBack(s, w + 1, Skip(s, w + 1), items[1..], depth, fmt, done + [items[0]]);
      assert (done + [items[0]]) + items[1..] == done + items;
    } else {
      assert done + [items[0]] == done + items;
    }
  }

  /** The indentation and brace that close an object. */
  function Close(depth: int, fmt: bool): string {
    Fmt(fmt, Tabs(depth)) + ['}']
  }

  lemma Closing(s: string, q: nat, depth: int, fmt: bool)
    requires Has(s, q, Close(depth, fmt))
    ensures q < |s| && Skip(s, q) == q + |Close(depth, fmt)| - 1
    ensures At(s, Skip(s, q)) == '}'
  {
    HasSplit(s, q, Fmt(fmt, Tabs(depth)), ['}']);
    HasHead(s, q + |Fmt(fmt, Tabs(depth))|, ['}']);
    if fmt {
      SkipTabs(s, q, depth);
    }
  }

  lemma ObjectText(t: Json, depth: nat, fmt: bool)
    requires t.Object? && Printable(t)
    ensures var body := PrintMembers(t.members, depth + 1, fmt) + Close(if |t.members| == 0 then depth - 1 else depth, fmt);
            PrintValue(t, depth, fmt) == ['{'] + (Fmt(fmt, ['\n']) + body)
  {
    hide PrintMembers, Tabs;
    NoMembersText(t.members, depth + 1, fmt);
  }

  lemma ObjectShape(s: string, i: nat, t: Json, depth: nat, fmt: bool)
    requires t.Object? && Printable(t) && Has(s, i, PrintValue(t, depth, fmt))
    ensures At(s, i) == '{' && i < |s|
    ensures var q := if fmt then i + 2 else i + 1;
            var body := PrintMembers(t.members, depth + 1, fmt) + Close(if |t.members| == 0 then depth - 1 else depth, fmt);
            Has(s, q, body) && Skip(s, i + 1) == Skip(s, q) && i + |PrintValue(t, depth, fmt)| == q + |body|
  {
    hide PrintMembers, PrintValue, Tabs, Close, Has;
    var body := PrintMembers(t.members, depth + 1, fmt) + Close(if |t.members| == 0 then depth - 1 else depth, fmt);
    ObjectText(t, depth, fmt);
    HasSplit(s, i, ['{'], Fmt(fmt, ['\n']) + body);
    HasHead(s, i, ['{']);
    HasSplit(s, i + 1, Fmt(fmt, ['\n']), body);
    if fmt {
      HasHead(s, i + 1, ['\n']);
    }
  }

  lemma NoMembersText(members: seq<Member>, depth: nat, fmt: bool)
    requires MembersPrintable(members)
    ensures |members| == 0 ==> PrintMembers(members, depth, fmt) == ""
  {
  }

  lemma {:induction false} ObjectBack(s: string, i: nat, t: Json, depth: nat, fmt: bool)
    requires t.Object? && Printable(t) && Has(s, i, PrintValue(t, depth, fmt))
    ensures i < |s| && ParseObject(s, i) == Ok(t, i + |PrintValue(t, depth, fmt)|)
    decreases t, 0
  {
    hide PrintValue, PrintMembers, ParseMembers, ParseValue, Has, Close, Tabs;
    ObjectShape(s, i, t, depth, fmt);
    var q := if fmt then i + 2 else i + 1;
    if |t.members| == 0 {
      NoMembersText(t.members, depth + 1, fmt);
      assert "" + Close(depth - 1, fmt) == Close(depth - 1, fmt);
      Closing(s, q, depth - 1, fmt);
      assert t.members == [];
    } else {
      MembersBack(s, Skip(s, i + 1), q, t.members, depth + 1, fmt, []);
      assert [] + t.members == t.members;
    }
  }

  lemma MemberPieces(s: string, q: nat, m: Member, depth: nat, fmt: bool)
    requires IsCString(m.name) && Printable(m.value) && Has(s, q, PrintMember(m, depth, fmt))
    ensures var n := q + |Fmt(fmt, Tabs(depth))|;
            var c := n + |Quote(m.name)|;
            var p := if fmt then c + 2 else c + 1;
            Has(s, q, Fmt(fmt, Tabs(depth))) && Has(s, n, Quote(m.name)) && Has(s, c, [':'])
            && Has(s, c + 1, Fmt(fmt, ['\t'])) && Has(s, p, PrintValue(m.value, depth, fmt))
            && q + |PrintMember(m, depth, fmt)| == p + |PrintValue(m.value, depth, fmt)|
  {
    hide PrintValue, Tabs, Quote, Has;
    var tabs, gap, text := Fmt(fmt, Tabs(depth)), Fmt(fmt, ['\t']), PrintValue(m.value, depth, fmt);
    HasSplit(s, q, tabs, Quote(m.name) + ([':'] + (gap + text))) by {
      Regroup(tabs, Quote(m.name), [':'], gap, text);
    }
    var n := q + |tabs|;
    HasSplit(s, n, Quote(m.name), [':'] + (gap + text));
    var c := n + |Quote(m.name)|;
    HasSplit(s, c, [':'], gap + text);
    HasSplit(s, c + 1, gap, text);
  }

  lemma MemberShape(s: string, q: nat, m: Member, depth: nat, fmt: bool)
    requires IsCString(m.name) && Printable(m.value) && Has(s, q, PrintMember(m, depth, fmt))
    ensures var n := q + |Fmt(fmt, Tabs(depth))|;
            var c := n + |Quote(m.name)|;
            var p := if fmt then c + 2 else c + 1;
            Skip(s, q) == n && At(s, n) == '"' && Has(s, n, Quote(m.name)) && At(s, c) == ':' && c < |s|
            && Skip(s, c + 1) == p && Has(s, p, PrintValue(m.value, depth, fmt))
            && q + |PrintMember(m, depth, fmt)| == p + |PrintValue(m.value, depth, fmt)|
  {
    hide PrintValue, PrintMember, Tabs, Quote, Has, Skip;
    MemberPieces(s, q, m, depth, fmt);
    var n := q + |Fmt(fmt, Tabs(depth))|;
    var c := n + |Quote(m.name)|;
    QuoteStart(m.name);
    HasHead(s, n, Quote(m.name));
    HasHead(s, c, [':']);
    ValueStart(m.value, depth, fmt);
    HasHead(s, if fmt then c + 2 else c + 1, PrintValue(m.value, depth, fmt));
    if fmt {
      SkipTabs(s, q, depth);
      HasHead(s, c + 1, ['\t']);
      SkipsSpace(s, c + 1);
    }
    SkipsNothing(s, n);
    SkipsNothing(s, if fmt then c + 2 else c + 1);
  }

  lemma SkipsSpace(s: string, i: nat)
    requires i <= |s| && IsSpace(At(s, i))
    ensures i < |s| && Skip(s, i) == Skip(s, i + 1)
  {
  }

  lemma SkipsNothing(s: string, i: nat)
    requires i <= |s| && !IsSpace(At(s, i))
    ensures Skip(s, i) == i
  {
  }

  /** One member, from its indentation to the end of its value. */
  lemma {:induction false} MemberBack(s: string, v: nat, q: nat, m: Member, depth: nat, fmt: bool)
    requires IsCString(m.name) && Printable(m.value) && v <= |s|
    requires Has(s, q, PrintMember(m, depth, fmt)) && q <= |s| && Skip(s, v) == Skip(s, q)
    requires EndsNumber(At(s, q + |PrintMember(m, depth, fmt)|))
    ensures ParseMember(s, v) == Ok(m, q + |PrintMember(m, depth, fmt)|)
    ensures At(s, Skip(s, q)) == '"'
    decreases m, 0
  {
    hide PrintValue, PrintMember, ParseValue, ParseString, Tabs, Quote, Has, EndsNumber;
    MemberShape(s, q, m, depth, fmt);
    var c := q + |Fmt(fmt, Tabs(depth))| + |Quote(m.name)|;
    var p := if fmt then c + 2 else c + 1;
    StringBack(s, q + |Fmt(fmt, Tabs(depth))|, m.name);
    ValueBack(s, p, m.value, depth, fmt);
    MemberParts(s, v, c, c, m, p + |PrintValue(m.value, depth, fmt)|);
  }

  lemma MemberParts(s: string, v: nat, n: nat, c: nat, m: Member, end: nat)
    requires v <= |s| && ParseString(s, Skip(s, v)) == Ok(m.name, n) && c == Skip(s, n)
    requires c < |s| && At(s, c) == ':' && ParseValue(s, Skip(s, c + 1)) == Ok(m.value, end)
    ensures ParseMember(s, v) == Ok(m, end)
  {
    hide ParseValue, ParseString;
  }

  lemma MembersPieces(s: string, q: nat, members: seq<Member>, depth: nat, fmt: bool)
    requires MembersPrintable(members) && |members| > 0 && depth > 0
    requires Has(s, q, PrintMembers(members, depth, fmt) + Close(depth - 1, fmt))
    ensures var w := q + |PrintMember(members[0], depth, fmt)|;
            var l := if |members| > 1 then w + 1 else w;
            var next := if fmt then l + 1 else l;
            var rest := PrintMembers(members[1..], depth, fmt) + Close(depth - 1, fmt);
            Has(s, q, PrintMember(members[0], depth, fmt)) && (|members| > 1 ==> Has(s, w, [',']))
            && Has(s, l, Fmt(fmt, ['\n'])) && Has(s, next, rest)
            && q + |PrintMembers(members, depth, fmt) + Close(depth - 1, fmt)| == next + |rest|
  {
    hide PrintMember, Has, Close;
    var one, comma, line := PrintMember(members[0], depth, fmt), if |members| > 1 then [','] else "", Fmt(fmt, ['\n']);
    var close := Close(depth - 1, fmt);
    var rest := PrintMembers(members[1..], depth, fmt);
    HasSplit(s, q, one, comma + (line + (rest + close))) by {
      Regroup(one, comma, line, rest, close);
    }
    HasSplit(s, q + |one|, comma, line + (rest + close));
    HasSplit(s, q + |one| + |comma|, line, rest + close);
  }

  lemma MembersShape(s: string, q: nat, members: seq<Member>, depth: nat, fmt: bool)
    requires MembersPrintable(members) && |members| > 0 && depth > 0
    requires Has(s, q, PrintMembers(members, depth, fmt) + Close(depth - 1, fmt))
    ensures var w := q + |PrintMember(members[0], depth, fmt)|;
            var l := if |members| > 1 then w + 1 else w;
            var next := if fmt then l + 1 else l;
            var rest := PrintMembers(members[1..], depth, fmt) + Close(depth - 1, fmt);
            Has(s, q, PrintMember(members[0], depth, fmt)) && Has(s, next, rest) && Skip(s, l) == Skip(s, next)
            && EndsNumber(At(s, w))
            && q + |PrintMembers(members, depth, fmt) + Close(depth - 1, fmt)| == next + |rest|
            && (|members| > 1 ==> At(s, w) == ',')
            && (|members| == 1 ==> rest == Close(depth - 1, fmt))
  {
    hide PrintMember, PrintMembers, Has, Close;
    MembersPieces(s, q, members, depth, fmt);
    var w := q + |PrintMember(members[0], depth, fmt)|;
    CloseText(depth - 1);
    if |members| > 1 {
      HasHead(s, w, [',']);
    } else {
      NoMembersText(members[1..], depth, fmt);
      assert "" + Close(depth - 1, fmt) == Close(depth - 1, fmt);
    }
    if fmt {
      var l := if |members| > 1 then w + 1 else w;
      HasHead(s, l, ['\n']);
      SkipsSpace(s, l);
    } else if |members| == 1 {
      HasHead(s, w, Close(depth - 1, fmt));
    }
  }


  lemma CloseText(depth: int)
    ensures Close(depth, false) == ['}']
  {
  }

  /** The members of an object, from the position `q` after the opening line on. */
  lemma {:induction false} MembersBack(s: string, v: nat, q: nat, members: seq<Member>, depth: nat, fmt: bool, done: seq<Member>)
    requires MembersPrintable(members) && |members| > 0 && depth > 0
    requires v <= |s| && Has(s, q, PrintMembers(members, depth, fmt) + Close(depth - 1, fmt))
    requires q <= |s| && Skip(s, v) == Skip(s, q)
    ensures ParseMembers(s, v, done)
         == Ok(Object(done + members), q + |PrintMembers(members, depth, fmt) + Close(depth - 1, fmt)|)
    ensures At(s, Skip(s, v)) == '"'
    decreases members
  {
    hide PrintMembers, PrintMember, ParseMember, ParseMembers, Tabs, Close, Has, EndsNumber;
    MembersShape(s, q, members, depth, fmt);
    var w := q + |PrintMember(members[0], depth, fmt)|;
    var l := if |members| > 1 then w + 1 else w;
    var next := if fmt then l + 1 else l;
    MemberBack(s, v, q, members[0], depth, fmt);
    MembersTurn(s, v, done, Ok(members[0], w));
    if |members| > 1 {
      MembersBack(s, w + 1, next, members[1..], depth, fmt, done + [members[0]]);
      assert (done + [members[0]]) + members[1..] == done + members;
    } else {
      Closing(s, next, depth - 1, fmt);
      assert done + [members[0]] == done + members;
    }
  }

  /** For every printable tree, parsing the formatted or the unformatted print
      gives back an equal tree and consumes the whole text. */
  lemma RoundTrip(t: Json, fmt: bool)
    requires Printable(t)
    ensures Parse(PrintValue(t, 0, fmt), true) == Ok(t, |PrintValue(t, 0, fmt)|)
  {
    hide PrintValue, ParseValue;
    var s := PrintValue(t, 0, fmt);
    assert s[0..|s|] == s;
    ValueStart(t, 0, fmt);
    ValueBack(s, 0, t, 0, fmt);
  }
}
