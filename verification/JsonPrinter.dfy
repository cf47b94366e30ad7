/** The two printers, `cJSON_Print` (`fmt`) and `cJSON_PrintUnformatted`: the text
    they produce as a function of the tree, and the buffers they fill to produce it. */
module JsonPrinter {
  import opened JsonText
  import opened JsonNumber
  import opened JsonString

  /** A tree the printers render without floating point: 32-bit integers,
      strings without a terminator inside, and members that have a name. */
  predicate Printable(t: Json) {
    match t
    case Number(mantissa, exponent) => exponent == 0 && INT_MIN <= mantissa <= INT_MAX
    case String(text) => IsCString(text)
    case Array(items) => forall k | 0 <= k < |items| :: Printable(items[k])
    case Object(members) => forall k | 0 <= k < |members| :: IsCString(members[k].name) && Printable(members[k].value)
    case _ => true
  }

  predicate AllPrintable(items: seq<Json>) {
    forall k | 0 <= k < |items| :: Printable(items[k])
  }

  predicate MembersPrintable(members: seq<Member>) {
    forall k | 0 <= k < |members| :: IsCString(members[k].name) && Printable(members[k].value)
  }

  function Tabs(n: int): (r: string)
    ensures |r| == if n < 0 then 0 else n
  {
    if n <= 0 then "" else ['\t'] + Tabs(n - 1)
  }

  /** `text` when formatting, nothing otherwise. */
  function Fmt(fmt: bool, text: string): string {
    if fmt then text else ""
  }

  function Separator(more: bool, fmt: bool): string {
    if more then [','] + Fmt(fmt, " ") else ""
  }

  function PrintValue(t: Json, depth: nat, fmt: bool): string
    requires Printable(t)
    decreases t
  {
    match t
    case Null => "null"
    case False => "false"
    case True => "true"
    case Number(n, _) => PrintInt(n)
    case String(text) => Quote(text)
    case Array(items) => ['['] + PrintItems(items, depth + 1, fmt) + [']']
    case Object(members) =>
      if |members| == 0 then ['{'] + Fmt(fmt, ['\n'] + Tabs(depth - 1)) + ['}']
      else ['{'] + Fmt(fmt, ['\n']) + PrintMembers(members, depth + 1, fmt) + Fmt(fmt, Tabs(depth)) + ['}']
  }

  function PrintItems(items: seq<Json>, depth: nat, fmt: bool): string
    requires AllPrintable(items)
    decreases items
  {
    if |items| == 0 then ""
    else PrintValue(items[0], depth, fmt) + Separator(|items| > 1, fmt) + PrintItems(items[1..], depth, fmt)
  }

  function PrintMember(m: Member, depth: nat, fmt: bool): string
    requires IsCString(m.name) && Printable(m.value)
    decreases m, 0
  {
    Fmt(fmt, Tabs(depth)) + Quote(m.name) + [':'] + Fmt(fmt, ['\t']) + PrintValue(m.value, depth, fmt)
  }

  function PrintMembers(members: seq<Member>, depth: nat, fmt: bool): string
    requires MembersPrintable(members)
    decreases members
  {
    if |members| == 0 then ""
    else
      PrintMember(members[0], depth, fmt) + (if |members| > 1 then [','] else "") + Fmt(fmt, ['\n'])
      + PrintMembers(members[1..], depth, fmt)
  }

  // ---------- the printers as they run ----------

  /** `strcpy` at an offset, then past what was copied. */
  method StrCpy(out: array<char>, at: nat, src: string) returns (ptr: nat)
    requires at + |src| < out.Length
    modifies out
    ensures ptr == at + |src| && out[ptr] == NUL
    ensures out[..ptr] == old(out[..at]) + src
  {
    ptr := at;
    while ptr < at + |src|
      invariant at <= ptr <= at + |src|
      invariant out[..ptr] == old(out[..at]) + src[..ptr - at]
    {
      out[ptr] := src[ptr - at];
      ptr := ptr + 1;
    }
    out[ptr] := NUL;
    assert src[..ptr - at] == src;
  }

  method PutTabs(out: array<char>, at: nat, n: int) returns (ptr: nat)
    requires at + |Tabs(n)| <= out.Length
    modifies out
    ensures ptr == at + |Tabs(n)| && out[..ptr] == old(out[..at]) + Tabs(n)
  {
    ptr := at;
    while ptr < at + n
      invariant at <= ptr <= at + |Tabs(n)|
      invariant out[..ptr] + Tabs(at + n - ptr) == old(out[..at]) + Tabs(n)
    {
      assert Tabs(at + n - ptr) == ['\t'] + Tabs(at + n - ptr - 1);
      out[ptr] := '\t';
      ptr := ptr + 1;
    }
  }

  method RenderValue(t: Json, depth: nat, fmt: bool) returns (r: string)
    requires Printable(t)
    ensures r == PrintValue(t, depth, fmt)
    decreases t
  {
    match t
    case Null => r := "null";
    case False => r := "false";
    case True => r := "true";
    case Number(n, _) => r := PrintInt(n);
    case String(text) => r := RenderString(text);
    case Array(items) => r := RenderArray(t, depth, fmt);
    case Object(members) => r := RenderObject(t, depth, fmt);
  }

  /** Room `print_array` sets aside for the entries from `i` on. */
  function ItemsRoom(entries: seq<string>, fmt: bool): nat {
    if |entries| == 0 then 0
    else |entries[0]| + 2 + (if fmt then 1 else 0) + ItemsRoom(entries[1..], fmt)
  }

  lemma {:induction false} ItemsRoomSnoc(entries: seq<string>, e: string, fmt: bool)
    ensures ItemsRoom(entries + [e], fmt) == ItemsRoom(entries, fmt) + |e| + 2 + (if fmt then 1 else 0)
  {
    if |entries| == 0 {
      assert entries + [e] == [e];
    } else {
      assert (entries + [e])[1..] == entries[1..] + [e];
      ItemsRoomSnoc(entries[1..], e, fmt);
    }
  }

  /** The entries rendered for `items`. */
  predicate Rendered(entries: seq<string>, items: seq<Json>, depth: nat, fmt: bool)
    requires AllPrintable(items)
  {
    |entries| <= |items| && forall k | 0 <= k < |entries| :: entries[k] == PrintValue(items[k], depth, fmt)
  }

  /** `print_array`: collect the entries and their lengths, then compose them in
      one buffer of the length computed. No write leaves that buffer. */
  method RenderArray(t: Json, depth: nat, fmt: bool) returns (r: string)
    requires t.Array? && Printable(t)
    ensures r == PrintValue(t, depth, fmt)
    decreases t, 1
  {
    if |t.items| == 0 {
      return "[]";
    }
    var entries, len := CollectItems(t, t.items, depth + 1, fmt);
    var out := new char[len];
    var ptr := ComposeArray(out, entries, t.items, depth + 1, fmt);
    r := out[..ptr - 1];
  }

  /** The collecting loop of `print_array`. */
  method CollectItems(ghost t: Json, items: seq<Json>, depth: nat, fmt: bool) returns (entries: seq<string>, len: nat)
    requires t.Array? && t.items == items && AllPrintable(items)
    ensures |entries| == |items| && Rendered(entries, items, depth, fmt) && len == 5 + ItemsRoom(entries, fmt)
    decreases t, 0
  {
    hide PrintValue, Printable;
    entries, len := [], 5;
    while |entries| < |items|
      invariant Rendered(entries, items, depth, fmt)
      invariant len == 5 + ItemsRoom(entries, fmt)
    {
      var ret := RenderValue(items[|entries|], depth, fmt);
      ItemsRoomSnoc(entries, ret, fmt);
      entries := entries + [ret];
      len := len + |ret| + 2 + (if fmt then 1 else 0);
    }
  }

  lemma ItemsTail(entries: seq<string>, items: seq<Json>, i: nat, depth: nat, fmt: bool)
    requires |entries| == |items| && i < |items| && AllPrintable(items) && Rendered(entries, items, depth, fmt)
    ensures ItemsRoom(entries[i..], fmt) == |entries[i]| + 2 + (if fmt then 1 else 0) + ItemsRoom(entries[i + 1..], fmt)
    ensures PrintItems(items[i..], depth, fmt)
         == entries[i] + Separator(i + 1 < |items|, fmt) + PrintItems(items[i + 1..], depth, fmt)
  {
    hide PrintValue;
    assert entries[i..][1..] == entries[i + 1..] && items[i..][1..] == items[i + 1..];
  }

  method ComposeArray(out: array<char>, entries: seq<string>, ghost items: seq<Json>, ghost depth: nat, fmt: bool)
    returns (ptr: nat)
    requires |entries| == |items| > 0 && AllPrintable(items) && Rendered(entries, items, depth, fmt)
    requires out.Length == 5 + ItemsRoom(entries, fmt)
    modifies out
    ensures 0 < ptr <= out.Length && out[ptr - 1] == NUL
    ensures out[..ptr - 1] == ['['] + PrintItems(items, depth, fmt) + [']']
  {
    hide PrintValue, PrintItems, ItemsRoom, Separator;
    ghost var text := ['['] + PrintItems(items, depth, fmt);
    assert entries[0..] == entries && items[0..] == items;
    ptr := PutChar(out, 0, '[');
    var i := 0;
    while i < |entries|
      invariant 0 <= i <= |entries|
      invariant 1 <= ptr && ptr + ItemsRoom(entries[i..], fmt) + 4 <= out.Length
      invariant out[..ptr] + PrintItems(items[i..], depth, fmt) == text
    {
      ItemsTail(entries, items, i, depth, fmt);
      ghost var before, one, rest := out[..ptr], entries[i] + Separator(i + 1 < |items|, fmt), PrintItems(items[i + 1..], depth, fmt);
      assert before + (one + rest) == (before + one) + rest;
      ptr := ComposeItem(out, ptr, entries[i], i != |entries| - 1, fmt);
      i := i + 1;
    }
    NoItems(items, i, depth, fmt);
    assert out[..ptr] + "" == out[..ptr];
    ptr := PutChar(out, ptr, ']');
    ptr := ptr + 1;
  }

  lemma NoItems(items: seq<Json>, i: nat, depth: nat, fmt: bool)
    requires i == |items| && AllPrintable(items)
    ensures PrintItems(items[i..], depth, fmt) == ""
  {
  }

  /** One character and, past it, the terminator. */
  method PutChar(out: array<char>, at: nat, c: char) returns (ptr: nat)
    requires at + 1 < out.Length
    modifies out
    ensures ptr == at + 1 && out[ptr] == NUL
    ensures out[..ptr] == old(out[..at]) + [c]
  {
    out[at] := c;
    ptr := at + 1;
    out[ptr] := NUL;
  }

  /** The body of the composing loop of `print_array`. */
  method ComposeItem(out: array<char>, at: nat, entry: string, more: bool, fmt: bool) returns (ptr: nat)
    requires at + |entry| + 2 + (if fmt then 1 else 0) <= out.Length
    modifies out
    ensures at <= ptr <= at + |entry| + 2 + (if fmt then 1 else 0)
    ensures out[..ptr] == old(out[..at]) + (entry + Separator(more, fmt))
  {
    ptr := StrCpy(out, at, entry);
    if more {
      ptr := PutChar(out, ptr, ',');
      if fmt {
        ptr := PutChar(out, ptr, ' ');
      }
    }
  }

  /** Room `print_object` sets aside for the members from `i` on. */
  function MembersRoom(names: seq<string>, entries: seq<string>, depth: nat, fmt: bool): nat
    requires |names| == |entries|
  {
    if |names| == 0 then 0
    else |entries[0]| + |names[0]| + 2 + (if fmt then 2 + depth else 0) + MembersRoom(names[1..], entries[1..], depth, fmt)
  }

  lemma {:induction false} MembersRoomSnoc(names: seq<string>, entries: seq<string>, n: string, e: string, depth: nat, fmt: bool)
    requires |names| == |entries|
    ensures MembersRoom(names + [n], entries + [e], depth, fmt)
         == MembersRoom(names, entries, depth, fmt) + |e| + |n| + 2 + (if fmt then 2 + depth else 0)
  {
    if |names| == 0 {
      assert names + [n] == [n] && entries + [e] == [e];
    } else {
      assert (names + [n])[1..] == names[1..] + [n] && (entries + [e])[1..] == entries[1..] + [e];
      MembersRoomSnoc(names[1..], entries[1..], n, e, depth, fmt);
    }
  }

  predicate MembersRendered(names: seq<string>, entries: seq<string>, members: seq<Member>, depth: nat, fmt: bool)
    requires MembersPrintable(members)
  {
    |names| == |entries| <= |members| &&
    forall k | 0 <= k < |entries| ::
      names[k] == Quote(members[k].name) && entries[k] == PrintValue(members[k].value, depth, fmt)
  }

  /** `print_object`: names and values are collected first; the buffer is then
      filled within the length computed for it. */
  method RenderObject(t: Json, depth: nat, fmt: bool) returns (r: string)
    requires t.Object? && Printable(t)
    ensures r == PrintValue(t, depth, fmt)
    decreases t, 1
  {
    if |t.members| == 0 {
      r := RenderEmptyObject(depth, fmt);
      return;
    }
    var names, entries, len := CollectMembers(t, t.members, depth + 1, fmt);
    var out := new char[len];
    var ptr := ComposeObject(out, names, entries, t.members, depth + 1, fmt);
    r := out[..ptr - 1];
  }

  /** The collecting loop of `print_object`. */
  method CollectMembers(ghost t: Json, members: seq<Member>, depth: nat, fmt: bool)
    returns (names: seq<string>, entries: seq<string>, len: nat)
    requires t.Object? && t.members == members && MembersPrintable(members)
    ensures |entries| == |members| && MembersRendered(names, entries, members, depth, fmt)
    ensures len == 7 + (if fmt then depth else 0) + MembersRoom(names, entries, depth, fmt)
    decreases t, 0
  {
    hide PrintValue, Quote, Printable, IsCString;
    names, entries, len := [], [], 7 + (if fmt then depth else 0);
    while |entries| < |members|
      invariant MembersRendered(names, entries, members, depth, fmt)
      invariant len == 7 + (if fmt then depth else 0) + MembersRoom(names, entries, depth, fmt)
    {
      var str := RenderString(members[|entries|].name);
      var ret := RenderValue(members[|entries|].value, depth, fmt);
      MembersRoomSnoc(names, entries, str, ret, depth, fmt);
      names, entries := names + [str], entries + [ret];
      len := len + |ret| + |str| + 2 + (if fmt then 2 + depth else 0);
    }
  }

  method RenderEmptyObject(depth: nat, fmt: bool) returns (r: string)
    ensures r == ['{'] + Fmt(fmt, ['\n'] + Tabs(depth - 1)) + ['}']
  {
    var out := new char[if fmt then depth + 4 else 3];
    out[0] := '{';
    var ptr := 1;
    if fmt {
      out[ptr] := '\n';
      ptr := PutTabs(out, ptr + 1, depth - 1);
    }
    out[ptr] := '}';
    ptr := ptr + 1;
    out[ptr] := NUL;
    r := out[..ptr];
  }

  /** One member of an object's text: indentation, name, value and what separates it from the next. */
  function MemberLine(m: Member, depth: nat, fmt: bool, more: bool): string
    requires IsCString(m.name) && Printable(m.value)
  {
    PrintMember(m, depth, fmt) + (if more then [','] else "") + Fmt(fmt, ['\n'])
  }

  lemma MembersTail(names: seq<string>, entries: seq<string>, members: seq<Member>, i: nat, depth: nat, fmt: bool)
    requires |names| == |entries| == |members| && i < |members| && MembersPrintable(members)
    ensures MembersRoom(names[i..], entries[i..], depth, fmt)
         == |entries[i]| + |names[i]| + 2 + (if fmt then 2 + depth else 0) + MembersRoom(names[i + 1..], entries[i + 1..], depth, fmt)
    ensures PrintMembers(members[i..], depth, fmt)
         == MemberLine(members[i], depth, fmt, i + 1 < |members|) + PrintMembers(members[i + 1..], depth, fmt)
  {
    hide PrintMember;
    assert names[i..][1..] == names[i + 1..] && entries[i..][1..] == entries[i + 1..];
    assert members[i..][1..] == members[i + 1..];
  }

  lemma NoMembers(members: seq<Member>, i: nat, depth: nat, fmt: bool)
    requires i == |members| && MembersPrintable(members)
    ensures PrintMembers(members[i..], depth, fmt) == ""
  {
  }

  method ComposeObject(out: array<char>, names: seq<string>, entries: seq<string>, ghost members: seq<Member>,
                       depth: nat, fmt: bool)
    returns (ptr: nat)
    requires depth > 0 && |entries| == |members| > 0 && MembersPrintable(members)
    requires MembersRendered(names, entries, members, depth, fmt)
    requires out.Length == 7 + (if fmt then depth else 0) + MembersRoom(names, entries, depth, fmt)
    modifies out
    ensures 0 < ptr <= out.Length && out[ptr - 1] == NUL
    ensures out[..ptr - 1] == ['{'] + Fmt(fmt, ['\n']) + PrintMembers(members, depth, fmt) + Fmt(fmt, Tabs(depth - 1)) + ['}']
  {
    hide PrintValue, Quote, Tabs, PrintMembers, PrintMember, MembersRoom, MemberLine;
    ghost var text := ['{'] + Fmt(fmt, ['\n']) + PrintMembers(members, depth, fmt);
    assert names[0..] == names && entries[0..] == entries && members[0..] == members;
    ptr := PutChar(out, 0, '{');
    if fmt {
      ptr := PutChar(out, ptr, '\n');
    }
    var i := 0;
    while i < |entries|
      invariant 0 <= i <= |entries|
      invariant 1 <= ptr
      invariant ptr + MembersRoom(names[i..], entries[i..], depth, fmt) + 5 + (if fmt then depth else 0) <= out.Length
      invariant out[..ptr] + PrintMembers(members[i..], depth, fmt) == text
    {
      MembersTail(names, entries, members, i, depth, fmt);
      ghost var before, rest := out[..ptr], PrintMembers(members[i + 1..], depth, fmt);
      ghost var line := MemberLine(members[i], depth, fmt, i + 1 < |members|);
      assert before + (line + rest) == (before + line) + rest;
      ptr := ComposeMember(out, ptr, names[i], entries[i], members[i], depth, fmt, i != |entries| - 1);
      i := i + 1;
    }
    NoMembers(members, i, depth, fmt);
    assert out[..ptr] + "" == out[..ptr];
    if fmt {
      ptr := PutTabs(out, ptr, depth - 1);
    }
    ptr := PutChar(out, ptr, '}');
    ptr := ptr + 1;
  }

  /** The body of the composing loop of `print_object`. */
  method ComposeMember(out: array<char>, at: nat, name: string, entry: string, ghost m: Member, depth: nat, fmt: bool, more: bool)
    returns (ptr: nat)
    requires IsCString(m.name) && Printable(m.value)
    requires name == Quote(m.name) && entry == PrintValue(m.value, depth, fmt)
    requires at + |name| + |entry| + 2 + (if fmt then 2 + depth else 0) < out.Length
    modifies out
    ensures at <= ptr <= at + |name| + |entry| + 2 + (if fmt then 2 + depth else 0)
    ensures out[..ptr] == old(out[..at]) + MemberLine(m, depth, fmt, more)
  {
    hide PrintValue, Quote, Tabs;
    ghost var before, head := out[..at], Fmt(fmt, Tabs(depth)) + name + [':'] + Fmt(fmt, ['\t']);
    ptr := ComposeName(out, at, name, depth, fmt);
    assert out[..ptr] == before + head;
    ptr := StrCpy(out, ptr, entry);
    assert out[..ptr] == before + PrintMember(m, depth, fmt) by {
      assert (before + head) + entry == before + (head + entry);
    }
    if more {
      ptr := PutChar(out, ptr, ',');
    }
    if fmt {
      ptr := PutChar(out, ptr, '\n');
    }
  }

  method ComposeName(out: array<char>, at: nat, name: string, depth: nat, fmt: bool) returns (ptr: nat)
    requires at + |name| + 1 + (if fmt then 1 + depth else 0) < out.Length
    modifies out
    ensures ptr == at + |name| + 1 + (if fmt then 1 + depth else 0)
    ensures out[..ptr] == old(out[..at]) + (Fmt(fmt, Tabs(depth)) + name + [':'] + Fmt(fmt, ['\t']))
  {
    hide Tabs;
    ptr := at;
    if fmt {
      ptr := PutTabs(out, ptr, depth);
    }
    ptr := StrCpy(out, ptr, name);
    ptr := PutChar(out, ptr, ':');
    if fmt {
      ptr := PutChar(out, ptr, '\t');
    }
  }
}
