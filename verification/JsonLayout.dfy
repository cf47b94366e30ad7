/** How the printers lay out arrays and objects: separators, lines and tabs. */
module JsonLayout {
  import opened JsonText
  import opened JsonString
  import opened JsonPrinter

  /** Texts with a separator between each two. */
  function Join(parts: seq<string>, separator: string): string {
    if |parts| == 0 then ""
    else if |parts| == 1 then parts[0]
    else parts[0] + separator + Join(parts[1..], separator)
  }

  lemma {:induction false} TabsAre(n: int)
    ensures forall k | 0 <= k < |Tabs(n)| :: Tabs(n)[k] == '\t'
    decreases n
  {
    if n > 0 {
      TabsAre(n - 1);
    }
  }

  function Elements(items: seq<Json>, depth: nat, fmt: bool): (r: seq<string>)
    requires AllPrintable(items)
    ensures |r| == |items|
  {
    seq(|items|, k requires 0 <= k < |items| => PrintValue(items[k], depth, fmt))
  }

  /** An array is one line: commas, with a blank behind each of them when formatting. */
  lemma {:induction false} ItemsJoined(items: seq<Json>, depth: nat, fmt: bool)
    requires AllPrintable(items)
    ensures PrintItems(items, depth, fmt) == Join(Elements(items, depth, fmt), if fmt then ", " else ",")
    decreases items
  {
    hide PrintValue;
    if |items| > 0 {
      assert Elements(items, depth, fmt)[1..] == Elements(items[1..], depth, fmt);
      ItemsJoined(items[1..], depth, fmt);
      if |items| == 1 {
        assert items[1..] == [];
        assert PrintValue(items[0], depth, fmt) + "" + "" == PrintValue(items[0], depth, fmt);
      } else {
        assert [','] + " " == ", " && [','] + "" == ",";
      }
    }
  }

  lemma ArrayLayout(items: seq<Json>, depth: nat, fmt: bool)
    requires AllPrintable(items)
    ensures PrintValue(Array(items), depth, fmt) ==
      "[" + Join(Elements(items, depth + 1, fmt), if fmt then ", " else ",") + "]"
  {
    hide PrintItems, Elements;
    ItemsJoined(items, depth + 1, fmt);
  }

  /** The line of a member: tabs to its depth, its name, a colon and a tab, its value. */
  function Line(m: Member, depth: nat): string
    requires IsCString(m.name) && Printable(m.value)
  {
    seq(depth, _ => '\t') + Quote(m.name) + ":\t" + PrintValue(m.value, depth, true)
  }

  function Lines(members: seq<Member>, depth: nat): (r: seq<string>)
    requires MembersPrintable(members)
    ensures |r| == |members|
  {
    seq(|members|, k requires 0 <= k < |members| => Line(members[k], depth))
  }

  lemma LineIs(m: Member, depth: nat)
    requires IsCString(m.name) && Printable(m.value)
    ensures PrintMember(m, depth, true) == Line(m, depth)
  {
    hide PrintValue, Quote;
    TabsAre(depth);
    assert Tabs(depth) == seq(depth, _ => '\t');
    var v, t := PrintValue(m.value, depth, true), Tabs(depth) + Quote(m.name);
    assert t + [':'] + ['\t'] + v == t + ":\t" + v;
  }

  lemma {:induction false} MembersJoined(members: seq<Member>, depth: nat)
    requires MembersPrintable(members) && |members| > 0
    ensures PrintMembers(members, depth, true) == Join(Lines(members, depth), ",\n") + "\n"
    decreases members
  {
    hide PrintMember, Line;
    LineIs(members[0], depth);
    var first := Line(members[0], depth);
    assert Lines(members, depth)[1..] == Lines(members[1..], depth);
    if |members| == 1 {
      assert PrintMembers(members[1..], depth, true) == "";
      assert first + "" + ['\n'] + "" == first + "\n";
    } else {
      MembersJoined(members[1..], depth);
      var rest := Join(Lines(members[1..], depth), ",\n");
      assert first + [','] + ['\n'] + (rest + "\n") == first + ",\n" + rest + "\n";
    }
  }

  /** A formatted object has a line for each member, one tab deeper than its braces. */
  lemma ObjectLayout(members: seq<Member>, depth: nat)
    requires MembersPrintable(members) && |members| > 0
    ensures PrintValue(Object(members), depth, true) ==
      "{\n" + Join(Lines(members, depth + 1), ",\n") + "\n" + seq(depth, _ => '\t') + "}"
  {
    hide PrintMembers, Lines;
    MembersJoined(members, depth + 1);
    TabsAre(depth);
    assert Tabs(depth) == seq(depth, _ => '\t');
    var body := Join(Lines(members, depth + 1), ",\n");
    assert ['{'] + ['\n'] + (body + "\n") + Tabs(depth) + ['}'] == "{\n" + body + "\n" + Tabs(depth) + "}";
  }
}
