/** The contents of a settings tree, and the writer `config_write`. */
module ConfigWriter {
  import opened ConfigTree
  import opened ConfigScanner
  import opened Optional

  /** A setting with everything below it. */
  datatype Tree = Tree(name: Option<string>, body: Body)

  datatype Body =
    | Flag(n: int)
    | Number(n: int, wide: bool, format: Format)
    | Words(s: string)
    | NoWords
    | Decimal
    | ArrayOf(items: seq<Tree>)
    | ListOf(items: seq<Tree>)
    | GroupOf(items: seq<Tree>)
    | Untyped

  /** `config_setting_get_format` */
  function Effective(format: Format, fallback: Format): Format {
    if format != DefaultFormat then format else fallback
  }

  /** What a setting of the tree holds, with the format it is written in. */
  function Content(c: Config, fallback: Format, id: nat): Tree
    requires Linked(c) && id < |c|
    decreases |c| - id, |c[id].elements| + 1
  {
    Tree(c[id].name,
         match c[id].kind
         case BoolT => if c[id].value.Whole? then Flag(c[id].value.n) else Untyped
         case IntT => if c[id].value.Whole? then Number(c[id].value.n, false, Effective(c[id].format, fallback)) else Untyped
         case Int64T => if c[id].value.Whole? then Number(c[id].value.n, true, Effective(c[id].format, fallback)) else Untyped
         case FloatT => Decimal
         case StringT => if c[id].value.Text? then Words(c[id].value.s) else NoWords
         case ArrayT => ArrayOf(Contents(c, fallback, id, 0))
         case ListT => ListOf(Contents(c, fallback, id, 0))
         case GroupT => GroupOf(Contents(c, fallback, id, 0))
         case NoneT => Untyped)
  }

  function Contents(c: Config, fallback: Format, id: nat, k: nat): (r: seq<Tree>)
    requires Linked(c) && id < |c| && k <= |c[id].elements|
    ensures |r| == |c[id].elements| - k
    decreases |c| - id, |c[id].elements| - k
  {
    if k == |c[id].elements| then []
    else [Content(c, fallback, c[id].elements[k])] + Contents(c, fallback, id, k + 1)
  }

  lemma {:induction false} ContentsAt(c: Config, fallback: Format, id: nat, k: nat, i: nat)
    requires Linked(c) && id < |c| && k <= |c[id].elements| && i < |c[id].elements| - k
    ensures Contents(c, fallback, id, k)[i] == Content(c, fallback, c[id].elements[k + i])
    decreases i
  {
    hide Content;
    if i > 0 {
      ContentsAt(c, fallback, id, k + 1, i - 1);
    }
  }

  /** The contents of a setting depend on the settings from it on only. */
  lemma {:induction false} ContentLocal(c: Config, d: Config, fallback: Format, id: nat)
    requires Linked(c) && Linked(d) && id < |c| <= |d|
    requires forall j | id <= j < |c| :: d[j] == c[j]
    ensures Content(d, fallback, id) == Content(c, fallback, id)
    decreases |c| - id, |c[id].elements| + 1
  {
    hide Linked;
    ContentsLocal(c, d, fallback, id, 0);
  }

  lemma {:induction false} ContentsLocal(c: Config, d: Config, fallback: Format, id: nat, k: nat)
    requires Linked(c) && Linked(d) && id < |c| <= |d| && k <= |c[id].elements|
    requires forall j | id <= j < |c| :: d[j] == c[j]
    ensures Contents(d, fallback, id, k) == Contents(c, fallback, id, k)
    decreases |c| - id, |c[id].elements| - k
  {
    hide Content;
    if k < |c[id].elements| {
      ContentLocal(c, d, fallback, c[id].elements[k]);
      ContentsLocal(c, d, fallback, id, k + 1);
    }
  }

  // ---------- the text ----------

  /** The options of a configuration that change how it is written. */
  datatype Options = Options(semicolons: bool, colonGroups: bool, colonOthers: bool, braceLine: bool, tab: nat)

  function Repeat(c: char, n: nat): string {
    if n == 0 then "" else [c] + Repeat(c, n - 1)
  }

  /** `__config_indent`: a width of zero asks for tabs. */
  function Indent(o: Options, depth: nat): string {
    if depth <= 1 then "" else if o.tab > 0 then Repeat(' ', (depth - 1) * o.tab) else Repeat('\t', depth - 1)
  }

  /** Each level below the first is one tab, or as many blanks as the width says. */
  lemma IndentIs(o: Options, depth: nat)
    ensures var levels := if depth == 0 then 0 else depth - 1;
            |Indent(o, depth)| == (if o.tab == 0 then levels else levels * o.tab)
            && forall k | 0 <= k < |Indent(o, depth)| :: Indent(o, depth)[k] == if o.tab == 0 then '\t' else ' '
  {
    if depth > 1 {
      RepeatIs(' ', (depth - 1) * o.tab);
      RepeatIs('\t', depth - 1);
    }
  }

  lemma {:induction false} RepeatIs(c: char, n: nat)
    ensures |Repeat(c, n)| == n && forall k | 0 <= k < n :: Repeat(c, n)[k] == c
    decreases n
  {
    if n > 0 {
      RepeatIs(c, n - 1);
    }
  }

  function ValueText(b: Body, o: Options, depth: nat): string
    requires Written(b)
    decreases b
  {
    match b
    case Flag(n) => if n != 0 then "true" else "false"
    case Number(n, wide, format) => NumberText(n, wide, format)
    case Words(s) => Quoted(s)
    case NoWords => "\"\""
    case Decimal => ""
    case ArrayOf(items) => "[ " + (ItemsText(items, o, depth) + "]")
    case ListOf(items) => "( " + (ItemsText(items, o, depth) + ")")
    case GroupOf(items) => GroupStart(o, depth) + (SettingsText(items, o, depth + 1) + GroupEnd(o, depth))
    case Untyped => "???"
  }

  function GroupStart(o: Options, depth: nat): string {
    if depth == 0 then "" else (if o.braceLine then "\n" + Indent(o, depth) else "") + "{\n"
  }

  function GroupEnd(o: Options, depth: nat): string {
    if depth == 0 then "" else Indent(o, depth) + "}"
  }

  function ItemsText(items: seq<Tree>, o: Options, depth: nat): string
    requires AllWritten(items)
    decreases items
  {
    if |items| == 0 then ""
    else
      assert items[0].body < items[0];
      ValueText(items[0].body, o, depth + 1) + ((if |items| > 1 then ", " else " ") + ItemsText(items[1..], o, depth))
  }

  /** A name with its assignment character, behind the indentation. */
  function SettingStart(t: Tree, o: Options, depth: nat): string {
    Indent(o, depth)
    + if t.name.None? then ""
      else t.name.value + (if (if t.body.GroupOf? then o.colonGroups else o.colonOthers) then " : " else " = ")
  }

  /** A named setting starts with its indentation and its name; the colon stands in front of
      a group when the option for groups is on, and of any other value when the other one is. */
  lemma StartIs(name: string, b: Body, o: Options, depth: nat)
    ensures var s, n := SettingStart(Tree(Some(name), b), o, depth), |Indent(o, depth)|;
            |s| == n + |name| + 3 && s[..n] == Indent(o, depth) && s[n..n + |name|] == name
            && s[n + |name|] == ' ' && s[n + |name| + 2] == ' '
            && (s[n + |name| + 1] == ':' || s[n + |name| + 1] == '=')
            && (s[n + |name| + 1] == ':' <==> (b.GroupOf? && o.colonGroups) || (!b.GroupOf? && o.colonOthers))
  {
    hide Indent;
    var mark := if (if b.GroupOf? then o.colonGroups else o.colonOthers) then " : " else " = ";
    var s := Indent(o, depth) + (name + mark);
    assert s[|Indent(o, depth)|..] == name + mark;
    assert forall k | 0 <= k < 3 :: s[|Indent(o, depth)| + |name| + k] == mark[k];
  }

  function SettingEnd(o: Options, depth: nat): string {
    if depth == 0 then "" else if o.semicolons then ";\n" else "\n"
  }

  function SettingText(t: Tree, o: Options, depth: nat): string
    requires Written(t.body)
    decreases t
  {
    SettingStart(t, o, depth) + (ValueText(t.body, o, depth) + SettingEnd(o, depth))
  }

  function SettingsText(items: seq<Tree>, o: Options, depth: nat): string
    requires AllWritten(items)
    decreases items
  {
    if |items| == 0 then "" else SettingText(items[0], o, depth) + SettingsText(items[1..], o, depth)
  }

  /** The texts that are modelled: no floating-point numbers, and C strings of bytes. */
  predicate Written(b: Body)
    decreases b
  {
    match b
    case Words(s) => Bytes(s)
    case Decimal => false
    case ArrayOf(items) => AllWritten(items)
    case ListOf(items) => AllWritten(items)
    case GroupOf(items) => AllWritten(items)
    case _ => true
  }

  predicate AllWritten(items: seq<Tree>)
    decreases items
  {
    |items| > 0 ==>
      assert items[0].body < items[0];
      Written(items[0].body) && AllWritten(items[1..])
  }

  // ---------- the writer as it runs ----------

  method WriteIndent(o: Options, depth: nat) returns (out: string)
    requires depth > 1
    ensures out == Indent(o, depth)
  {
    out := "";
    var n := if o.tab > 0 then (depth - 1) * o.tab else depth - 1;
    var c := if o.tab > 0 then ' ' else '\t';
    for i := 0 to n
      invariant out + Repeat(c, n - i) == Repeat(c, n)
    {
      out := out + [c];
    }
  }

  /** `__config_write_value` */
  method WriteValue(c: Config, fallback: Format, o: Options, id: nat, depth: nat) returns (out: string)
    requires Linked(c) && id < |c| && Written(Content(c, fallback, id).body)
    ensures out == ValueText(Content(c, fallback, id).body, o, depth)
    decreases |c| - id, 1
  {
    hide Linked, NumberText, Quoted, ItemsText, SettingsText, Indent, Contents;
    var s := c[id];
    match s.kind
    case BoolT => out := if !s.value.Whole? then "???" else if s.value.n != 0 then "true" else "false";
    case IntT => out := if !s.value.Whole? then "???" else NumberText(s.value.n, false, Effective(s.format, fallback));
    case Int64T => out := if !s.value.Whole? then "???" else NumberText(s.value.n, true, Effective(s.format, fallback));
    case FloatT => out := "";
    case StringT =>
      if s.value.Text? {
        out := WriteString(s.value.s);
      } else {
        out := "\"\"";
      }
    case ArrayT =>
      var items := WriteItems(c, fallback, o, id, depth);
      out := "[ " + (items + "]");
    case ListT =>
      var items := WriteItems(c, fallback, o, id, depth);
      out := "( " + (items + ")");
    case GroupT =>
      out := WriteGroup(c, fallback, o, id, depth);
    case NoneT => out := "???";
  }

  method WriteItems(c: Config, fallback: Format, o: Options, id: nat, depth: nat) returns (out: string)
    requires Linked(c) && id < |c| && AllWritten(Contents(c, fallback, id, 0))
    ensures out == ItemsText(Contents(c, fallback, id, 0), o, depth)
    decreases |c| - id, 0
  {
    hide Content, ValueText, Contents, ItemsText, AllWritten, Written;
    out := "";
    var len := |c[id].elements|;
    ghost var all := ItemsText(Contents(c, fallback, id, 0), o, depth);
    for i := 0 to len
      invariant AllWritten(Contents(c, fallback, id, i))
      invariant out + ItemsText(Contents(c, fallback, id, i), o, depth) == all
    {
      ItemsStep(c, fallback, o, id, i, depth);
      var value := WriteValue(c, fallback, o, c[id].elements[i], depth + 1);
      Glue(out, value, if i + 1 < len then ", " else " ", ItemsText(Contents(c, fallback, id, i + 1), o, depth));
      out := out + value;
      if i + 1 < len {
        out := out + ",";
      }
      out := out + " ";
    }
    ItemsEnd(c, fallback, o, id, depth);
  }

  /** The first of the remaining elements, and the others. */
  lemma ItemsStep(c: Config, fallback: Format, o: Options, id: nat, i: nat, depth: nat)
    requires Linked(c) && id < |c| && i < |c[id].elements| && AllWritten(Contents(c, fallback, id, i))
    ensures AllWritten(Contents(c, fallback, id, i + 1)) && Written(Content(c, fallback, c[id].elements[i]).body)
    ensures ItemsText(Contents(c, fallback, id, i), o, depth) ==
            ValueText(Content(c, fallback, c[id].elements[i]).body, o, depth + 1)
            + ((if i + 1 < |c[id].elements| then ", " else " ") + ItemsText(Contents(c, fallback, id, i + 1), o, depth))
  {
    hide Content, ValueText, Linked, Written;
    assert Contents(c, fallback, id, i)[1..] == Contents(c, fallback, id, i + 1);
  }

  lemma ItemsEnd(c: Config, fallback: Format, o: Options, id: nat, depth: nat)
    requires Linked(c) && id < |c| && AllWritten(Contents(c, fallback, id, |c[id].elements|))
    ensures |ItemsText(Contents(c, fallback, id, |c[id].elements|), o, depth)| == 0
  {
  }

  lemma Glue(before: string, value: string, sep: string, rest: string)
    ensures before + (value + (sep + rest)) == before + value + sep + rest
    ensures sep == ", " ==> before + value + "," + " " == before + value + sep
  {
  }

  method WriteGroupStart(o: Options, depth: nat) returns (out: string)
    ensures out == GroupStart(o, depth)
  {
    hide Indent;
    IndentNone(o, depth);
    out := "";
    if depth > 0 {
      if o.braceLine {
        out := "\n";
        if depth > 1 {
          var indent := WriteIndent(o, depth);
          out := out + indent;
        }
      }
      out := out + "{\n";
    }
  }

  method WriteGroupEnd(o: Options, depth: nat) returns (out: string)
    ensures out == GroupEnd(o, depth)
  {
    hide Indent;
    IndentNone(o, depth);
    out := "";
    if depth > 1 {
      out := WriteIndent(o, depth);
    }
    if depth > 0 {
      out := out + "}";
    }
  }

  method WriteGroup(c: Config, fallback: Format, o: Options, id: nat, depth: nat) returns (out: string)
    requires Linked(c) && id < |c| && AllWritten(Contents(c, fallback, id, 0))
    ensures out == GroupStart(o, depth) + (SettingsText(Contents(c, fallback, id, 0), o, depth + 1) + GroupEnd(o, depth))
    decreases |c| - id, 0
  {
    hide Content, SettingText, Indent, GroupStart, GroupEnd;
    out := WriteGroupStart(o, depth);
    ghost var start := out;
    for i := 0 to |c[id].elements|
      invariant AllWritten(Contents(c, fallback, id, i))
      invariant out + SettingsText(Contents(c, fallback, id, i), o, depth + 1)
        == start + SettingsText(Contents(c, fallback, id, 0), o, depth + 1)
    {
      var setting := WriteSetting(c, fallback, o, c[id].elements[i], depth + 1);
      out := out + setting;
    }
    var end := WriteGroupEnd(o, depth);
    assert out == start + SettingsText(Contents(c, fallback, id, 0), o, depth + 1);
    out := out + end;
  }

  lemma IndentNone(o: Options, depth: nat)
    ensures depth <= 1 ==> Indent(o, depth) == ""
  {
  }

  /** `__config_write_setting` */
  method WriteSetting(c: Config, fallback: Format, o: Options, id: nat, depth: nat) returns (out: string)
    requires Linked(c) && id < |c| && Written(Content(c, fallback, id).body)
    ensures out == SettingText(Content(c, fallback, id), o, depth)
    decreases |c| - id, 2
  {
    hide Linked, ValueText, Indent, Contents, Written;
    out := "";
    if depth > 1 {
      out := WriteIndent(o, depth);
    }
    IndentNone(o, depth);
    if c[id].name.Some? {
      out := out + c[id].name.value;
      var assign := if (if c[id].kind == GroupT then o.colonGroups else o.colonOthers) then " : " else " = ";
      out := out + assign;
    }
    assert out == SettingStart(Content(c, fallback, id), o, depth);
    var value := WriteValue(c, fallback, o, id, depth);
    out := out + value;
    if depth > 0 {
      if o.semicolons {
        out := out + ";";
      }
      out := out + "\n";
    }
  }

  /** `config_write` */
  method Write(c: Config, fallback: Format, o: Options) returns (out: string)
    requires Linked(c) && Written(Content(c, fallback, 0).body)
    ensures out == SettingText(Content(c, fallback, 0), o, 0)
  {
    out := WriteSetting(c, fallback, o, 0, 0);
  }
}
