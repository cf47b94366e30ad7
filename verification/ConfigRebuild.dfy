/** The parser's actions rebuild a tree from its syntax. */
module ConfigRebuild {
  import opened ConfigTree
  import opened ConfigParser
  import opened ConfigScanner
  import opened ConfigSyntax
  import opened ConfigWriter
  import opened Optional

  // ---------- trees that can be read back ----------

  /** The type of a setting with this body. */
  function KindOf(b: Body): Kind {
    match b
    case Flag(_) => BoolT
    case Number(_, wide, _) => if wide then Int64T else IntT
    case Words(_) => StringT
    case NoWords => StringT
    case Decimal => FloatT
    case ArrayOf(_) => ArrayT
    case ListOf(_) => ListT
    case GroupOf(_) => GroupT
    case Untyped => NoneT
  }

  predicate ScalarBody(b: Body) {
    b.Flag? || b.Number? || b.Words?
  }

  predicate Nameless(items: seq<Tree>) {
    forall k | 0 <= k < |items| :: items[k].name.None?
  }

  /** Scalars of one type. */
  predicate Uniform(items: seq<Tree>) {
    forall k | 0 <= k < |items| :: ScalarBody(items[k].body) && KindOf(items[k].body) == KindOf(items[0].body)
  }

  /** Names the scanner returns as names, each of them once. */
  predicate Names(items: seq<Tree>) {
    (forall k | 0 <= k < |items| :: items[k].name.Some? && ValidName(items[k].name.value) && !IsBoolean(items[k].name.value))
    && forall j, k | 0 <= j < k < |items| :: items[j].name != items[k].name
  }

  /** What the grammar can express. The widths of numbers and the bytes of strings
      are those of the C types. */
  predicate Readable(b: Body)
    decreases b
  {
    match b
    case Flag(n) => n == 0 || n == 1
    case Number(n, wide, _) => InWidth(n, wide)
    case Words(s) => Bytes(s)
    case ArrayOf(items) => Nameless(items) && Uniform(items) && AllReadable(items)
    case ListOf(items) => Nameless(items) && AllReadable(items)
    case GroupOf(items) => Names(items) && AllReadable(items)
    case _ => false
  }

  predicate AllReadable(items: seq<Tree>)
    decreases items
  {
    |items| > 0 ==>
      assert items[0].body < items[0];
      Readable(items[0].body) && AllReadable(items[1..])
  }

  /** The syntax of a body; every setting ends in the separator of the options. */
  function Syntax(b: Body, end: Terminator): Val
    decreases b
  {
    match b
    case Flag(n) => Plain(BooleanTok(n != 0))
    case Number(n, wide, format) => Plain(IntToken(n, wide, format))
    case Words(s) => Strings([s])
    case ArrayOf(items) => Arr(ItemsSyntax(items, end))
    case ListOf(items) => Lst(ItemsSyntax(items, end))
    case GroupOf(items) => Grp(FieldsSyntax(items, end))
    case _ => Strings([])
  }

  function ItemsSyntax(items: seq<Tree>, end: Terminator): (r: seq<Val>)
    ensures |r| == |items|
    decreases items
  {
    if |items| == 0 then []
    else
      assert items[0].body < items[0];
      [Syntax(items[0].body, end)] + ItemsSyntax(items[1..], end)
  }

  function FieldsSyntax(items: seq<Tree>, end: Terminator): (r: seq<Field>)
    ensures |r| == |items|
    decreases items
  {
    if |items| == 0 then []
    else
      assert items[0].body < items[0];
      [Field(if items[0].name.Some? then items[0].name.value else "", Syntax(items[0].body, end), end)]
      + FieldsSyntax(items[1..], end)
  }

  // ---------- how the settings grow ----------

  /** A new setting joins those of `p`; nothing else changes. */
  predicate Opens(c: Config, d: Config, p: nat, node: Setting) {
    Linked(c) && Linked(d) && p < |c| && |d| == |c| + 1
    && d[p] == c[p].(elements := c[p].elements + [|c|]) && d[|c|] == node
    && forall j | 0 <= j < |c| && j != p :: d[j] == c[j]
  }

  /** A new setting with all its contents joins those of `p`. */
  predicate Grown(c: Config, d: Config, p: nat, t: Tree) {
    Linked(c) && Linked(d) && p < |c| < |d|
    && d[p] == c[p].(elements := c[p].elements + [|c|])
    && (forall j | 0 <= j < |c| && j != p :: d[j] == c[j])
    && Content(d, DefaultFormat, |c|) == t
  }

  /** New settings with these contents join those of `p`. */
  predicate Filled(c: Config, d: Config, p: nat, items: seq<Tree>) {
    Linked(c) && Linked(d) && p < |c| <= |d|
    && |d[p].elements| == |c[p].elements| + |items| && d[p] == c[p].(elements := d[p].elements)
    && c[p].elements == d[p].elements[..|c[p].elements|]
    && (forall j | 0 <= j < |c| && j != p :: d[j] == c[j])
    && Contents(d, DefaultFormat, p, |c[p].elements|) == items
  }

  lemma OpensScalar(c: Config, d: Config, p: nat, node: Setting, b: Body)
    requires Opens(c, d, p, node) && |node.elements| == 0 && ScalarBody(b)
    requires node.kind == KindOf(b) && node.value == ScalarOf(b) && node.format == FormatOf(b)
    ensures Grown(c, d, p, Tree(node.name, b))
  {
  }

  lemma OpensFilled(c: Config, d: Config, e: Config, p: nat, node: Setting, b: Body, items: seq<Tree>)
    requires Opens(c, d, p, node) && |node.elements| == 0 && Filled(d, e, |c|, items)
    requires (b == ArrayOf(items) || b == ListOf(items) || b == GroupOf(items)) && node.kind == KindOf(b)
    ensures Grown(c, e, p, Tree(node.name, b))
  {
    hide Linked, Contents;
  }

  lemma FilledNone(c: Config, p: nat)
    requires Linked(c) && p < |c|
    ensures Filled(c, c, p, [])
  {
  }

  lemma FilledMore(c: Config, d: Config, e: Config, p: nat, t: Tree, more: seq<Tree>)
    requires Grown(c, d, p, t) && Filled(d, e, p, more)
    ensures Filled(c, e, p, [t] + more)
  {
    hide Linked, Content;
    ContentFirst(c, d, e, p);
    var n := |c[p].elements|;
    assert e[p].elements[n] == d[p].elements[n] == |c|;
    assert Contents(e, DefaultFormat, p, n) == [Content(e, DefaultFormat, |c|)] + Contents(e, DefaultFormat, p, n + 1);
  }

  lemma ContentFirst(c: Config, d: Config, e: Config, p: nat)
    requires Linked(d) && Linked(e) && p < |c| < |d| <= |e|
    requires forall j | 0 <= j < |d| && j != p :: e[j] == d[j]
    ensures Content(e, DefaultFormat, |c|) == Content(d, DefaultFormat, |c|)
  {
    ContentLocal(d, e, DefaultFormat, |c|);
  }

  // ---------- scalars ----------

  function ScalarOf(b: Body): Scalar {
    match b
    case Flag(n) => Whole(n)
    case Number(n, _, _) => Whole(n)
    case Words(s) => Text(s)
    case _ => Unset
  }

  function FormatOf(b: Body): Format {
    if b.Number? then b.format else DefaultFormat
  }

  /** The actions of a scalar put it with its type, value and format. */
  lemma ScalarActs(b: Body, end: Terminator, ctx: Context)
    requires ScalarBody(b) && Readable(b) && InRange(ctx) && ctx.text == None
    ensures DoVal(Syntax(b, end), ctx) == PutScalar(ctx, KindOf(b), ScalarOf(b), FormatOf(b))
  {
    hide PutScalar;
    if b.Words? {
      var parts := [b.s];
      assert parts[1..] == [] && "" + b.s == b.s;
      var more := ctx.(text := Some(b.s));
      assert AppendText(ctx, Some(StringTok(b.s))) == Next(more);
      assert DoStrings(parts, ctx) == DoStrings([], more);
      assert more.(text := None) == ctx;
    }
  }

  // ---------- places ----------

  /** Behind a name in group `p`. */
  predicate AtName(c: Config, ctx: Context, p: nat, name: string) {
    InRange(ctx) && ctx.parent == Some(p) && ctx.text == None && ctx.setting == Some(|c|)
    && Opens(c, ctx.config, p, Setting(Some(name), NoneT, DefaultFormat, Unset, [], Some(p))) && c[p].kind == GroupT
  }

  /** In a list, or in an array that admits the kind. */
  predicate AtItem(c: Config, ctx: Context, p: nat, kind: Kind) {
    InRange(ctx) && ctx.config == c && ctx.parent == Some(p) && ctx.text == None
    && (c[p].kind == ListT || (c[p].kind == ArrayT && CheckType(c, p, kind) && kind in {BoolT, IntT, Int64T, StringT}))
  }

  predicate At(c: Config, ctx: Context, p: nat, name: Option<string>, kind: Kind) {
    if name.Some? then AtName(c, ctx, p, name.value) else AtItem(c, ctx, p, kind)
  }

  /** The value has been built, and the parser is back in `p`. */
  predicate Built(c: Config, done: Done, p: nat, t: Tree) {
    done.Next? && InRange(done.ctx) && done.ctx.parent == Some(p) && done.ctx.text == None && Grown(c, done.ctx.config, p, t)
  }

  lemma PutBuilds(c: Config, ctx: Context, p: nat, name: Option<string>, b: Body)
    requires At(c, ctx, p, name, KindOf(b)) && ScalarBody(b)
    ensures Built(c, PutScalar(ctx, KindOf(b), ScalarOf(b), FormatOf(b)), p, Tree(name, b))
  {
    hide Linked, Grown;
    var done := PutScalar(ctx, KindOf(b), ScalarOf(b), FormatOf(b));
    var node := Setting(name, KindOf(b), FormatOf(b), ScalarOf(b), [], Some(p));
    if name.Some? {
      PutNamed(c, ctx, p, b, node);
    } else {
      PutUnnamed(c, ctx, p, b, node);
    }
    OpensScalar(c, done.ctx.config, p, node, b);
  }

  lemma PutNamed(c: Config, ctx: Context, p: nat, b: Body, node: Setting)
    requires node.name.Some? && AtName(c, ctx, p, node.name.value) && ScalarBody(b)
    requires node == Setting(node.name, KindOf(b), FormatOf(b), ScalarOf(b), [], Some(p))
    ensures var done := PutScalar(ctx, KindOf(b), ScalarOf(b), FormatOf(b));
            done.Next? && InRange(done.ctx) && done.ctx.parent == ctx.parent && done.ctx.text == ctx.text
            && Opens(c, done.ctx.config, p, node)
  {
    var d := SetScalar(ctx.config, |c|, KindOf(b), ScalarOf(b), FormatOf(b));
    assert ctx.config[p].kind == GroupT;
  }

  lemma PutUnnamed(c: Config, ctx: Context, p: nat, b: Body, node: Setting)
    requires AtItem(c, ctx, p, KindOf(b)) && ScalarBody(b)
    requires node == Setting(None, KindOf(b), FormatOf(b), ScalarOf(b), [], Some(p))
    ensures var done := PutScalar(ctx, KindOf(b), ScalarOf(b), FormatOf(b));
            done.Next? && InRange(done.ctx) && done.ctx.parent == ctx.parent && done.ctx.text == ctx.text
            && Opens(c, done.ctx.config, p, node)
  {
    CreateLinked(c, p, None, KindOf(b));
    assert CheckType(c, p, KindOf(b));
  }

  /** An array, a list or a group opens. */
  lemma OpenBuilds(c: Config, ctx: Context, p: nat, name: Option<string>, kind: Kind)
    requires At(c, ctx, p, name, kind) && IsAggregate(kind)
    ensures var start := Open(ctx, kind);
            start.Next? && InRange(start.ctx) && start.ctx.parent == Some(|c|) && start.ctx.text == None
            && Opens(c, start.ctx.config, p, Setting(name, kind, DefaultFormat, Unset, [], Some(p)))
  {
    if name.None? {
      CreateLinked(c, p, None, kind);
    }
  }

  /** ... and closes: the parser returns to the parent. */
  lemma CloseBuilds(c: Config, d: Config, ctx: Context, p: nat, node: Setting, b: Body, items: seq<Tree>)
    requires Opens(c, d, p, node) && |node.elements| == 0 && node.parent == Some(p)
    requires (b == ArrayOf(items) || b == ListOf(items) || b == GroupOf(items)) && node.kind == KindOf(b)
    requires InRange(ctx) && ctx.parent == Some(|c|) && ctx.text == None && Filled(d, ctx.config, |c|, items)
    ensures Built(c, Next(Close(ctx)), p, Tree(node.name, b))
  {
    hide Linked, Contents, Content;
    OpensFilled(c, d, ctx.config, p, node, b, items);
  }

  // ---------- whole values ----------

  /** The elements have been built in `n`, and the parser is still there. */
  predicate BuiltAll(ctx: Context, done: Done, n: nat, items: seq<Tree>) {
    InRange(ctx) && done.Next? && InRange(done.ctx) && done.ctx.parent == Some(n) && done.ctx.text == None
    && Filled(ctx.config, done.ctx.config, n, items)
  }

  predicate Inside(ctx: Context, n: nat, kind: Kind) {
    InRange(ctx) && ctx.parent == Some(n) && ctx.text == None && ctx.config[n].kind == kind
  }

  /** The elements of an array agree in type with the first one it has. */
  predicate Admits(ctx: Context, n: nat, items: seq<Tree>) {
    Inside(ctx, n, ArrayT) && Uniform(items) && (|items| > 0 ==> CheckType(ctx.config, n, KindOf(items[0].body)))
  }

  /** The new names are not taken yet. */
  predicate Apart(ctx: Context, n: nat, items: seq<Tree>) {
    Inside(ctx, n, GroupT) && Names(items)
    && forall i, k | 0 <= i < |items| && 0 <= k < |ctx.config[n].elements| ::
         var other := ctx.config[ctx.config[n].elements[k]].name;
         other.Some? && ValidName(other.value) && other != items[i].name
  }

  lemma BuiltFirst(ctx: Context, mid: Context, done: Done, n: nat, items: seq<Tree>)
    requires |items| > 0 && InRange(ctx) && Built(ctx.config, Next(mid), n, items[0]) && BuiltAll(mid, done, n, items[1..])
    ensures BuiltAll(ctx, done, n, items)
  {
    hide Filled, Grown, Linked;
    FilledMore(ctx.config, mid.config, done.ctx.config, n, items[0], items[1..]);
    assert [items[0]] + items[1..] == items;
  }

  lemma BuiltNone(ctx: Context, n: nat)
    requires InRange(ctx) && ctx.parent == Some(n) && ctx.text == None
    ensures BuiltAll(ctx, Next(ctx), n, [])
  {
    FilledNone(ctx.config, n);
  }

  /** The kind of a node is that of its contents. */
  lemma ContentKind(c: Config, id: nat, b: Body)
    requires Linked(c) && id < |c| && Content(c, DefaultFormat, id).body == b && ScalarBody(b)
    ensures c[id].kind == KindOf(b)
  {
    hide Contents;
  }

  lemma StillAdmits(ctx: Context, mid: Context, n: nat, items: seq<Tree>)
    requires |items| > 0 && Admits(ctx, n, items) && Built(ctx.config, Next(mid), n, items[0])
    ensures Admits(mid, n, items[1..])
  {
    hide Content;
    var c, d := ctx.config, mid.config;
    ContentKind(d, |c|, items[0].body);
    assert d[d[n].elements[0]].kind == KindOf(items[0].body);
    assert |items| > 1 ==> KindOf(items[1].body) == KindOf(items[0].body);
  }

  lemma StillApart(ctx: Context, mid: Context, n: nat, items: seq<Tree>)
    requires |items| > 0 && Apart(ctx, n, items) && Built(ctx.config, Next(mid), n, items[0])
    ensures Apart(mid, n, items[1..])
  {
    hide Content, ValidName, IsBoolean;
    var c, d := ctx.config, mid.config;
    var more := items[1..];
    GrownName(c, d, n, items[0]);
    forall i, k | 0 <= i < |more| && 0 <= k < |d[n].elements|
      ensures var other := d[d[n].elements[k]].name;
              other.Some? && ValidName(other.value) && other != more[i].name
    {
      assert more[i] == items[i + 1];
      if k < |c[n].elements| {
        assert d[n].elements[k] == c[n].elements[k];
      } else {
        assert d[n].elements[k] == |c|;
      }
    }
  }

  lemma GrownName(c: Config, d: Config, n: nat, t: Tree)
    requires Grown(c, d, n, t)
    ensures d[|c|].name == t.name
  {
  }

  /** A name that is not taken is accepted. */
  lemma NameFree(ctx: Context, n: nat, items: seq<Tree>)
    requires |items| > 0 && Apart(ctx, n, items)
    ensures var name := items[0].name.value;
            var done := NewSetting(ctx, name);
            done.Next? && AtName(ctx.config, done.ctx, n, name)
  {
    hide Names;
    var c := ctx.config;
    assert Names(items) && items[0].name.Some? && ValidName(items[0].name.value) by { NamesFirst(items); }
    NoSuchMember(c, n, items[0].name.value, 0);
    CreateLinked(c, n, items[0].name, NoneT);
  }

  lemma NamesFirst(items: seq<Tree>)
    requires |items| > 0 && Names(items)
    ensures items[0].name.Some? && ValidName(items[0].name.value)
  {
  }

  lemma {:induction false} NoSuchMember(c: Config, n: nat, name: string, i: nat)
    requires Linked(c) && n < |c| && i <= |c[n].elements| && ValidName(name)
    requires forall k | 0 <= k < |c[n].elements| ::
               var other := c[c[n].elements[k]].name; other.Some? && ValidName(other.value) && other != Some(name)
    ensures Search(c, c[n].elements, name, i).None?
    decreases |c[n].elements| - i
  {
    if i < |c[n].elements| {
      var other := c[c[n].elements[i]].name.value;
      ValidChars(name);
      ValidChars(other);
      ValidNameIsHead(name);
      ValidNameIsHead(other);
      NoSuchMember(c, n, name, i + 1);
    }
  }

  lemma ValidChars(name: string)
    requires ValidName(name)
    ensures forall k | 0 <= k < |name| :: NameChar(name[k])
  {
  }

  /** The brackets of a value run the same actions as the rules. */
  lemma BracketActs(b: Body, end: Terminator, ctx: Context)
    requires InRange(ctx)
    ensures b.ArrayOf? ==> DoVal(Syntax(b, end), ctx) == DoBracket(Open(ctx, ArrayT), ItemsSyntax(b.items, end))
    ensures b.ListOf? ==> DoVal(Syntax(b, end), ctx) == DoBracket(Open(ctx, ListT), ItemsSyntax(b.items, end))
    ensures b.GroupOf? ==>
              (var start := Open(ctx, GroupT);
               DoVal(Syntax(b, end), ctx) == if start.Next? then Ended(DoFields(FieldsSyntax(b.items, end), start.ctx)) else start)
  {
    hide DoBracket, DoFields, Open;
  }

  lemma {:induction false} ValueMeans(b: Body, end: Terminator, c: Config, ctx: Context, p: nat, name: Option<string>)
    requires Readable(b) && At(c, ctx, p, name, KindOf(b))
    ensures Built(c, DoVal(Syntax(b, end), ctx), p, Tree(name, b))
    decreases b, 2
  {
    hide Syntax, ItemsSyntax, FieldsSyntax, DoVal, DoItems, DoFields, Linked, Built, Opens, Open, Close, Filled, PutScalar, AtName, AtItem;
    AtRange(c, ctx, p, name, KindOf(b));
    if ScalarBody(b) {
      ScalarActs(b, end, ctx);
      PutBuilds(c, ctx, p, name, b);
    } else {
      var kind := KindOf(b);
      BracketActs(b, end, ctx);
      OpenBuilds(c, ctx, p, name, kind);
      var start := Open(ctx, kind).ctx;
      var node := Setting(name, kind, DefaultFormat, Unset, [], Some(p));
      OpenedInside(c, start, p, node);
      if b.GroupOf? {
        OpenedApart(start, |c|, b.items);
        FieldsMean(b.items, end, start, |c|);
        CloseBuilds(c, start.config, DoFields(FieldsSyntax(b.items, end), start).ctx, p, node, b, b.items);
      } else {
        if b.ArrayOf? {
          OpenedAdmits(start, |c|, b.items);
        }
        ItemsMean(b.items, end, start, |c|);
        CloseBuilds(c, start.config, DoItems(ItemsSyntax(b.items, end), start).ctx, p, node, b, b.items);
      }
    }
  }

  lemma AtRange(c: Config, ctx: Context, p: nat, name: Option<string>, kind: Kind)
    requires At(c, ctx, p, name, kind)
    ensures InRange(ctx) && ctx.text == None
  {
  }

  lemma OpenedInside(c: Config, start: Context, p: nat, node: Setting)
    requires InRange(start) && start.parent == Some(|c|) && start.text == None && Opens(c, start.config, p, node) && |node.elements| == 0
    ensures Inside(start, |c|, node.kind) && |start.config[|c|].elements| == 0
  {
  }

  lemma OpenedApart(start: Context, n: nat, items: seq<Tree>)
    requires Inside(start, n, GroupT) && |start.config[n].elements| == 0 && Names(items)
    ensures Apart(start, n, items)
  {
  }

  lemma OpenedAdmits(start: Context, n: nat, items: seq<Tree>)
    requires Inside(start, n, ArrayT) && |start.config[n].elements| == 0 && Uniform(items)
    ensures Admits(start, n, items)
  {
  }

  lemma ItemsStep(items: seq<Tree>, end: Terminator, ctx: Context)
    requires |items| > 0 && InRange(ctx)
    ensures DoItems(ItemsSyntax(items, end), ctx) ==
      match DoVal(Syntax(items[0].body, end), ctx)
      case Next(more) => DoItems(ItemsSyntax(items[1..], end), more)
      case Abort(p) => Abort(p)
      case Crash => Crash
  {
    hide DoVal, Syntax;
    var all := ItemsSyntax(items, end);
    assert all[0] == Syntax(items[0].body, end) && all[1..] == ItemsSyntax(items[1..], end);
  }

  lemma {:induction false} ItemsMean(items: seq<Tree>, end: Terminator, ctx: Context, n: nat)
    requires AllReadable(items) && Nameless(items) && (Inside(ctx, n, ListT) || Admits(ctx, n, items))
    ensures BuiltAll(ctx, DoItems(ItemsSyntax(items, end), ctx), n, items)
    decreases items, 1
  {
    hide Readable, DoVal, DoItems, ItemsSyntax, Syntax, Linked, Built, BuiltAll, ScalarBody;
    if |items| == 0 {
      BuiltNone(ctx, n);
      NoItems(items, end, ctx);
    } else {
      var b := items[0].body;
      assert b < items[0];
      ItemsStep(items, end, ctx);
      ItemAt(items, ctx, n);
      ValueMeans(b, end, ctx.config, ctx, n, None);
      var mid := DoVal(Syntax(b, end), ctx);
      BuiltContext(ctx.config, mid, n, items[0]);
      assert items[0] == Tree(None, b);
      if ctx.config[n].kind == ArrayT {
        StillAdmits(ctx, mid.ctx, n, items);
      }
      ItemsMean(items[1..], end, mid.ctx, n);
      BuiltFirst(ctx, mid.ctx, DoItems(ItemsSyntax(items[1..], end), mid.ctx), n, items);
    }
  }

  lemma NoItems(items: seq<Tree>, end: Terminator, ctx: Context)
    requires |items| == 0 && InRange(ctx)
    ensures DoItems(ItemsSyntax(items, end), ctx) == Next(ctx) && DoFields(FieldsSyntax(items, end), ctx) == Next(ctx) && items == []
  {
  }

  lemma ItemAt(items: seq<Tree>, ctx: Context, n: nat)
    requires |items| > 0 && (Inside(ctx, n, ListT) || Admits(ctx, n, items))
    ensures At(ctx.config, ctx, n, None, KindOf(items[0].body))
  {
    if ctx.config[n].kind == ArrayT {
      assert ScalarBody(items[0].body);
    }
  }

  lemma BuiltContext(c: Config, done: Done, n: nat, t: Tree)
    requires Built(c, done, n, t)
    ensures done.Next? && InRange(done.ctx) && done.ctx.parent == Some(n) && done.ctx.text == None
    ensures n < |c| && done.ctx.config[n].kind == c[n].kind
  {
    hide Linked, Content;
  }

  lemma FieldsStep(items: seq<Tree>, end: Terminator, ctx: Context)
    requires |items| > 0 && InRange(ctx) && items[0].name.Some?
    ensures DoFields(FieldsSyntax(items, end), ctx) ==
      match NewSetting(ctx, items[0].name.value)
      case Next(named) =>
        (match DoVal(Syntax(items[0].body, end), named)
         case Next(more) => DoFields(FieldsSyntax(items[1..], end), more)
         case Abort(p) => Abort(p)
         case Crash => Crash)
      case Abort(p) => Abort(p)
      case Crash => Crash
  {
    hide DoVal, Syntax, NewSetting;
    var all := FieldsSyntax(items, end);
    assert all[0] == Field(items[0].name.value, Syntax(items[0].body, end), end) && all[1..] == FieldsSyntax(items[1..], end);
  }

  lemma {:induction false} FieldsMean(items: seq<Tree>, end: Terminator, ctx: Context, n: nat)
    requires AllReadable(items) && Apart(ctx, n, items)
    ensures BuiltAll(ctx, DoFields(FieldsSyntax(items, end), ctx), n, items)
    decreases items, 1
  {
    hide Readable, DoVal, DoFields, FieldsSyntax, Syntax, Linked, Built, BuiltAll, NewSetting, AtName, Names;
    if |items| == 0 {
      BuiltNone(ctx, n);
      NoItems(items, end, ctx);
    } else {
      var b := items[0].body;
      assert b < items[0];
      NamesFirst(items);
      FieldsStep(items, end, ctx);
      NameFree(ctx, n, items);
      var named := NewSetting(ctx, items[0].name.value).ctx;
      ValueMeans(b, end, ctx.config, named, n, items[0].name);
      var mid := DoVal(Syntax(b, end), named);
      BuiltContext(ctx.config, mid, n, items[0]);
      assert items[0] == Tree(items[0].name, b);
      StillApart(ctx, mid.ctx, n, items);
      FieldsMean(items[1..], end, mid.ctx, n);
      BuiltFirst(ctx, mid.ctx, DoFields(FieldsSyntax(items[1..], end), mid.ctx), n, items);
    }
  }
}
