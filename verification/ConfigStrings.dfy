/** Adjacent strings: a value in several parts means the same as its parts put together. */
module ConfigStrings {
  import opened ConfigTables
  import opened ConfigTree
  import opened ConfigParser
  import opened ConfigSyntax
  import opened ConfigDepth
  import opened ConfigWriter
  import opened ConfigRebuild
  import opened ConfigRoundTrip
  import opened Optional

  /** The parts of a string one after the other. */
  function Joined(parts: seq<string>): string {
    if |parts| == 0 then "" else parts[0] + Joined(parts[1..])
  }

  /** The syntax of a value with each string in one part, and all terminators alike. */
  function Merged(v: Val, end: Terminator): Val
    decreases v
  {
    match v
    case Plain(_) => v
    case Strings(parts) => if |parts| == 0 then v else Strings([Joined(parts)])
    case Arr(items) => Arr(MergedItems(items, end))
    case Lst(items) => Lst(MergedItems(items, end))
    case Grp(fields) => Grp(MergedFields(fields, end))
  }

  function MergedItems(items: seq<Val>, end: Terminator): (r: seq<Val>)
    ensures |r| == |items|
    ensures forall k | 0 <= k < |items| :: r[k] == Merged(items[k], end)
    decreases items
  {
    if |items| == 0 then [] else [Merged(items[0], end)] + MergedItems(items[1..], end)
  }

  function MergedFields(fields: seq<Field>, end: Terminator): (r: seq<Field>)
    ensures |r| == |fields|
    ensures forall k | 0 <= k < |fields| :: r[k] == Field(fields[k].name, Merged(fields[k].value, end), end)
    decreases fields
  {
    if |fields| == 0 then []
    else [Field(fields[0].name, Merged(fields[0].value, end), end)] + MergedFields(fields[1..], end)
  }

  // ---------- the actions ----------

  /** The actions of a string put all of it, behind what has been collected already. */
  lemma {:induction false} StringsAct(parts: seq<string>, ctx: Context)
    requires InRange(ctx) && (|parts| > 0 || ctx.text.Some?)
    ensures DoStrings(parts, ctx) ==
      PutScalar(ctx.(text := None), StringT, Text((if ctx.text.Some? then ctx.text.value else "") + Joined(parts)), DefaultFormat)
    decreases parts
  {
    hide PutScalar;
    var before := if ctx.text.Some? then ctx.text.value else "";
    if |parts| == 0 {
      assert before + Joined(parts) == before;
    } else {
      var more := ctx.(text := Some(before + parts[0]));
      assert AppendText(ctx, Some(StringTok(parts[0]))) == Next(more);
      StringsAct(parts[1..], more);
      assert before + parts[0] + Joined(parts[1..]) == before + Joined(parts);
    }
  }

  lemma MergedStrings(parts: seq<string>, ctx: Context)
    requires InRange(ctx) && |parts| > 0
    ensures DoStrings([Joined(parts)], ctx) == DoStrings(parts, ctx)
  {
    hide DoStrings, PutScalar, Joined;
    StringsAct(parts, ctx);
    StringsAct([Joined(parts)], ctx);
    JoinedOne(Joined(parts));
  }

  lemma JoinedOne(s: string)
    ensures Joined([s]) == s
  {
    assert [s][1..] == [] && s + "" == s;
  }

  /** The actions do not see how a string is split. */
  lemma {:induction false} MergedActs(v: Val, end: Terminator, ctx: Context)
    requires InRange(ctx)
    ensures DoVal(Merged(v, end), ctx) == DoVal(v, ctx)
    decreases v, 2
  {
    hide Semantic, DoStrings, DoItems, DoFields, MergedItems, MergedFields, Joined;
    match v
    case Plain(_) =>
    case Strings(parts) => if |parts| > 0 { MergedStrings(parts, ctx); }
    case Arr(items) => MergedBracket(Semantic(13, ctx, None), items, end);
    case Lst(items) => MergedBracket(Semantic(15, ctx, None), items, end);
    case Grp(fields) =>
      var start := Semantic(38, ctx, None);
      if start.Next? {
        MergedFieldsAct(fields, end, start.ctx);
      }
  }

  lemma MergedBracket(start: Done, items: seq<Val>, end: Terminator)
    requires start.Next? ==> InRange(start.ctx)
    ensures DoBracket(start, MergedItems(items, end)) == DoBracket(start, items)
    decreases items, 3
  {
    hide DoItems, MergedItems;
    if start.Next? {
      MergedItemsAct(items, end, start.ctx);
    }
  }

  lemma {:induction false} MergedItemsAct(items: seq<Val>, end: Terminator, ctx: Context)
    requires InRange(ctx)
    ensures DoItems(MergedItems(items, end), ctx) == DoItems(items, ctx)
    decreases items, 1
  {
    hide DoVal, Merged;
    if |items| > 0 {
      MergedActs(items[0], end, ctx);
      var done := DoVal(items[0], ctx);
      assert MergedItems(items, end)[1..] == MergedItems(items[1..], end);
      if done.Next? {
        MergedItemsAct(items[1..], end, done.ctx);
      }
    }
  }

  lemma {:induction false} MergedFieldsAct(fields: seq<Field>, end: Terminator, ctx: Context)
    requires InRange(ctx)
    ensures DoFields(MergedFields(fields, end), ctx) == DoFields(fields, ctx)
    decreases fields, 1
  {
    hide DoVal, Merged, NewSetting;
    if |fields| > 0 {
      var f := fields[0];
      var named := NewSetting(ctx, f.name);
      if named.Next? {
        MergedActs(f.value, end, named.ctx);
      }
      assert DoField(MergedFields(fields, end)[0], ctx) == DoField(f, ctx);
      var done := DoField(f, ctx);
      assert MergedFields(fields, end)[1..] == MergedFields(fields[1..], end);
      if done.Next? {
        MergedFieldsAct(fields[1..], end, done.ctx);
      }
    }
  }

  // ---------- form and height ----------

  lemma {:induction false} MergedFormed(v: Val, end: Terminator)
    requires Formed(v)
    ensures Formed(Merged(v, end)) && (Simple(v) ==> Simple(Merged(v, end)))
    decreases v
  {
    match v
    case Plain(_) =>
    case Strings(_) =>
    case Arr(items) =>
      forall k | 0 <= k < |items| ensures Simple(Merged(items[k], end)) {
        assert Simple(items[k]);
      }
    case Lst(items) =>
      forall k | 0 <= k < |items| ensures Formed(Merged(items[k], end)) {
        MergedFormed(items[k], end);
      }
    case Grp(fields) =>
      forall k | 0 <= k < |fields| ensures Formed(Merged(fields[k].value, end)) {
        MergedFormed(fields[k].value, end);
      }
  }

  lemma MergedAllFormed(fields: seq<Field>, end: Terminator)
    requires AllFormed(fields)
    ensures AllFormed(MergedFields(fields, end))
  {
    hide Formed, Merged;
    forall k | 0 <= k < |fields| ensures Formed(Merged(fields[k].value, end)) {
      MergedFormed(fields[k].value, end);
    }
  }

  lemma {:induction false} MergedPeak(v: Val, end: Terminator)
    ensures Peak(Merged(v, end)) <= Peak(v)
    decreases v, 1
  {
    hide ElementsPeak, FieldsPeak, MergedItems, MergedFields, Joined;
    match v
    case Plain(_) =>
    case Strings(_) =>
    case Arr(items) => MergedItemsPeak(items, end, true);
    case Lst(items) => MergedItemsPeak(items, end, true);
    case Grp(fields) => MergedFieldsPeak(fields, end, true);
  }

  lemma {:induction false} MergedItemsPeak(items: seq<Val>, end: Terminator, first: bool)
    ensures ElementsPeak(MergedItems(items, end), first) <= ElementsPeak(items, first)
    decreases items, 0
  {
    hide Peak, Merged;
    if |items| > 0 {
      MergedPeak(items[0], end);
      assert MergedItems(items, end)[1..] == MergedItems(items[1..], end);
      MergedItemsPeak(items[1..], end, false);
    }
  }

  lemma {:induction false} MergedFieldsPeak(fields: seq<Field>, end: Terminator, first: bool)
    ensures FieldsPeak(MergedFields(fields, end), first) <= FieldsPeak(fields, first)
    decreases fields, 0
  {
    hide Peak, Merged;
    if |fields| > 0 {
      MergedPeak(fields[0].value, end);
      assert MergedFields(fields, end)[1..] == MergedFields(fields[1..], end);
      MergedFieldsPeak(fields[1..], end, false);
    }
  }

  // ---------- what is stored ----------

  /** Wherever a value can stand, string tokens in a row build one string setting that holds
      their texts in that order. */
  lemma StringsBuild(parts: seq<string>, c: Config, ctx: Context, p: nat, name: Option<string>)
    requires |parts| > 0 && At(c, ctx, p, name, StringT)
    ensures Built(c, DoVal(Strings(parts), ctx), p, Tree(name, Words(Joined(parts))))
  {
    hide PutScalar, Built, Joined, DoStrings, AtName, AtItem;
    AtRange(c, ctx, p, name, StringT);
    StringsAct(parts, ctx);
    assert "" + Joined(parts) == Joined(parts) && ctx.(text := None) == ctx;
    PutBuilds(c, ctx, p, name, Words(Joined(parts)));
  }

  /** Splitting the strings of a configuration changes nothing: the driver has the same
      outcome on the tokens with each string in one part. */
  lemma SplitStrings(fields: seq<Field>, end: Terminator)
    requires AllFormed(fields) && 1 + FieldsPeak(fields, true) < YYMAXDEPTH
    ensures Parse(FieldsTokens(fields)) == Parse(FieldsTokens(MergedFields(fields, end)))
  {
    hide Parse, DoFields, FieldsTokens, FieldsPeak, AllFormed, MergedFields;
    MergedAllFormed(fields, end);
    MergedFieldsPeak(fields, end, true);
    MergedFieldsAct(fields, end, START.ctx);
    ParseRuns(fields);
    ParseRuns(MergedFields(fields, end));
  }

  /** The tokens of a readable configuration, its strings split in any way and its settings
      ended in any way, are accepted exactly when the stack can hold them, and the tree then
      has the contents with each string put together. */
  lemma SplitExactly(items: seq<Tree>, fields: seq<Field>, end: Terminator)
    requires AllReadable(items) && Names(items) && AllFormed(fields)
    requires MergedFields(fields, end) == FieldsSyntax(items, end)
    ensures var r := Parse(FieldsTokens(fields));
            (r.Accepted? <==> 1 + FieldsPeak(fields, true) < YYMAXDEPTH)
            && (r.Accepted? ==> Linked(r.ctx.config) && Content(r.ctx.config, DefaultFormat, 0) == Tree(None, GroupOf(items)))
  {
    hide Parse, DoFields, FieldsTokens, FieldsPeak, AllFormed, MergedFields, AllReadable, Names, FieldsSyntax, Content;
    RootMeans(items, end);
    MergedFieldsAct(fields, end, START.ctx);
    ParseExactly(fields);
    if 1 + FieldsPeak(fields, true) < YYMAXDEPTH {
      ParseRuns(fields);
    }
  }
}
