/** The limit of the parser's stack, exactly: what does not fit is not accepted. */
module ConfigDepth {
  import opened ConfigTables
  import opened ConfigTree
  import opened ConfigParser
  import opened ConfigSyntax
  import opened Optional

  /** The driver does not accept from here. */
  predicate Fails(c: Conf)
    requires Sound(c)
  {
    !Run(c).Accepted?
  }

  lemma Full(c: Conf)
    requires Sound(c) && |c.states| >= YYMAXDEPTH
    ensures Fails(c)
  {
    hide Run;
    RunStops(c);
  }

  /** What fails after some actions fails, and so do the actions. */
  lemma FailsAfter(c: Conf, done: Done, states: seq<nat>, values: seq<Option<Token>>, input: seq<Token>)
    requires Sound(c) && Comes(c, done, states, values, input)
    requires done.Next? ==> Fails(Conf(states, values, input, done.ctx))
    ensures Fails(c)
  {
  }

  /** A shift onto the last entry. */
  lemma ShiftFails(c: Conf, state: nat, t: Token, rest: seq<Token>, next: nat)
    requires Sound(c) && |c.states| + 1 >= YYMAXDEPTH && Below(c.states, 0) == state != YYFINAL && state < YYNSTATES
    requires c.input == [t] + rest && Action(state, Symbol(t)) == Shift(next)
    ensures Fails(c)
  {
    hide Run, Action, Sound;
    if |c.states| >= YYMAXDEPTH {
      Full(c);
    } else {
      ShiftMove(c, state, t, rest, next);
      Full(Conf(c.states + [next], c.values + [Some(t)], rest, c.ctx));
    }
  }

  /** A reduction of nothing onto the last entry. */
  lemma EmptyFails(c: Conf, state: nat, rule: nat, next: nat)
    requires Sound(c) && |c.states| + 1 >= YYMAXDEPTH && Below(c.states, 0) == state
    requires state < YYNSTATES && state != YYFINAL && Action(state, Lookahead(c.input)) == Reduce(rule)
    requires 1 < rule <= YYNRULES && YyR2(rule) == 0 && Goto(state, YyR1(rule)) == next
    ensures Fails(c)
  {
    hide Run, Action, Sound, Semantic, Goto, YyR1, YyR2, Fails;
    SoundSizes(c);
    if |c.states| >= YYMAXDEPTH {
      Full(c);
    } else {
      EmptyMove(c, state, rule, next);
      var done := Semantic(rule, c.ctx, c.values[|c.values| - 1]);
      if done.Next? {
        Full(Conf(c.states + [next], c.values + [None], c.input, done.ctx));
      }
      FailsAfter(c, done, c.states + [next], c.values + [None], c.input);
    }
  }

  // ---------- simple values ----------

  lemma SimpleFails(c: Conf, v: Val, rest: seq<Token>)
    requires Sound(c) && |c.states| + Peak(v) >= YYMAXDEPTH && WantsSimple(Below(c.states, 0))
    requires Simple(v) && c.input == ValTokens(v) + rest
    ensures Fails(c)
  {
    hide Run, Action, Sound, Fails, Symbol;
    var p := Below(c.states, 0);
    SimpleGoto(p);
    match v
    case Plain(t) =>
      ScalarActions(p, Symbol(t));
      ShiftFails(c, p, t, rest, Symbol(t) + 6);
    case Strings(parts) =>
      StringsFail(c, parts, rest);
  }

  lemma StringsFail(c: Conf, parts: seq<string>, rest: seq<Token>)
    requires Sound(c) && |parts| > 0 && |c.states| + (if |parts| > 1 then 2 else 1) >= YYMAXDEPTH
    requires WantsSimple(Below(c.states, 0)) && c.input == StringTokens(parts) + rest
    ensures Fails(c)
  {
    hide Run, Action, StackOk, StringTokens, AppendText, Edge, Rank;
    var p := Below(c.states, 0);
    var more := StringTokens(parts[1..]) + rest;
    SimpleGoto(p);
    PartsTokens(parts, rest);
    if |c.states| + 1 >= YYMAXDEPTH {
      ScalarActions(p, 9);
      ShiftFails(c, p, StringTok(parts[0]), more, 15);
    } else {
      FirstPartMove(c, parts[0], more);
      StringStates();
      PartsTokens(parts[1..], rest);
      var e := Conf(c.states + [22], c.values + [None], more, AppendText(c.ctx, Some(StringTok(parts[0]))).ctx);
      ShiftFails(e, 22, StringTok(parts[1..][0]), StringTokens(parts[1..][1..]) + rest, 31);
    }
  }

  // ---------- arrays and lists ----------

  lemma ElementFails(c: Conf, list: bool, v: Val, rest: seq<Token>)
    requires Sound(c) && (Below(c.states, 0) == OpenState(list) || Below(c.states, 0) == CommaState(list))
    requires ElementFormed(list, v) && |c.states| + Peak(v) >= YYMAXDEPTH
    requires c.input == ValTokens(v) + rest && Lookahead(rest) != 9
    ensures Fails(c)
    decreases v, 2
  {
    hide Run, Sound, ValTokens, Peak, Fails;
    if list {
      ValueFails(c, v, rest);
    } else {
      SimpleFails(c, v, rest);
    }
  }

  lemma {:induction false} ElementsFail(c: Conf, list: bool, base: seq<nat>, values: seq<Option<Token>>, mid: seq<nat>, items: seq<Val>, rest: seq<Token>)
    requires Sound(c) && 0 < |base| == |values| && |base| < YYMAXDEPTH && Below(base, 0) == OpenState(list)
    requires mid == [] || mid == [ListState(list), CommaState(list)]
    requires c.states == base + mid && c.values[..|base|] == values
    requires |items| > 0 && ElementsFormed(list, items) && |base| + ElementsPeak(items, mid == []) >= YYMAXDEPTH
    requires c.input == ItemTokens(items) + rest && Lookahead(rest) == Symbol(EndToken(list))
    ensures Fails(c)
    decreases items, 2
  {
    hide Run, DoVal, StackOk, Edge, Rank, ElementsFormed, ElementFormed, ElementsPeak, ValTokens, ItemTokens, Peak, Sound, Fails, Comes;
    var last := |items| == 1;
    var tail := if last then rest else [CommaTok] + (ItemTokens(items[1..]) + rest);
    ElementsTokens(items, rest);
    FirstElement(list, items);
    FirstPeak(items, mid == []);
    SoundSizes(c);
    if |c.states| + Peak(items[0]) >= YYMAXDEPTH {
      ElementFails(c, list, items[0], tail);
    } else {
      ElementJoins(c, list, base, values, mid, items[0], tail);
      var done := DoVal(items[0], c.ctx);
      if done.Next? {
        ComesSound(c, done, base + [ListState(list)], values + [None], tail);
        var e := Conf(base + [ListState(list)], values + [None], tail, done.ctx);
        var more := ItemTokens(items[1..]) + rest;
        CommaMove(e, list, base, values, more);
        var f := Conf(base + [ListState(list), CommaState(list)], e.values + [Some(CommaTok)], more, done.ctx);
        ElementsFail(f, list, base, values, [ListState(list), CommaState(list)], items[1..], rest);
        SameFails(e, f);
      }
      FailsAfter(c, done, base + [ListState(list)], values + [None], tail);
    }
  }

  lemma ComesSound(c: Conf, done: Done, states: seq<nat>, values: seq<Option<Token>>, input: seq<Token>)
    requires Sound(c) && Comes(c, done, states, values, input) && done.Next?
    ensures Sound(Conf(states, values, input, done.ctx))
  {
  }

  lemma SameFails(c: Conf, d: Conf)
    requires Sound(c) && Sound(d) && Run(c) == Run(d) && Fails(d)
    ensures Fails(c)
  {
  }

  lemma BracketFails(c: Conf, list: bool, items: seq<Val>, rest: seq<Token>)
    requires Sound(c) && WantsValue(Below(c.states, 0)) && ElementsFormed(list, items)
    requires |c.states| + Larger(4, 2 + ElementsPeak(items, true)) >= YYMAXDEPTH
    requires c.input == [StartToken(list)] + (ItemTokens(items) + ([EndToken(list)] + rest))
    ensures Fails(c)
    decreases items, 4
  {
    hide Run, StackOk, Semantic, DoItems, ItemTokens, WantsValue, Edge, Rank, Fails, Comes, Sound, ElementsFormed, ElementsPeak, Action, Goto;
    var tail := [EndToken(list)] + rest;
    var p := Below(c.states, 0);
    BracketStates(list, p);
    ValueSmall(p);
    SoundSizes(c);
    if |c.states| + 1 >= YYMAXDEPTH {
      ShiftFails(c, p, StartToken(list), ItemTokens(items) + tail, StartState(list));
    } else {
      OpenMove(c, list, ItemTokens(items) + tail);
      var start := Semantic(StartRule(list), c.ctx, None);
      var states, values := c.states + [StartState(list), OpenState(list)], c.values + [Some(StartToken(list)), None];
      if start.Next? {
        ComesSound(c, start, states, values, ItemTokens(items) + tail);
        InsideFails(Conf(states, values, ItemTokens(items) + tail, start.ctx), list, items, rest);
      }
      FailsAfter(c, start, states, values, ItemTokens(items) + tail);
    }
  }

  lemma InsideFails(c: Conf, list: bool, items: seq<Val>, rest: seq<Token>)
    requires Sound(c) && Below(c.states, 0) == OpenState(list) && ElementsFormed(list, items)
    requires |c.states| + Larger(2, ElementsPeak(items, true)) >= YYMAXDEPTH
    requires c.input == ItemTokens(items) + ([EndToken(list)] + rest)
    ensures Fails(c)
    decreases items, 3
  {
    hide Run, StackOk, Semantic, DoItems, ItemTokens, Edge, Rank, Fails, Comes, Sound, ElementsFormed, ElementsPeak, Action, Goto;
    var tail := [EndToken(list)] + rest;
    SoundSizes(c);
    if |c.states| >= YYMAXDEPTH {
      Full(c);
    } else if |c.states| + ElementsPeak(items, true) >= YYMAXDEPTH {
      NoElements(items);
      assert c.states + [] == c.states && c.values[..|c.states|] == c.values;
      ElementsFail(c, list, c.states, c.values, [], items, tail);
    } else {
      InsideMove(c, list, items, tail);
      var done := DoItems(items, c.ctx);
      if done.Next? {
        ComesSound(c, done, c.states + [EndState(list)], c.values + [None], tail);
        BracketStates(list, 8);
        ShiftFails(Conf(c.states + [EndState(list)], c.values + [None], tail, done.ctx), EndState(list), EndToken(list), rest, CloseState(list));
      }
      FailsAfter(c, done, c.states + [EndState(list)], c.values + [None], tail);
    }
  }

  lemma NoElements(items: seq<Val>)
    ensures ElementsPeak(items, true) > 0 ==> |items| > 0
  {
  }

  // ---------- settings ----------

  lemma NameFails(c: Conf, name: string, rest: seq<Token>)
    requires Sound(c) && |c.states| + 3 >= YYMAXDEPTH && WantsSetting(Below(c.states, 0))
    requires c.input == [NameTok(name)] + ([EqualsTok] + rest)
    ensures Fails(c)
  {
    hide Run, Action, Semantic, Goto, YyPact, YyDefAct, YyR1, YyR2, Edge, Rank, WantsSetting, NewSetting, Fails;
    var q, t := Below(c.states, 0), NameTok(name);
    SettingStates(q);
    SoundSizes(c);
    if |c.states| + 1 >= YYMAXDEPTH {
      ShiftFails(c, q, t, [EqualsTok] + rest, 1);
    } else if |c.states| + 2 >= YYMAXDEPTH {
      ShiftMove(c, q, t, [EqualsTok] + rest, 1);
      var d := Conf(c.states + [1], c.values + [Some(t)], [EqualsTok] + rest, c.ctx);
      DefaultAction(1, Lookahead(d.input));
      EmptyFails(d, 1, 11, 5);
      SameFails(c, d);
    } else {
      NameMove(c, name, rest);
      var done := NewSetting(c.ctx, name);
      var values := c.values + [Some(t), None, Some(EqualsTok)];
      if done.Next? {
        Full(Conf(c.states + [1, 5, 8], values, rest, done.ctx));
      }
      FailsAfter(c, done, c.states + [1, 5, 8], values, rest);
    }
  }

  lemma TerminatorFails(c: Conf, end: Terminator, rest: seq<Token>)
    requires Sound(c) && |c.states| + 1 >= YYMAXDEPTH && Below(c.states, 0) == 21
    requires c.input == EndTokens(end) + rest && EndsSetting(Lookahead(rest))
    ensures Fails(c)
  {
    hide Run, Action, Semantic, Goto, YyPact, YyDefAct, YyR1, YyR2, Edge, Rank, Fails;
    TerminatorStates();
    match end
    case Bare =>
      assert c.input == rest;
      EmptyFails(c, 21, 8, 30);
    case Semi => ShiftFails(c, 21, SemicolonTok, rest, 29);
    case Comma => ShiftFails(c, 21, CommaTok, rest, 28);
  }

  lemma FieldFails(c: Conf, f: Field, rest: seq<Token>)
    requires Sound(c) && WantsSetting(Below(c.states, 0)) && Formed(f.value) && |c.states| + FieldPeak(f) >= YYMAXDEPTH
    requires c.input == FieldTokens(f) + rest && EndsSetting(Lookahead(rest))
    ensures Fails(c)
    decreases f, 0
  {
    hide Run, StackOk, WantsSetting, NewSetting, DoVal, ValTokens, Edge, Rank, EndTokens, Fails, Comes, Formed, Sound, Peak;
    SoundSizes(c);
    var tail := EndTokens(f.end) + rest;
    assert c.input == [NameTok(f.name)] + ([EqualsTok] + (ValTokens(f.value) + tail));
    if |c.states| + 3 >= YYMAXDEPTH {
      NameFails(c, f.name, ValTokens(f.value) + tail);
    } else {
      NameMove(c, f.name, ValTokens(f.value) + tail);
      var named := NewSetting(c.ctx, f.name);
      var states, values := c.states + [1, 5, 8], c.values + [Some(NameTok(f.name)), None, Some(EqualsTok)];
      if named.Next? {
        ComesSound(c, named, states, values, ValTokens(f.value) + tail);
        AssignedFails(Conf(states, values, ValTokens(f.value) + tail, named.ctx), f, rest);
      }
      FailsAfter(c, named, states, values, ValTokens(f.value) + tail);
    }
  }

  /** From the equals sign on. */
  lemma AssignedFails(c: Conf, f: Field, rest: seq<Token>)
    requires Sound(c) && Below(c.states, 0) == 8 && Formed(f.value) && |c.states| + Larger(2, Peak(f.value)) >= YYMAXDEPTH
    requires c.input == ValTokens(f.value) + (EndTokens(f.end) + rest) && EndsSetting(Lookahead(rest))
    ensures Fails(c)
    decreases f.value, 2
  {
    hide Run, StackOk, DoVal, ValTokens, Edge, Rank, EndTokens, Fails, Comes, Formed, Sound, Peak, EndsSetting;
    var tail := EndTokens(f.end) + rest;
    SoundSizes(c);
    TailLookahead(f.end, rest);
    if |c.states| + Peak(f.value) >= YYMAXDEPTH {
      ValueFails(c, f.value, tail);
    } else {
      ValueMove(c, f.value, tail);
      var done := DoVal(f.value, c.ctx);
      if done.Next? {
        ComesSound(c, done, c.states + [21], c.values + [None], tail);
        TerminatorFails(Conf(c.states + [21], c.values + [None], tail, done.ctx), f.end, rest);
      }
      FailsAfter(c, done, c.states + [21], c.values + [None], tail);
    }
  }

  lemma {:induction false} FieldsFail(c: Conf, base: seq<nat>, values: seq<Option<Token>>, mid: seq<nat>, fields: seq<Field>, rest: seq<Token>)
    requires Sound(c) && 0 < |base| == |values| && |base| < YYMAXDEPTH && (Below(base, 0) == 0 || Below(base, 0) == 27)
    requires mid == [] || mid == [SettingsState(Below(base, 0))]
    requires c.states == base + mid && c.values[..|base|] == values
    requires |fields| > 0 && AllFormed(fields) && |base| + FieldsPeak(fields, mid == []) >= YYMAXDEPTH
    requires c.input == FieldsTokens(fields) + rest && (Lookahead(rest) == 0 || Lookahead(rest) == 19)
    ensures Fails(c)
    decreases fields, 2
  {
    hide Run, DoField, StackOk, Edge, Rank, AllFormed, Formed, FieldTokens, FieldsTokens, FieldsPeak, FieldPeak, Sound, Fails, Comes;
    var o := Below(base, 0);
    var more := FieldsTokens(fields[1..]) + rest;
    SoundSizes(c);
    FieldsSplit(fields, rest);
    FieldsStart(fields[1..], rest);
    FirstField(fields);
    FirstFieldPeak(fields, mid == []);
    if |c.states| + FieldPeak(fields[0]) >= YYMAXDEPTH {
      FieldFails(c, fields[0], more);
    } else {
      FieldJoins(c, base, values, mid, fields[0], more);
      var done := DoField(fields[0], c.ctx);
      if done.Next? {
        ComesSound(c, done, base + [SettingsState(o)], values + [None], more);
        FieldsFail(Conf(base + [SettingsState(o)], values + [None], more, done.ctx), base, values, [SettingsState(o)], fields[1..], rest);
      }
      FailsAfter(c, done, base + [SettingsState(o)], values + [None], more);
    }
  }

  // ---------- groups ----------

  lemma GroupFails(c: Conf, fields: seq<Field>, rest: seq<Token>)
    requires Sound(c) && WantsValue(Below(c.states, 0)) && AllFormed(fields)
    requires |c.states| + Larger(4, 2 + FieldsPeak(fields, true)) >= YYMAXDEPTH
    requires c.input == [GroupStartTok] + (FieldsTokens(fields) + ([GroupEndTok] + rest))
    ensures Fails(c)
    decreases fields, 4
  {
    hide Run, StackOk, Semantic, DoFields, FieldsTokens, WantsValue, Edge, Rank, Fails, Comes, Sound, AllFormed, FieldsPeak, Action, Goto;
    var tail := [GroupEndTok] + rest;
    var p := Below(c.states, 0);
    GroupStates(p);
    ValueSmall(p);
    SoundSizes(c);
    if |c.states| + 1 >= YYMAXDEPTH {
      ShiftFails(c, p, GroupStartTok, FieldsTokens(fields) + tail, 18);
    } else {
      OpenGroupMove(c, FieldsTokens(fields) + tail);
      var start := Semantic(38, c.ctx, None);
      var states, values := c.states + [18, 27], c.values + [Some(GroupStartTok), None];
      if start.Next? {
        ComesSound(c, start, states, values, FieldsTokens(fields) + tail);
        InsideGroupFails(Conf(states, values, FieldsTokens(fields) + tail, start.ctx), fields, rest);
      }
      FailsAfter(c, start, states, values, FieldsTokens(fields) + tail);
    }
  }

  lemma InsideGroupFails(c: Conf, fields: seq<Field>, rest: seq<Token>)
    requires Sound(c) && Below(c.states, 0) == 27 && AllFormed(fields)
    requires |c.states| + Larger(2, FieldsPeak(fields, true)) >= YYMAXDEPTH
    requires c.input == FieldsTokens(fields) + ([GroupEndTok] + rest)
    ensures Fails(c)
    decreases fields, 3
  {
    hide Run, StackOk, Semantic, DoFields, FieldsTokens, Edge, Rank, Fails, Comes, Sound, AllFormed, FieldsPeak, Action, Goto;
    var tail := [GroupEndTok] + rest;
    SoundSizes(c);
    if |c.states| >= YYMAXDEPTH {
      Full(c);
    } else if |c.states| + FieldsPeak(fields, true) >= YYMAXDEPTH {
      NoFields(fields);
      assert c.states + [] == c.states && c.values[..|c.states|] == c.values;
      FieldsFail(c, c.states, c.values, [], fields, tail);
    } else {
      InsideGroupMove(c, fields, tail);
      var done := DoFields(fields, c.ctx);
      if done.Next? {
        ComesSound(c, done, c.states + [39], c.values + [None], tail);
        GroupStates(8);
        ShiftFails(Conf(c.states + [39], c.values + [None], tail, done.ctx), 39, GroupEndTok, rest, 44);
      }
      FailsAfter(c, done, c.states + [39], c.values + [None], tail);
    }
  }

  lemma NoFields(fields: seq<Field>)
    ensures FieldsPeak(fields, true) > 0 ==> |fields| > 0
  {
  }

  // ---------- values and whole configurations ----------

  lemma ValueFails(c: Conf, v: Val, rest: seq<Token>)
    requires Sound(c) && WantsValue(Below(c.states, 0)) && Formed(v) && |c.states| + Peak(v) >= YYMAXDEPTH
    requires c.input == ValTokens(v) + rest && Lookahead(rest) != 9
    ensures Fails(c)
    decreases v, 1
  {
    hide Run, StackOk, Semantic, ItemTokens, FieldsTokens, Comes, Edge, Rank, StringTokens, Fails, Sound, ElementsPeak, FieldsPeak;
    match v
    case Plain(t) => SimpleFails(c, v, rest);
    case Strings(parts) => SimpleFails(c, v, rest);
    case Arr(items) =>
      assert c.input == [ArrayStartTok] + (ItemTokens(items) + ([ArrayEndTok] + rest));
      BracketFails(c, false, items, rest);
    case Lst(items) =>
      assert c.input == [ListStartTok] + (ItemTokens(items) + ([ListEndTok] + rest));
      BracketFails(c, true, items, rest);
    case Grp(fields) =>
      assert c.input == [GroupStartTok] + (FieldsTokens(fields) + ([GroupEndTok] + rest));
      GroupFails(c, fields, rest);
  }

  /** The driver accepts the tokens of a configuration if and only if its actions
      succeed and its stack stays below the limit. */
  lemma ParseExactly(fields: seq<Field>)
    requires AllFormed(fields)
    ensures Parse(FieldsTokens(fields)).Accepted? <==> DoFields(fields, START.ctx).Next? && 1 + FieldsPeak(fields, true) < YYMAXDEPTH
  {
    hide Run, DoField, FieldTokens, FieldsPeak;
    if 1 + FieldsPeak(fields, true) < YYMAXDEPTH {
      ParseRuns(fields);
    } else {
      NoFields(fields);
      var c := START.(input := FieldsTokens(fields));
      assert c.input == FieldsTokens(fields) + [] && c.states == [0] + [] && c.values[..1] == [None];
      FieldsFail(c, [0], [None], [], fields, []);
    }
  }
}
