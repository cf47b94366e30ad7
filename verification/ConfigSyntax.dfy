/** The language of configurations as syntax trees, and completeness of the
    driver: it runs the actions of every syntax tree, in order, on its tokens. */
module ConfigSyntax {
  import opened ConfigTables
  import opened ConfigTree
  import opened ConfigParser
  import opened Optional

  datatype Val =
    | Plain(token: Token)
    | Strings(parts: seq<string>)
    | Arr(items: seq<Val>)
    | Lst(items: seq<Val>)
    | Grp(fields: seq<Field>)

  datatype Field = Field(name: string, value: Val, end: Terminator)

  datatype Terminator = Bare | Semi | Comma

  // ---------- tokens ----------

  function ValTokens(v: Val): seq<Token>
    decreases v
  {
    match v
    case Plain(token) => [token]
    case Strings(parts) => StringTokens(parts)
    case Arr(items) => [ArrayStartTok] + (ItemTokens(items) + [ArrayEndTok])
    case Lst(items) => [ListStartTok] + (ItemTokens(items) + [ListEndTok])
    case Grp(fields) => [GroupStartTok] + (FieldsTokens(fields) + [GroupEndTok])
  }

  function StringTokens(parts: seq<string>): seq<Token> {
    if |parts| == 0 then [] else [StringTok(parts[0])] + StringTokens(parts[1..])
  }

  function ItemTokens(items: seq<Val>): seq<Token>
    decreases items
  {
    if |items| == 0 then []
    else if |items| == 1 then ValTokens(items[0])
    else ValTokens(items[0]) + ([CommaTok] + ItemTokens(items[1..]))
  }

  function EndTokens(end: Terminator): seq<Token> {
    match end
    case Bare => []
    case Semi => [SemicolonTok]
    case Comma => [CommaTok]
  }

  function FieldTokens(f: Field): seq<Token>
    decreases f, 0
  {
    [NameTok(f.name)] + ([EqualsTok] + (ValTokens(f.value) + EndTokens(f.end)))
  }

  function FieldsTokens(fields: seq<Field>): seq<Token>
    decreases fields
  {
    if |fields| == 0 then [] else FieldTokens(fields[0]) + FieldsTokens(fields[1..])
  }

  // ---------- well-formedness ----------

  /** What an array may hold: scalar tokens and (possibly concatenated) strings. */
  predicate Simple(v: Val) {
    match v
    case Plain(token) => 3 <= Symbol(token) <= 8
    case Strings(parts) => |parts| > 0
    case _ => false
  }

  /** The trees of the grammar. */
  predicate Formed(v: Val)
    decreases v
  {
    match v
    case Plain(_) => Simple(v)
    case Strings(_) => Simple(v)
    case Arr(items) => forall k | 0 <= k < |items| :: Simple(items[k])
    case Lst(items) => forall k | 0 <= k < |items| :: Formed(items[k])
    case Grp(fields) => forall k | 0 <= k < |fields| :: Formed(fields[k].value)
  }

  predicate AllFormed(fields: seq<Field>) {
    forall k | 0 <= k < |fields| :: Formed(fields[k].value)
  }

  // ---------- height of the stack ----------

  function Larger(a: nat, b: nat): nat {
    if a < b then b else a
  }

  /** How far the stack grows above its height before a value. */
  function Peak(v: Val): (r: nat)
    ensures r > 0
    decreases v, 0
  {
    match v
    case Plain(_) => 1
    case Strings(parts) => if |parts| > 1 then 2 else 1
    case Arr(items) => Larger(4, 2 + ElementsPeak(items, true))
    case Lst(items) => Larger(4, 2 + ElementsPeak(items, true))
    case Grp(fields) => Larger(4, 2 + FieldsPeak(fields, true))
  }

  /** Elements after the first stand above the list so far and a comma. */
  function ElementsPeak(items: seq<Val>, first: bool): nat
    decreases items, 0
  {
    if |items| == 0 then 0
    else Larger(if first then Peak(items[0]) else 2 + Peak(items[0]), ElementsPeak(items[1..], false))
  }

  /** A value stands above its name, the mid-rule action and the equals sign. */
  function FieldPeak(f: Field): (r: nat)
    ensures r > 4
    decreases f, 0
  {
    Larger(5, 3 + Peak(f.value))
  }

  /** Settings after the first stand above the settings so far. */
  function FieldsPeak(fields: seq<Field>, first: bool): nat
    decreases fields, 0
  {
    if |fields| == 0 then 0
    else Larger(if first then FieldPeak(fields[0]) else 1 + FieldPeak(fields[0]), FieldsPeak(fields[1..], false))
  }

  // ---------- meaning ----------

  /** The rule that reduces a scalar token. */
  function PlainRule(t: Token): nat {
    match t
    case BooleanTok(_) => 23
    case IntegerTok(_) => 24
    case Integer64Tok(_) => 25
    case HexTok(_) => 26
    case Hex64Tok(_) => 27
    case _ => 28
  }

  /** The action at a closing bracket. */
  function Ended(done: Done): (r: Done)
    requires done.Next? ==> InRange(done.ctx)
    ensures r.Next? ==> InRange(r.ctx)
  {
    if done.Next? then Next(Close(done.ctx)) else done
  }

  /** The actions of a value, in the order of the reductions. */
  function DoVal(v: Val, ctx: Context): (r: Done)
    requires InRange(ctx)
    ensures r.Next? ==> InRange(r.ctx)
    decreases v
  {
    match v
    case Plain(token) => Semantic(PlainRule(token), ctx, Some(token))
    case Strings(parts) => DoStrings(parts, ctx)
    case Arr(items) => DoBracket(Semantic(13, ctx, None), items)
    case Lst(items) => DoBracket(Semantic(15, ctx, None), items)
    case Grp(fields) =>
      match Semantic(38, ctx, None)
      case Next(inner) => Ended(DoFields(fields, inner))
      case Abort(p) => Abort(p)
      case Crash => Crash
  }

  /** The elements of an opened array or list, and its end. */
  function DoBracket(start: Done, items: seq<Val>): (r: Done)
    requires start.Next? ==> InRange(start.ctx)
    ensures r.Next? ==> InRange(r.ctx)
    decreases items, 1
  {
    match start
    case Next(inner) => Ended(DoItems(items, inner))
    case Abort(p) => Abort(p)
    case Crash => Crash
  }

  function DoStrings(parts: seq<string>, ctx: Context): (r: Done)
    requires InRange(ctx)
    ensures r.Next? ==> InRange(r.ctx)
  {
    if |parts| == 0 then Semantic(29, ctx, None)
    else
      match AppendText(ctx, Some(StringTok(parts[0])))
      case Next(more) => DoStrings(parts[1..], more)
      case Abort(p) => Abort(p)
      case Crash => Crash
  }

  function DoItems(items: seq<Val>, ctx: Context): (r: Done)
    requires InRange(ctx)
    ensures r.Next? ==> InRange(r.ctx)
    decreases items, 0
  {
    if |items| == 0 then Next(ctx)
    else
      match DoVal(items[0], ctx)
      case Next(more) => DoItems(items[1..], more)
      case Abort(p) => Abort(p)
      case Crash => Crash
  }

  function DoField(f: Field, ctx: Context): (r: Done)
    requires InRange(ctx)
    ensures r.Next? ==> InRange(r.ctx)
    decreases f, 0
  {
    match NewSetting(ctx, f.name)
    case Next(named) => DoVal(f.value, named)
    case Abort(p) => Abort(p)
    case Crash => Crash
  }

  function DoFields(fields: seq<Field>, ctx: Context): (r: Done)
    requires InRange(ctx)
    ensures r.Next? ==> InRange(r.ctx)
    decreases fields, 0
  {
    if |fields| == 0 then Next(ctx)
    else
      match DoField(fields[0], ctx)
      case Next(more) => DoFields(fields[1..], more)
      case Abort(p) => Abort(p)
      case Crash => Crash
  }

  // ---------- moves of the driver ----------

  /** From `c` the driver performs `done` and comes to the given stacks and input. */
  predicate Comes(c: Conf, done: Done, states: seq<nat>, values: seq<Option<Token>>, input: seq<Token>)
    requires Sound(c)
  {
    match done
    case Next(ctx) => Sound(Conf(states, values, input, ctx)) && Run(c) == Run(Conf(states, values, input, ctx))
    case Abort(problem) => Run(c) == Aborted(problem)
    case Crash => Run(c) == Crashed
  }

  lemma Moved(c: Conf, mid: Conf, done: Done, states: seq<nat>, values: seq<Option<Token>>, input: seq<Token>)
    requires Sound(c) && Sound(mid) && Run(c) == Run(mid) && Comes(mid, done, states, values, input)
    ensures Comes(c, done, states, values, input)
  {
  }

  lemma ShiftMove(c: Conf, state: nat, t: Token, rest: seq<Token>, next: nat)
    requires Sound(c) && |c.states| < YYMAXDEPTH && Below(c.states, 0) == state != YYFINAL && state < YYNSTATES
    requires c.input == [t] + rest && Action(state, Symbol(t)) == Shift(next)
    ensures var d := Conf(c.states + [next], c.values + [Some(t)], rest, c.ctx);
            Sound(d) && Run(c) == Run(d)
  {
    hide Run, Action, Sound;
    RunShifts(c);
  }

  /** A reduction that pops `n` entries down to `base`. */
  lemma ReduceMove(c: Conf, base: seq<nat>, values: seq<Option<Token>>, rule: nat)
    requires Sound(c) && |c.states| < YYMAXDEPTH && Below(c.states, 0) < YYNSTATES && Below(c.states, 0) != YYFINAL
    requires Action(Below(c.states, 0), Lookahead(c.input)) == Reduce(rule) && 1 < rule <= YYNRULES
    requires 0 < |base| == |c.states| - YyR2(rule) && base == c.states[..|base|] && values == c.values[..|base|]
    requires Below(base, 0) < YYNSTATES && |c.values| == |c.states|
    ensures Goto(Below(base, 0), YyR1(rule)) >= 0
    ensures Comes(c, Semantic(rule, c.ctx, c.values[|c.values| - 1]), base + [Goto(Below(base, 0), YyR1(rule))], values + [None], c.input)
  {
    hide Run, Action, Semantic, YyR1, YyR2, Goto;
    RunReduces(c);
    assert Reduced(c.states, rule) == base + [Goto(Below(base, 0), YyR1(rule))];
  }

  // ---------- what single states do ----------

  /** States in which the automaton waits for a value, and the two in which only a simple one fits. */
  predicate WantsValue(state: nat) {
    state == 8 || state == 26 || state == 42
  }

  predicate WantsSimple(state: nat) {
    WantsValue(state) || state == 25 || state == 40
  }

  lemma ScalarActions(state: nat, symbol: nat)
    requires WantsSimple(state) && 3 <= symbol <= 9
    ensures Action(state, symbol) == Shift(symbol + 6)
  {
  }

  lemma BracketActions(state: nat)
    requires WantsValue(state)
    ensures Action(state, 13) == Shift(16) && Action(state, 15) == Shift(17) && Action(state, 18) == Shift(18)
  {
  }

  /** A state without a row reduces by its default on every lookahead. */
  lemma DefaultAction(state: nat, token: nat)
    requires state < YYNSTATES && token < YYNTOKENS && YyPact(state) == YYPACT_NINF && YyDefAct(state) > 0
    ensures Action(state, token) == Reduce(YyDefAct(state))
  {
  }

  /** A reduction of one or no symbol in a state that reduces on every lookahead. */
  lemma UnitMove(c: Conf, base: seq<nat>, values: seq<Option<Token>>, state: nat, rule: nat, next: nat)
    requires Sound(c) && |c.states| < YYMAXDEPTH && 0 < |base| == |values| && c.states == base + [state]
    requires state < YYNSTATES && state != YYFINAL && Action(state, Lookahead(c.input)) == Reduce(rule)
    requires 1 < rule <= YYNRULES && YyR2(rule) == 1 && c.values[..|base|] == values
    requires Below(base, 0) < YYNSTATES && Goto(Below(base, 0), YyR1(rule)) == next
    ensures Comes(c, Semantic(rule, c.ctx, c.values[|c.values| - 1]), base + [next], values + [None], c.input)
  {
    hide Run, Action, Semantic, YyR1, YyR2, Goto, Edge, Rank;
    assert c.states[..|base|] == base;
    ReduceMove(c, base, values, rule);
  }

  lemma EmptyMove(c: Conf, state: nat, rule: nat, next: nat)
    requires Sound(c) && |c.states| < YYMAXDEPTH && Below(c.states, 0) == state
    requires state < YYNSTATES && state != YYFINAL && Action(state, Lookahead(c.input)) == Reduce(rule)
    requires 1 < rule <= YYNRULES && YyR2(rule) == 0 && Goto(state, YyR1(rule)) == next
    ensures |c.values| > 0
    ensures Comes(c, Semantic(rule, c.ctx, c.values[|c.values| - 1]), c.states + [next], c.values + [None], c.input)
  {
    hide Run, Action, Semantic, YyR1, YyR2, Goto, Edge, Rank;
    assert c.states[..|c.states|] == c.states && c.values[..|c.values|] == c.values;
    ReduceMove(c, c.states, c.values, rule);
  }

  // ---------- simple values ----------

  /** Where a simple value is recognised. */
  function SimpleState(state: nat): nat {
    if state == 25 then 32 else if state == 40 then 45 else 23
  }

  lemma SimpleGoto(state: nat)
    requires WantsSimple(state)
    ensures state < YYNSTATES && state != YYFINAL
    ensures Goto(state, 36) == SimpleState(state) && Goto(state, 35) == 22
  {
    hide Goto;
    Gotos(state, 36);
    Gotos(state, 35);
  }

  lemma PlainRules(t: Token)
    requires 3 <= Symbol(t) <= 8
    ensures var s := Symbol(t) + 6;
            YyPact(s) == YYPACT_NINF && YyDefAct(s) == PlainRule(t) && YyR2(PlainRule(t)) == 1 && YyR1(PlainRule(t)) == 36
  {
  }

  lemma PlainMove(c: Conf, t: Token, rest: seq<Token>)
    requires Sound(c) && |c.states| + 1 < YYMAXDEPTH && WantsSimple(Below(c.states, 0))
    requires 3 <= Symbol(t) <= 8 && c.input == [t] + rest
    ensures Comes(c, DoVal(Plain(t), c.ctx), c.states + [SimpleState(Below(c.states, 0))], c.values + [None], rest)
  {
    hide Run, Action, Semantic, Goto, YyPact, YyDefAct, YyR1, YyR2, Symbol, PlainRule, Edge, Rank;
    var p := Below(c.states, 0);
    var s := Symbol(t) + 6;
    ScalarActions(p, Symbol(t));
    ShiftMove(c, p, t, rest, s);
    var d := Conf(c.states + [s], c.values + [Some(t)], rest, c.ctx);
    PlainRules(t);
    PlainRuleRange(t);
    DefaultAction(s, Lookahead(rest));
    SimpleGoto(p);
    UnitMove(d, c.states, c.values, s, PlainRule(t), SimpleState(p));
    Moved(c, d, Semantic(PlainRule(t), c.ctx, Some(t)), c.states + [SimpleState(p)], c.values + [None], rest);
  }

  lemma PlainRuleRange(t: Token)
    ensures 1 < PlainRule(t) <= YYNRULES
  {
  }

  lemma StringStates()
    ensures YyPact(15) == YYPACT_NINF && YyDefAct(15) == 21 && YyR2(21) == 1 && YyR1(21) == 35
    ensures YyPact(31) == YYPACT_NINF && YyDefAct(31) == 22 && YyR2(22) == 2 && YyR1(22) == 35
    ensures YyR2(29) == 1 && YyR1(29) == 36
    ensures Action(22, 9) == Shift(31)
    ensures forall token | 0 <= token < YYNTOKENS && token != 9 :: Action(22, token) == Reduce(29)
  {
  }

  /** From a recognised string on: further parts are appended, then the value is set. */
  lemma {:induction false} MorePartsMove(c: Conf, base: seq<nat>, values: seq<Option<Token>>, parts: seq<string>, rest: seq<Token>)
    requires Sound(c) && 0 < |base| == |values| && |base| + (if |parts| > 0 then 2 else 1) < YYMAXDEPTH && WantsSimple(Below(base, 0))
    requires c.states == base + [22] && c.values == values + [None] && c.input == StringTokens(parts) + rest
    requires Lookahead(rest) != 9
    ensures Comes(c, DoStrings(parts, c.ctx), base + [SimpleState(Below(base, 0))], values + [None], rest)
    decreases parts
  {
    hide Run, Action, Semantic, Goto, YyPact, YyDefAct, YyR1, YyR2, Edge, Rank, SimpleState;
    StringStates();
    SimpleGoto(Below(base, 0));
    if |parts| == 0 {
      assert c.input == rest;
      UnitMove(c, base, values, 22, 29, SimpleState(Below(base, 0)));
    } else {
      var t := StringTok(parts[0]);
      PartsTokens(parts, rest);
      ShiftMove(c, 22, t, StringTokens(parts[1..]) + rest, 31);
      var d := Conf(c.states + [31], c.values + [Some(t)], StringTokens(parts[1..]) + rest, c.ctx);
      DefaultAction(31, Lookahead(d.input));
      assert d.states[..|base|] == base && d.values[..|base|] == values;
      ReduceMove(d, base, values, 22);
      TextAction(d.ctx, Some(t));
      var e := Conf(base + [22], values + [None], d.input, AppendText(c.ctx, Some(t)).ctx);
      MorePartsMove(e, base, values, parts[1..], rest);
    }
  }

  lemma TextAction(ctx: Context, top: Option<Token>)
    requires InRange(ctx)
    ensures Semantic(21, ctx, top) == Semantic(22, ctx, top) == AppendText(ctx, top)
    ensures top.Some? && top.value.StringTok? ==> AppendText(ctx, top).Next?
  {
  }

  /** The first part of a string is shifted and reduced. */
  lemma FirstPartMove(c: Conf, part: string, more: seq<Token>)
    requires Sound(c) && |c.states| + 1 < YYMAXDEPTH && WantsSimple(Below(c.states, 0))
    requires c.input == [StringTok(part)] + more
    ensures AppendText(c.ctx, Some(StringTok(part))).Next?
    ensures var e := Conf(c.states + [22], c.values + [None], more, AppendText(c.ctx, Some(StringTok(part))).ctx);
            Sound(e) && Run(c) == Run(e)
  {
    hide Run, Action, Semantic, Goto, YyPact, YyDefAct, YyR1, YyR2, Edge, Rank, SimpleState, StackOk;
    var p, t := Below(c.states, 0), StringTok(part);
    StringStates();
    SimpleGoto(p);
    ScalarActions(p, 9);
    ShiftMove(c, p, t, more, 15);
    var d := Conf(c.states + [15], c.values + [Some(t)], more, c.ctx);
    DefaultAction(15, Lookahead(more));
    SoundSizes(c);
    assert d.values[..|c.values|] == c.values && d.values[|d.values| - 1] == Some(t);
    UnitMove(d, c.states, c.values, 15, 21, 22);
    TextAction(c.ctx, Some(t));
  }

  lemma StringsMove(c: Conf, parts: seq<string>, rest: seq<Token>)
    requires Sound(c) && |c.states| + (if |parts| > 1 then 2 else 1) < YYMAXDEPTH && WantsSimple(Below(c.states, 0))
    requires |parts| > 0 && c.input == StringTokens(parts) + rest && Lookahead(rest) != 9
    ensures Comes(c, DoStrings(parts, c.ctx), c.states + [SimpleState(Below(c.states, 0))], c.values + [None], rest)
  {
    hide Run, Semantic, SimpleState, StackOk, Comes, StringTokens, Lookahead;
    SoundSizes(c);
    PartsTokens(parts, rest);
    var more := StringTokens(parts[1..]) + rest;
    FirstPartMove(c, parts[0], more);
    var e := Conf(c.states + [22], c.values + [None], more, AppendText(c.ctx, Some(StringTok(parts[0]))).ctx);
    MorePartsMove(e, c.states, c.values, parts[1..], rest);
    Moved(c, e, DoStrings(parts[1..], e.ctx), c.states + [SimpleState(Below(c.states, 0))], c.values + [None], rest);
  }

  lemma PartsTokens(parts: seq<string>, rest: seq<Token>)
    requires |parts| > 0
    ensures StringTokens(parts) + rest == [StringTok(parts[0])] + (StringTokens(parts[1..]) + rest)
  {
  }

  lemma SoundSizes(c: Conf)
    requires Sound(c)
    ensures |c.values| == |c.states| > 0 && InRange(c.ctx)
  {
  }

  lemma SimpleMove(c: Conf, v: Val, rest: seq<Token>)
    requires Sound(c) && |c.states| + Peak(v) < YYMAXDEPTH && WantsSimple(Below(c.states, 0))
    requires Simple(v) && c.input == ValTokens(v) + rest && Lookahead(rest) != 9
    ensures Comes(c, DoVal(v, c.ctx), c.states + [SimpleState(Below(c.states, 0))], c.values + [None], rest)
  {
    hide Run, Comes, Semantic, Sound, Action;
    match v
    case Plain(t) => PlainMove(c, t, rest);
    case Strings(parts) => StringsMove(c, parts, rest);
  }

  // ---------- values ----------

  /** Where a value is recognised. */
  function ValueState(state: nat): nat {
    if state == 26 then 35 else if state == 42 then 46 else 21
  }

  /** The states in which the five forms of a value are complete, and the rules that make a value of them. */
  function ValueRule(state: nat): nat {
    if state == 23 then 17 else if state == 19 then 18 else if state == 20 then 19 else 20
  }

  predicate CompletesValue(state: nat) {
    state == 23 || state == 19 || state == 20 || state == 24
  }

  lemma ValueStates(state: nat, p: nat)
    requires CompletesValue(state) && WantsValue(p)
    ensures YyPact(state) == YYPACT_NINF && YyDefAct(state) == ValueRule(state) && 17 <= ValueRule(state) <= 20
    ensures YyR2(ValueRule(state)) == 1 && YyR1(ValueRule(state)) == 34
    ensures Goto(p, 34) == ValueState(p) && p < YYNSTATES
  {
    hide Goto;
    Gotos(p, 34);
  }

  lemma NoAction(rule: nat, ctx: Context, top: Option<Token>)
    requires InRange(ctx) && (rule < 11 || rule == 12 || 17 <= rule <= 20 || 30 <= rule <= 37)
    ensures Semantic(rule, ctx, top) == Next(ctx)
  {
  }

  /** A complete form becomes a value. */
  lemma BecomesValue(c: Conf, base: seq<nat>, values: seq<Option<Token>>, state: nat)
    requires Sound(c) && |c.states| < YYMAXDEPTH && 0 < |base| == |values| && c.states == base + [state]
    requires c.values[..|base|] == values && WantsValue(Below(base, 0)) && CompletesValue(state)
    ensures var d := Conf(base + [ValueState(Below(base, 0))], values + [None], c.input, c.ctx);
            Sound(d) && Run(c) == Run(d)
  {
    hide Run, Action, Semantic, Goto, YyPact, YyDefAct, YyR1, YyR2, Edge, Rank, ValueRule, ValueState, WantsValue;
    ValueStates(state, Below(base, 0));
    DefaultAction(state, Lookahead(c.input));
    UnitMove(c, base, values, state, ValueRule(state), ValueState(Below(base, 0)));
    NoAction(ValueRule(state), c.ctx, c.values[|c.values| - 1]);
  }

  lemma ValuesAgree(c: Conf, done: Done, states: seq<nat>, values: seq<Option<Token>>, input: seq<Token>, state: nat)
    requires Sound(c) && Comes(c, done, states + [state], values + [None], input)
    requires |states| + 1 < YYMAXDEPTH && 0 < |states| == |values| && WantsValue(Below(states, 0)) && CompletesValue(state)
    ensures Comes(c, done, states + [ValueState(Below(states, 0))], values + [None], input)
  {
    hide Run, StackOk, CompletesValue, WantsValue, ValueState;
    if done.Next? {
      BecomesValue(Conf(states + [state], values + [None], input, done.ctx), states, values, state);
    }
  }

  // ---------- elements of arrays and lists ----------

  function OpenState(list: bool): nat { if list then 26 else 25 }
  function ListState(list: bool): nat { if list then 36 else 33 }
  function CommaState(list: bool): nat { if list then 42 else 40 }
  function FirstState(list: bool): nat { if list then 35 else 32 }
  function MoreState(list: bool): nat { if list then 46 else 45 }
  function EndState(list: bool): nat { if list then 37 else 34 }
  function FirstRule(list: bool): nat { if list then 30 else 34 }
  function MoreRule(list: bool): nat { if list then 31 else 35 }
  function NoneRule(list: bool): nat { if list then 32 else 36 }
  function SomeRule(list: bool): nat { if list then 33 else 37 }
  function EndToken(list: bool): Token { if list then ListEndTok else ArrayEndTok }

  lemma ElementTables()
    ensures Action(36, 17) == Shift(42) && Action(36, 16) == Reduce(33) && Action(26, 16) == Reduce(32)
    ensures Action(33, 17) == Shift(40) && Action(33, 14) == Reduce(37) && Action(25, 14) == Reduce(36)
  {
  }

  lemma ListActions()
    ensures Action(ListState(true), 17) == Shift(CommaState(true))
    ensures Action(ListState(true), Symbol(EndToken(true))) == Reduce(SomeRule(true))
    ensures Action(OpenState(true), Symbol(EndToken(true))) == Reduce(NoneRule(true))
  {
    hide Action;
    ElementTables();
  }

  lemma ListStates()
    ensures YyPact(FirstState(true)) == YYPACT_NINF && YyDefAct(FirstState(true)) == FirstRule(true)
    ensures YyPact(MoreState(true)) == YYPACT_NINF && YyDefAct(MoreState(true)) == MoreRule(true)
    ensures YyR2(FirstRule(true)) == 1 && YyR2(MoreRule(true)) == 3 && YyR2(NoneRule(true)) == 0 && YyR2(SomeRule(true)) == 1
    ensures Goto(OpenState(true), YyR1(FirstRule(true))) == ListState(true)
    ensures Goto(OpenState(true), YyR1(MoreRule(true))) == ListState(true)
    ensures Goto(OpenState(true), YyR1(NoneRule(true))) == EndState(true)
    ensures Goto(OpenState(true), YyR1(SomeRule(true))) == EndState(true)
  {
    hide Goto;
    Gotos(26, 37);
    Gotos(26, 38);
  }

  lemma ArrayActions()
    ensures Action(ListState(false), 17) == Shift(CommaState(false))
    ensures Action(ListState(false), Symbol(EndToken(false))) == Reduce(SomeRule(false))
    ensures Action(OpenState(false), Symbol(EndToken(false))) == Reduce(NoneRule(false))
  {
    hide Action;
    ElementTables();
  }

  lemma ArrayStates()
    ensures YyPact(FirstState(false)) == YYPACT_NINF && YyDefAct(FirstState(false)) == FirstRule(false)
    ensures YyPact(MoreState(false)) == YYPACT_NINF && YyDefAct(MoreState(false)) == MoreRule(false)
    ensures YyR2(FirstRule(false)) == 1 && YyR2(MoreRule(false)) == 3 && YyR2(NoneRule(false)) == 0 && YyR2(SomeRule(false)) == 1
    ensures Goto(OpenState(false), YyR1(FirstRule(false))) == ListState(false)
    ensures Goto(OpenState(false), YyR1(MoreRule(false))) == ListState(false)
    ensures Goto(OpenState(false), YyR1(NoneRule(false))) == EndState(false)
    ensures Goto(OpenState(false), YyR1(SomeRule(false))) == EndState(false)
  {
    hide Goto;
    Gotos(25, 39);
    Gotos(25, 40);
  }

  lemma ElementStates(list: bool)
    ensures YyPact(FirstState(list)) == YYPACT_NINF && YyDefAct(FirstState(list)) == FirstRule(list)
    ensures YyPact(MoreState(list)) == YYPACT_NINF && YyDefAct(MoreState(list)) == MoreRule(list)
    ensures YyR2(FirstRule(list)) == 1 && YyR2(MoreRule(list)) == 3 && YyR2(NoneRule(list)) == 0 && YyR2(SomeRule(list)) == 1
    ensures Goto(OpenState(list), YyR1(FirstRule(list))) == ListState(list)
    ensures Goto(OpenState(list), YyR1(MoreRule(list))) == ListState(list)
    ensures Goto(OpenState(list), YyR1(NoneRule(list))) == EndState(list)
    ensures Goto(OpenState(list), YyR1(SomeRule(list))) == EndState(list)
    ensures Action(ListState(list), 17) == Shift(CommaState(list))
    ensures Action(ListState(list), Symbol(EndToken(list))) == Reduce(SomeRule(list))
    ensures Action(OpenState(list), Symbol(EndToken(list))) == Reduce(NoneRule(list))
  {
    hide Action, Goto, YyR1, YyR2, YyPact, YyDefAct;
    if list {
      ListStates();
      ListActions();
    } else {
      ArrayStates();
      ArrayActions();
    }
  }

  /** The state on top once an element is complete. */
  function ElementState(list: bool, state: nat): nat {
    if list then ValueState(state) else SimpleState(state)
  }

  /** An element joins the ones before it: `mid` is empty, or the list so far and a comma. */
  lemma JoinMove(c: Conf, list: bool, base: seq<nat>, values: seq<Option<Token>>, mid: seq<nat>)
    requires Sound(c) && |c.states| < YYMAXDEPTH && 0 < |base| == |values| && Below(base, 0) == OpenState(list)
    requires mid == [] || mid == [ListState(list), CommaState(list)]
    requires c.states == base + mid + [if mid == [] then FirstState(list) else MoreState(list)] && c.values[..|base|] == values
    ensures var d := Conf(base + [ListState(list)], values + [None], c.input, c.ctx);
            Sound(d) && Run(c) == Run(d)
  {
    hide Run, Action, Semantic, Goto, YyPact, YyDefAct, YyR1, YyR2, Edge, Rank;
    ElementStates(list);
    var state := Below(c.states, 0);
    var rule := if mid == [] then FirstRule(list) else MoreRule(list);
    DefaultAction(state, Lookahead(c.input));
    assert c.states[..|base|] == base;
    ReduceMove(c, base, values, rule);
    NoAction(rule, c.ctx, c.values[|c.values| - 1]);
  }

  predicate ElementFormed(list: bool, v: Val) {
    if list then Formed(v) else Simple(v)
  }

  predicate ElementsFormed(list: bool, items: seq<Val>) {
    forall k | 0 <= k < |items| :: ElementFormed(list, items[k])
  }

  lemma ElementMove(c: Conf, list: bool, v: Val, rest: seq<Token>)
    requires Sound(c) && (Below(c.states, 0) == OpenState(list) || Below(c.states, 0) == CommaState(list))
    requires ElementFormed(list, v) && |c.states| + Peak(v) < YYMAXDEPTH
    requires c.input == ValTokens(v) + rest && Lookahead(rest) != 9
    ensures Comes(c, DoVal(v, c.ctx), c.states + [ElementState(list, Below(c.states, 0))], c.values + [None], rest)
    decreases v, 2
  {
    hide Run, Comes, Sound, ValTokens, DoVal;
    if list {
      ValueMove(c, v, rest);
    } else {
      SimpleMove(c, v, rest);
    }
  }

  /** One element is recognised and joins the ones before it. */
  lemma ElementJoins(c: Conf, list: bool, base: seq<nat>, values: seq<Option<Token>>, mid: seq<nat>, v: Val, rest: seq<Token>)
    requires Sound(c) && 0 < |base| == |values| && Below(base, 0) == OpenState(list)
    requires mid == [] || mid == [ListState(list), CommaState(list)]
    requires c.states == base + mid && c.values[..|base|] == values
    requires ElementFormed(list, v) && |c.states| + Peak(v) < YYMAXDEPTH
    requires c.input == ValTokens(v) + rest && Lookahead(rest) != 9
    ensures Comes(c, DoVal(v, c.ctx), base + [ListState(list)], values + [None], rest)
    decreases v, 3
  {
    hide Run, DoVal, StackOk, Edge, Rank, ElementFormed, ValTokens, Peak;
    ElementMove(c, list, v, rest);
    var done := DoVal(v, c.ctx);
    if done.Next? {
      var d := Conf(c.states + [ElementState(list, Below(c.states, 0))], c.values + [None], rest, done.ctx);
      JoinMove(d, list, base, values, mid);
    }
  }

  /** A comma after the elements so far. */
  lemma CommaMove(c: Conf, list: bool, base: seq<nat>, values: seq<Option<Token>>, rest: seq<Token>)
    requires Sound(c) && 0 < |base| == |values| && |base| + 1 < YYMAXDEPTH
    requires c.states == base + [ListState(list)] && c.values[..|base|] == values && c.input == [CommaTok] + rest
    ensures var d := Conf(base + [ListState(list), CommaState(list)], c.values + [Some(CommaTok)], rest, c.ctx);
            Sound(d) && Run(c) == Run(d)
  {
    hide Run, Edge, Rank, Action, StackOk;
    ElementStates(list);
    ShiftMove(c, ListState(list), CommaTok, rest, CommaState(list));
    assert c.states + [CommaState(list)] == base + [ListState(list), CommaState(list)];
  }

  /** The elements of an array or a list, separated by commas. */
  lemma {:induction false} ElementsMove(c: Conf, list: bool, base: seq<nat>, values: seq<Option<Token>>, mid: seq<nat>, items: seq<Val>, rest: seq<Token>)
    requires Sound(c) && 0 < |base| == |values| && Below(base, 0) == OpenState(list)
    requires mid == [] || mid == [ListState(list), CommaState(list)]
    requires c.states == base + mid && c.values[..|base|] == values
    requires |items| > 0 && ElementsFormed(list, items) && |base| + ElementsPeak(items, mid == []) < YYMAXDEPTH
    requires c.input == ItemTokens(items) + rest && Lookahead(rest) == Symbol(EndToken(list))
    ensures Comes(c, DoItems(items, c.ctx), base + [ListState(list)], values + [None], rest)
    decreases items, 2
  {
    hide Run, DoVal, StackOk, Edge, Rank, ElementsFormed, ElementFormed, ElementsPeak, ValTokens, ItemTokens, Peak, Sound;
    var last := |items| == 1;
    var tail := if last then rest else [CommaTok] + (ItemTokens(items[1..]) + rest);
    ElementsTokens(items, rest);
    FirstElement(list, items);
    FirstPeak(items, mid == []);
    SoundSizes(c);
    ElementJoins(c, list, base, values, mid, items[0], tail);
    var done := DoVal(items[0], c.ctx);
    if done.Next? && !last {
      var e := Conf(base + [ListState(list)], values + [None], tail, done.ctx);
      var more := ItemTokens(items[1..]) + rest;
      CommaMove(e, list, base, values, more);
      var f := Conf(base + [ListState(list), CommaState(list)], e.values + [Some(CommaTok)], more, done.ctx);
      ElementsMove(f, list, base, values, [ListState(list), CommaState(list)], items[1..], rest);
    }
  }

  lemma {:induction false} FirstElement(list: bool, items: seq<Val>)
    requires |items| > 0 && ElementsFormed(list, items)
    ensures ElementFormed(list, items[0]) && ElementsFormed(list, items[1..])
  {
    hide ElementFormed;
    forall k | 0 <= k < |items[1..]| ensures ElementFormed(list, items[1..][k]) {
      assert items[1..][k] == items[k + 1];
    }
  }

  lemma {:induction false} FirstPeak(items: seq<Val>, first: bool)
    requires |items| > 0
    ensures ElementsPeak(items, first) == Larger(if first then Peak(items[0]) else 2 + Peak(items[0]), ElementsPeak(items[1..], false))
    ensures |items| == 1 ==> ElementsPeak(items[1..], false) == 0
  {
    hide Peak;
  }

  lemma ElementsTokens(items: seq<Val>, rest: seq<Token>)
    requires |items| > 0
    ensures ItemTokens(items) + rest ==
      ValTokens(items[0]) + (if |items| == 1 then rest else [CommaTok] + (ItemTokens(items[1..]) + rest))
  {
  }

  // ---------- arrays and lists ----------

  function StartToken(list: bool): Token { if list then ListStartTok else ArrayStartTok }
  function StartState(list: bool): nat { if list then 17 else 16 }
  function StartRule(list: bool): nat { if list then 15 else 13 }
  function CloseState(list: bool): nat { if list then 43 else 41 }
  function CloseRule(list: bool): nat { if list then 16 else 14 }
  function BracketState(list: bool): nat { if list then 20 else 19 }

  lemma ListTables()
    ensures YyPact(17) == YYPACT_NINF && YyDefAct(17) == 15 && YyR2(15) == 0
    ensures Action(37, 16) == Shift(43)
    ensures YyPact(43) == YYPACT_NINF && YyDefAct(43) == 16 && YyR2(16) == 4
  {
  }

  lemma ListBrackets()
    ensures YyPact(StartState(true)) == YYPACT_NINF && YyDefAct(StartState(true)) == StartRule(true) && YyR2(StartRule(true)) == 0
    ensures Action(EndState(true), Symbol(EndToken(true))) == Shift(CloseState(true))
    ensures YyPact(CloseState(true)) == YYPACT_NINF && YyDefAct(CloseState(true)) == CloseRule(true) && YyR2(CloseRule(true)) == 4
  {
    hide Action, YyPact, YyDefAct, YyR2;
    ListTables();
  }

  lemma ListBracketStates(p: nat)
    requires WantsValue(p)
    ensures Action(p, Symbol(StartToken(true))) == Shift(StartState(true))
    ensures YyPact(StartState(true)) == YYPACT_NINF && YyDefAct(StartState(true)) == StartRule(true)
    ensures YyR2(StartRule(true)) == 0 && Goto(StartState(true), YyR1(StartRule(true))) == OpenState(true)
    ensures Action(EndState(true), Symbol(EndToken(true))) == Shift(CloseState(true))
    ensures YyPact(CloseState(true)) == YYPACT_NINF && YyDefAct(CloseState(true)) == CloseRule(true)
    ensures YyR2(CloseRule(true)) == 4 && Goto(p, YyR1(CloseRule(true))) == BracketState(true)
  {
    hide Goto, WantsValue, Action, YyPact, YyDefAct, YyR2;
    ListBrackets();
    BracketActions(p);
    ValueSmall(p);
    Gotos(17, 33);
    Gotos(p, 32);
  }

  lemma ArrayTables()
    ensures YyPact(16) == YYPACT_NINF && YyDefAct(16) == 13 && YyR2(13) == 0
    ensures Action(34, 14) == Shift(41)
    ensures YyPact(41) == YYPACT_NINF && YyDefAct(41) == 14 && YyR2(14) == 4
  {
  }

  lemma ArrayBrackets()
    ensures YyPact(StartState(false)) == YYPACT_NINF && YyDefAct(StartState(false)) == StartRule(false) && YyR2(StartRule(false)) == 0
    ensures Action(EndState(false), Symbol(EndToken(false))) == Shift(CloseState(false))
    ensures YyPact(CloseState(false)) == YYPACT_NINF && YyDefAct(CloseState(false)) == CloseRule(false) && YyR2(CloseRule(false)) == 4
  {
    hide Action, YyPact, YyDefAct, YyR2;
    ArrayTables();
  }

  lemma ArrayBracketStates(p: nat)
    requires WantsValue(p)
    ensures Action(p, Symbol(StartToken(false))) == Shift(StartState(false))
    ensures YyPact(StartState(false)) == YYPACT_NINF && YyDefAct(StartState(false)) == StartRule(false)
    ensures YyR2(StartRule(false)) == 0 && Goto(StartState(false), YyR1(StartRule(false))) == OpenState(false)
    ensures Action(EndState(false), Symbol(EndToken(false))) == Shift(CloseState(false))
    ensures YyPact(CloseState(false)) == YYPACT_NINF && YyDefAct(CloseState(false)) == CloseRule(false)
    ensures YyR2(CloseRule(false)) == 4 && Goto(p, YyR1(CloseRule(false))) == BracketState(false)
  {
    hide Goto, WantsValue, Action, YyPact, YyDefAct, YyR2;
    ArrayBrackets();
    BracketActions(p);
    ValueSmall(p);
    Gotos(16, 31);
    Gotos(p, 30);
  }

  lemma BracketStates(list: bool, p: nat)
    requires WantsValue(p)
    ensures Action(p, Symbol(StartToken(list))) == Shift(StartState(list))
    ensures YyPact(StartState(list)) == YYPACT_NINF && YyDefAct(StartState(list)) == StartRule(list)
    ensures YyR2(StartRule(list)) == 0 && Goto(StartState(list), YyR1(StartRule(list))) == OpenState(list)
    ensures Action(EndState(list), Symbol(EndToken(list))) == Shift(CloseState(list))
    ensures YyPact(CloseState(list)) == YYPACT_NINF && YyDefAct(CloseState(list)) == CloseRule(list)
    ensures YyR2(CloseRule(list)) == 4 && Goto(p, YyR1(CloseRule(list))) == BracketState(list)
  {
    if list {
      ListBracketStates(p);
    } else {
      ArrayBracketStates(p);
    }
  }

  lemma ValueSmall(p: nat)
    requires WantsValue(p)
    ensures p < YYNSTATES && p != YYFINAL
  {
  }

  /** The action that opens or closes does not look at the value stack. */
  lemma BracketAction(rule: nat, ctx: Context, top: Option<Token>)
    requires InRange(ctx) && 13 <= rule <= 16
    ensures Semantic(rule, ctx, top) == Semantic(rule, ctx, None)
    ensures rule == 14 || rule == 16 ==> Semantic(rule, ctx, top) == Next(Close(ctx))
  {
  }

  lemma OpenMove(c: Conf, list: bool, rest: seq<Token>)
    requires Sound(c) && |c.states| + 1 < YYMAXDEPTH && WantsValue(Below(c.states, 0))
    requires c.input == [StartToken(list)] + rest
    ensures Comes(c, Semantic(StartRule(list), c.ctx, None), c.states + [StartState(list), OpenState(list)],
                  c.values + [Some(StartToken(list)), None], rest)
  {
    hide Run, Action, Semantic, Goto, YyPact, YyDefAct, YyR1, YyR2, Edge, Rank, WantsValue, Symbol;
    var p := Below(c.states, 0);
    BracketStates(list, p);
    ValueSmall(p);
    ShiftMove(c, p, StartToken(list), rest, StartState(list));
    var d := Conf(c.states + [StartState(list)], c.values + [Some(StartToken(list))], rest, c.ctx);
    DefaultAction(StartState(list), Lookahead(rest));
    EmptyMove(d, StartState(list), StartRule(list), OpenState(list));
    BracketAction(StartRule(list), c.ctx, Some(StartToken(list)));
    assert c.states + [StartState(list)] + [OpenState(list)] == c.states + [StartState(list), OpenState(list)];
    assert c.values + [Some(StartToken(list))] + [None] == c.values + [Some(StartToken(list)), None];
  }

  /** From an opened bracket to the state before its closing token. */
  lemma InsideMove(c: Conf, list: bool, items: seq<Val>, rest: seq<Token>)
    requires Sound(c) && Below(c.states, 0) == OpenState(list)
    requires ElementsFormed(list, items) && |c.states| + ElementsPeak(items, true) < YYMAXDEPTH
    requires c.input == ItemTokens(items) + rest && Lookahead(rest) == Symbol(EndToken(list))
    ensures Comes(c, DoItems(items, c.ctx), c.states + [EndState(list)], c.values + [None], rest)
    decreases items, 3
  {
    hide Run, Action, Semantic, Goto, YyPact, YyDefAct, YyR1, YyR2, Edge, Rank, DoVal, Symbol, ValTokens;
    ElementStates(list);
    SoundSizes(c);
    if |items| == 0 {
      assert c.input == rest;
      EmptyMove(c, OpenState(list), NoneRule(list), EndState(list));
      NoAction(NoneRule(list), c.ctx, c.values[|c.values| - 1]);
    } else {
      assert c.states + [] == c.states && c.values[..|c.states|] == c.values;
      ElementsMove(c, list, c.states, c.values, [], items, rest);
      var done := DoItems(items, c.ctx);
      if done.Next? {
        var d := Conf(c.states + [ListState(list)], c.values + [None], rest, done.ctx);
        UnitMove(d, c.states, c.values, ListState(list), SomeRule(list), EndState(list));
        NoAction(SomeRule(list), done.ctx, d.values[|d.values| - 1]);
      }
    }
  }

  /** The closing token and the reduction of the whole bracket to a value. */
  lemma CloseMove(c: Conf, list: bool, base: seq<nat>, values: seq<Option<Token>>, rest: seq<Token>)
    requires Sound(c) && |c.states| + 1 < YYMAXDEPTH && 0 < |base| == |values| && WantsValue(Below(base, 0))
    requires c.states == base + [StartState(list), OpenState(list), EndState(list)] && c.values[..|base|] == values
    requires c.input == [EndToken(list)] + rest
    ensures Comes(c, Next(Close(c.ctx)), base + [ValueState(Below(base, 0))], values + [None], rest)
  {
    hide Run, Action, Semantic, Goto, YyPact, YyDefAct, YyR1, YyR2, Edge, Rank, WantsValue, Symbol, Close;
    var p := Below(base, 0);
    BracketStates(list, p);
    ValueSmall(p);
    ShiftMove(c, EndState(list), EndToken(list), rest, CloseState(list));
    var d := Conf(c.states + [CloseState(list)], c.values + [Some(EndToken(list))], rest, c.ctx);
    DefaultAction(CloseState(list), Lookahead(rest));
    assert d.states[..|base|] == base && d.values[..|base|] == values;
    ReduceMove(d, base, values, CloseRule(list));
    BracketAction(CloseRule(list), c.ctx, d.values[|d.values| - 1]);
    ValuesAgree(d, Next(Close(c.ctx)), base, values, rest, BracketState(list));
  }

  lemma BracketMove(c: Conf, list: bool, items: seq<Val>, rest: seq<Token>)
    requires Sound(c) && WantsValue(Below(c.states, 0)) && |c.states| + 4 < YYMAXDEPTH
    requires ElementsFormed(list, items) && |c.states| + 2 + ElementsPeak(items, true) < YYMAXDEPTH
    requires c.input == [StartToken(list)] + (ItemTokens(items) + ([EndToken(list)] + rest))
    ensures Comes(c, DoBracket(Semantic(StartRule(list), c.ctx, None), items), c.states + [ValueState(Below(c.states, 0))], c.values + [None], rest)
    decreases items, 4
  {
    hide Run, StackOk, Semantic, DoItems, ItemTokens, Close, WantsValue, Edge, Rank;
    SoundSizes(c);
    var tail := [EndToken(list)] + rest;
    OpenMove(c, list, ItemTokens(items) + tail);
    var start := Semantic(StartRule(list), c.ctx, None);
    if start.Next? {
      var d := Conf(c.states + [StartState(list), OpenState(list)], c.values + [Some(StartToken(list)), None], ItemTokens(items) + tail, start.ctx);
      InsideMove(d, list, items, tail);
      var done := DoItems(items, start.ctx);
      if done.Next? {
        var e := Conf(d.states + [EndState(list)], d.values + [None], tail, done.ctx);
        assert e.states == c.states + [StartState(list), OpenState(list), EndState(list)] && e.values[..|c.values|] == c.values;
        CloseMove(e, list, c.states, c.values, rest);
      }
    }
  }

  // ---------- groups ----------

  predicate WantsSetting(state: nat) {
    state == 0 || state == 27 || state == 3 || state == 38
  }

  function SettingState(state: nat): nat { if state == 0 || state == 27 then 4 else 7 }
  function SettingsState(state: nat): nat { if state == 0 then 3 else 38 }

  lemma SettingStates(q: nat)
    requires WantsSetting(q)
    ensures q < YYNSTATES && q != YYFINAL && Action(q, 10) == Shift(1) && Goto(q, 28) == SettingState(q)
    ensures YyPact(1) == YYPACT_NINF && YyDefAct(1) == 11 && YyR2(11) == 0 && Goto(1, YyR1(11)) == 5
    ensures Action(5, 11) == Shift(8)
    ensures YyPact(30) == YYPACT_NINF && YyDefAct(30) == 12 && YyR2(12) == 5 && YyR1(12) == 28
  {
  }

  lemma TerminatorStates()
    ensures Action(21, 17) == Shift(28) && Action(21, 20) == Shift(29)
    ensures forall token | 0 <= token < YYNTOKENS && token != 17 && token != 20 :: Action(21, token) == Reduce(8)
    ensures YyR2(8) == 0 && YyR1(8) == YyR1(9) == YyR1(10) == 27 && Goto(21, 27) == 30
    ensures YyPact(28) == YYPACT_NINF && YyDefAct(28) == 10 && YyR2(10) == 1
    ensures YyPact(29) == YYPACT_NINF && YyDefAct(29) == 9 && YyR2(9) == 1
  {
  }

  lemma TerminatorMove(c: Conf, end: Terminator, rest: seq<Token>)
    requires Sound(c) && |c.states| + 1 < YYMAXDEPTH && Below(c.states, 0) == 21
    requires c.input == EndTokens(end) + rest && Lookahead(rest) != 17 && Lookahead(rest) != 20
    ensures Comes(c, Next(c.ctx), c.states + [30], c.values + [None], rest)
  {
    hide Run, Action, Semantic, Goto, YyPact, YyDefAct, YyR1, YyR2, Edge, Rank;
    TerminatorStates();
    SoundSizes(c);
    match end
    case Bare =>
      assert c.input == rest;
      EmptyMove(c, 21, 8, 30);
      NoAction(8, c.ctx, c.values[|c.values| - 1]);
    case Semi => TerminatorTokenMove(c, SemicolonTok, 29, 9, rest);
    case Comma => TerminatorTokenMove(c, CommaTok, 28, 10, rest);
  }

  lemma TerminatorTokenMove(c: Conf, t: Token, state: nat, rule: nat, rest: seq<Token>)
    requires Sound(c) && |c.states| + 1 < YYMAXDEPTH && Below(c.states, 0) == 21
    requires (t == SemicolonTok && state == 29 && rule == 9) || (t == CommaTok && state == 28 && rule == 10)
    requires c.input == [t] + rest
    ensures Comes(c, Next(c.ctx), c.states + [30], c.values + [None], rest)
  {
    hide Run, Action, Semantic, Goto, YyPact, YyDefAct, YyR1, YyR2, Edge, Rank;
    TerminatorStates();
    SoundSizes(c);
    ShiftMove(c, 21, t, rest, state);
    var d := Conf(c.states + [state], c.values + [Some(t)], rest, c.ctx);
    DefaultAction(state, Lookahead(rest));
    assert d.values[..|c.states|] == c.values;
    UnitMove(d, c.states, c.values, state, rule, 30);
    NoAction(rule, c.ctx, d.values[|d.values| - 1]);
  }

  lemma NameAction(ctx: Context, name: string)
    requires InRange(ctx)
    ensures Semantic(11, ctx, Some(NameTok(name))) == NewSetting(ctx, name)
  {
  }

  /** A name and its equals sign. */
  lemma NameMove(c: Conf, name: string, rest: seq<Token>)
    requires Sound(c) && |c.states| + 2 < YYMAXDEPTH && WantsSetting(Below(c.states, 0))
    requires c.input == [NameTok(name)] + ([EqualsTok] + rest)
    ensures Comes(c, NewSetting(c.ctx, name), c.states + [1, 5, 8], c.values + [Some(NameTok(name)), None, Some(EqualsTok)], rest)
  {
    hide Run, Action, Semantic, Goto, YyPact, YyDefAct, YyR1, YyR2, Edge, Rank, WantsSetting, NewSetting;
    var q, t := Below(c.states, 0), NameTok(name);
    SettingStates(q);
    SoundSizes(c);
    ShiftMove(c, q, t, [EqualsTok] + rest, 1);
    var d := Conf(c.states + [1], c.values + [Some(t)], [EqualsTok] + rest, c.ctx);
    DefaultAction(1, Lookahead(d.input));
    EmptyMove(d, 1, 11, 5);
    NameAction(c.ctx, name);
    var done := NewSetting(c.ctx, name);
    if done.Next? {
      var e := Conf(d.states + [5], d.values + [None], d.input, done.ctx);
      ShiftMove(e, 5, EqualsTok, rest, 8);
      assert e.states + [8] == c.states + [1, 5, 8];
      assert e.values + [Some(EqualsTok)] == c.values + [Some(t), None, Some(EqualsTok)];
    }
  }

  /** A setting is complete: name, mid-rule action, equals sign, value and terminator are reduced. */
  lemma SettingMove(c: Conf, base: seq<nat>, values: seq<Option<Token>>)
    requires Sound(c) && |c.states| < YYMAXDEPTH && 0 < |base| == |values| && WantsSetting(Below(base, 0))
    requires c.states == base + [1, 5, 8, 21, 30] && c.values[..|base|] == values
    ensures Comes(c, Next(c.ctx), base + [SettingState(Below(base, 0))], values + [None], c.input)
  {
    hide Run, Action, Semantic, Goto, YyPact, YyDefAct, YyR1, YyR2, Edge, Rank, WantsSetting;
    SettingStates(Below(base, 0));
    DefaultAction(30, Lookahead(c.input));
    assert c.states[..|base|] == base;
    ReduceMove(c, base, values, 12);
    NoAction(12, c.ctx, c.values[|c.values| - 1]);
  }

  predicate EndsSetting(token: nat) {
    token == 0 || token == 10 || token == 19
  }

  lemma FieldMove(c: Conf, f: Field, rest: seq<Token>)
    requires Sound(c) && WantsSetting(Below(c.states, 0)) && Formed(f.value) && |c.states| + FieldPeak(f) < YYMAXDEPTH
    requires c.input == FieldTokens(f) + rest && EndsSetting(Lookahead(rest))
    ensures Comes(c, DoField(f, c.ctx), c.states + [SettingState(Below(c.states, 0))], c.values + [None], rest)
    decreases f, 0
  {
    hide Run, StackOk, WantsSetting, NewSetting, DoVal, ValTokens, Edge, Rank, EndTokens;
    SoundSizes(c);
    var tail := EndTokens(f.end) + rest;
    assert c.input == [NameTok(f.name)] + ([EqualsTok] + (ValTokens(f.value) + tail));
    NameMove(c, f.name, ValTokens(f.value) + tail);
    var named := NewSetting(c.ctx, f.name);
    if named.Next? {
      var d := Conf(c.states + [1, 5, 8], c.values + [Some(NameTok(f.name)), None, Some(EqualsTok)], ValTokens(f.value) + tail, named.ctx);
      TailLookahead(f.end, rest);
      ValueMove(d, f.value, tail);
      var done := DoVal(f.value, named.ctx);
      if done.Next? {
        var e := Conf(d.states + [21], d.values + [None], tail, done.ctx);
        TerminatorMove(e, f.end, rest);
        var g := Conf(e.states + [30], e.values + [None], rest, done.ctx);
        assert g.states == c.states + [1, 5, 8, 21, 30] && g.values[..|c.values|] == c.values;
        SettingMove(g, c.states, c.values);
      }
    }
  }

  lemma TailLookahead(end: Terminator, rest: seq<Token>)
    requires EndsSetting(Lookahead(rest))
    ensures Lookahead(EndTokens(end) + rest) != 9
  {
    if end == Bare {
      assert EndTokens(end) + rest == rest;
    }
  }

  lemma SettingListStates(o: nat)
    requires o == 0 || o == 27
    ensures YyPact(4) == YYPACT_NINF && YyDefAct(4) == 4 && YyR2(4) == 1 && Goto(o, YyR1(4)) == SettingsState(o)
    ensures YyPact(7) == YYPACT_NINF && YyDefAct(7) == 5 && YyR2(5) == 2 && Goto(o, YyR1(5)) == SettingsState(o)
  {
  }

  /** A setting joins the ones before it. */
  lemma JoinSetting(c: Conf, base: seq<nat>, values: seq<Option<Token>>, mid: seq<nat>)
    requires Sound(c) && |c.states| < YYMAXDEPTH && 0 < |base| == |values| && (Below(base, 0) == 0 || Below(base, 0) == 27)
    requires mid == [] || mid == [SettingsState(Below(base, 0))]
    requires c.states == base + mid + [if mid == [] then 4 else 7] && c.values[..|base|] == values
    ensures var d := Conf(base + [SettingsState(Below(base, 0))], values + [None], c.input, c.ctx);
            Sound(d) && Run(c) == Run(d)
  {
    hide Run, Action, Semantic, Goto, YyPact, YyDefAct, YyR1, YyR2, Edge, Rank;
    SettingListStates(Below(base, 0));
    var rule := if mid == [] then 4 else 5;
    DefaultAction(Below(c.states, 0), Lookahead(c.input));
    assert c.states[..|base|] == base;
    ReduceMove(c, base, values, rule);
    NoAction(rule, c.ctx, c.values[|c.values| - 1]);
  }

  /** One setting is recognised and joins the ones before it. */
  lemma FieldJoins(c: Conf, base: seq<nat>, values: seq<Option<Token>>, mid: seq<nat>, f: Field, rest: seq<Token>)
    requires Sound(c) && 0 < |base| == |values| && (Below(base, 0) == 0 || Below(base, 0) == 27)
    requires mid == [] || mid == [SettingsState(Below(base, 0))]
    requires c.states == base + mid && c.values[..|base|] == values
    requires Formed(f.value) && |c.states| + FieldPeak(f) < YYMAXDEPTH
    requires c.input == FieldTokens(f) + rest && EndsSetting(Lookahead(rest))
    ensures Comes(c, DoField(f, c.ctx), base + [SettingsState(Below(base, 0))], values + [None], rest)
    decreases f, 1
  {
    hide Run, DoField, StackOk, Edge, Rank, Formed, FieldTokens, FieldPeak;
    FieldMove(c, f, rest);
    var done := DoField(f, c.ctx);
    if done.Next? {
      var d := Conf(c.states + [SettingState(Below(c.states, 0))], c.values + [None], rest, done.ctx);
      JoinSetting(d, base, values, mid);
    }
  }

  /** The settings of a group, or of the whole configuration. */
  lemma {:induction false} FieldsMove(c: Conf, base: seq<nat>, values: seq<Option<Token>>, mid: seq<nat>, fields: seq<Field>, rest: seq<Token>)
    requires Sound(c) && 0 < |base| == |values| && (Below(base, 0) == 0 || Below(base, 0) == 27)
    requires mid == [] || mid == [SettingsState(Below(base, 0))]
    requires c.states == base + mid && c.values[..|base|] == values
    requires |fields| > 0 && AllFormed(fields) && |base| + FieldsPeak(fields, mid == []) < YYMAXDEPTH
    requires c.input == FieldsTokens(fields) + rest && (Lookahead(rest) == 0 || Lookahead(rest) == 19)
    ensures Comes(c, DoFields(fields, c.ctx), base + [SettingsState(Below(base, 0))], values + [None], rest)
    decreases fields, 2
  {
    hide Run, DoField, StackOk, Edge, Rank, AllFormed, Formed, FieldTokens, FieldsTokens, FieldsPeak, FieldPeak, Sound;
    var o := Below(base, 0);
    var more := FieldsTokens(fields[1..]) + rest;
    SoundSizes(c);
    FieldsSplit(fields, rest);
    FieldsStart(fields[1..], rest);
    FirstField(fields);
    FirstFieldPeak(fields, mid == []);
    FieldJoins(c, base, values, mid, fields[0], more);
    var done := DoField(fields[0], c.ctx);
    if done.Next? {
      if |fields| > 1 {
        FieldsMove(Conf(base + [SettingsState(o)], values + [None], more, done.ctx), base, values, [SettingsState(o)], fields[1..], rest);
      } else {
        FieldsNone(fields[1..], rest, done.ctx);
      }
    }
  }

  lemma {:induction false} FirstField(fields: seq<Field>)
    requires |fields| > 0 && AllFormed(fields)
    ensures Formed(fields[0].value) && AllFormed(fields[1..])
  {
    hide Formed;
  }

  lemma {:induction false} FirstFieldPeak(fields: seq<Field>, first: bool)
    requires |fields| > 0
    ensures FieldsPeak(fields, first) == Larger(if first then FieldPeak(fields[0]) else 1 + FieldPeak(fields[0]), FieldsPeak(fields[1..], false))
    ensures |fields| == 1 ==> FieldsPeak(fields[1..], false) == 0
  {
    hide FieldPeak;
  }

  lemma FieldsSplit(fields: seq<Field>, rest: seq<Token>)
    requires |fields| > 0
    ensures FieldsTokens(fields) + rest == FieldTokens(fields[0]) + (FieldsTokens(fields[1..]) + rest)
  {
  }

  lemma FieldsNone(fields: seq<Field>, rest: seq<Token>, ctx: Context)
    requires |fields| == 0 && InRange(ctx)
    ensures FieldsTokens(fields) + rest == rest && DoFields(fields, ctx) == Next(ctx)
  {
  }

  lemma FieldsStart(fields: seq<Field>, rest: seq<Token>)
    requires Lookahead(rest) == 0 || Lookahead(rest) == 19
    ensures EndsSetting(Lookahead(FieldsTokens(fields) + rest))
  {
    if |fields| == 0 {
      assert FieldsTokens(fields) + rest == rest;
    } else {
      var f := fields[0];
      assert FieldsTokens(fields) == FieldTokens(f) + FieldsTokens(fields[1..]);
      assert FieldTokens(f) == [NameTok(f.name)] + ([EqualsTok] + (ValTokens(f.value) + EndTokens(f.end)));
      assert (FieldsTokens(fields) + rest)[0] == NameTok(f.name);
    }
  }

  lemma GroupStates(p: nat)
    requires WantsValue(p)
    ensures Action(p, 18) == Shift(18) && YyPact(18) == YYPACT_NINF && YyDefAct(18) == 38 && YyR2(38) == 0 && Goto(18, YyR1(38)) == 27
    ensures Action(27, 19) == Reduce(6) && YyR2(6) == 0 && Goto(27, YyR1(6)) == 39
    ensures Action(38, 19) == Reduce(7) && YyR2(7) == 1 && Goto(27, YyR1(7)) == 39
    ensures Action(39, 19) == Shift(44) && YyPact(44) == YYPACT_NINF && YyDefAct(44) == 39 && YyR2(39) == 4 && Goto(p, YyR1(39)) == 24
  {
  }

  lemma GroupAction(ctx: Context, top: Option<Token>)
    requires InRange(ctx)
    ensures Semantic(38, ctx, top) == Semantic(38, ctx, None) && Semantic(39, ctx, top) == Next(Close(ctx))
  {
  }

  lemma OpenGroupMove(c: Conf, rest: seq<Token>)
    requires Sound(c) && |c.states| + 1 < YYMAXDEPTH && WantsValue(Below(c.states, 0))
    requires c.input == [GroupStartTok] + rest
    ensures Comes(c, Semantic(38, c.ctx, None), c.states + [18, 27], c.values + [Some(GroupStartTok), None], rest)
  {
    hide Run, Action, Semantic, Goto, YyPact, YyDefAct, YyR1, YyR2, Edge, Rank, WantsValue;
    var p := Below(c.states, 0);
    GroupStates(p);
    ValueSmall(p);
    ShiftMove(c, p, GroupStartTok, rest, 18);
    var d := Conf(c.states + [18], c.values + [Some(GroupStartTok)], rest, c.ctx);
    DefaultAction(18, Lookahead(rest));
    EmptyMove(d, 18, 38, 27);
    GroupAction(c.ctx, Some(GroupStartTok));
    assert c.states + [18] + [27] == c.states + [18, 27];
    assert c.values + [Some(GroupStartTok)] + [None] == c.values + [Some(GroupStartTok), None];
  }

  lemma InsideGroupMove(c: Conf, fields: seq<Field>, rest: seq<Token>)
    requires Sound(c) && Below(c.states, 0) == 27
    requires AllFormed(fields) && |c.states| + FieldsPeak(fields, true) < YYMAXDEPTH
    requires c.input == FieldsTokens(fields) + rest && Lookahead(rest) == 19
    ensures Comes(c, DoFields(fields, c.ctx), c.states + [39], c.values + [None], rest)
    decreases fields, 3
  {
    hide Run, Action, Semantic, Goto, YyPact, YyDefAct, YyR1, YyR2, Edge, Rank, DoField, FieldTokens;
    GroupStates(8);
    SoundSizes(c);
    if |fields| == 0 {
      assert c.input == rest;
      EmptyMove(c, 27, 6, 39);
      NoAction(6, c.ctx, c.values[|c.values| - 1]);
    } else {
      assert c.states + [] == c.states && c.values[..|c.states|] == c.values;
      FieldsMove(c, c.states, c.values, [], fields, rest);
      var done := DoFields(fields, c.ctx);
      if done.Next? {
        var d := Conf(c.states + [38], c.values + [None], rest, done.ctx);
        UnitMove(d, c.states, c.values, 38, 7, 39);
        NoAction(7, done.ctx, d.values[|d.values| - 1]);
      }
    }
  }

  lemma CloseGroupMove(c: Conf, base: seq<nat>, values: seq<Option<Token>>, rest: seq<Token>)
    requires Sound(c) && |c.states| + 1 < YYMAXDEPTH && 0 < |base| == |values| && WantsValue(Below(base, 0))
    requires c.states == base + [18, 27, 39] && c.values[..|base|] == values
    requires c.input == [GroupEndTok] + rest
    ensures Comes(c, Next(Close(c.ctx)), base + [ValueState(Below(base, 0))], values + [None], rest)
  {
    hide Run, Action, Semantic, Goto, YyPact, YyDefAct, YyR1, YyR2, Edge, Rank, WantsValue, Close;
    var p := Below(base, 0);
    GroupStates(p);
    ValueSmall(p);
    ShiftMove(c, 39, GroupEndTok, rest, 44);
    var d := Conf(c.states + [44], c.values + [Some(GroupEndTok)], rest, c.ctx);
    DefaultAction(44, Lookahead(rest));
    assert d.states[..|base|] == base && d.values[..|base|] == values;
    ReduceMove(d, base, values, 39);
    GroupAction(c.ctx, d.values[|d.values| - 1]);
    ValuesAgree(d, Next(Close(c.ctx)), base, values, rest, 24);
  }

  lemma GroupMove(c: Conf, fields: seq<Field>, rest: seq<Token>)
    requires Sound(c) && WantsValue(Below(c.states, 0)) && |c.states| + 4 < YYMAXDEPTH
    requires AllFormed(fields) && |c.states| + 2 + FieldsPeak(fields, true) < YYMAXDEPTH
    requires c.input == [GroupStartTok] + (FieldsTokens(fields) + ([GroupEndTok] + rest))
    ensures Comes(c, DoVal(Grp(fields), c.ctx), c.states + [ValueState(Below(c.states, 0))], c.values + [None], rest)
    decreases fields, 4
  {
    hide Run, StackOk, Semantic, DoFields, FieldsTokens, Close, WantsValue, Edge, Rank;
    SoundSizes(c);
    var tail := [GroupEndTok] + rest;
    OpenGroupMove(c, FieldsTokens(fields) + tail);
    var start := Semantic(38, c.ctx, None);
    if start.Next? {
      var d := Conf(c.states + [18, 27], c.values + [Some(GroupStartTok), None], FieldsTokens(fields) + tail, start.ctx);
      InsideGroupMove(d, fields, tail);
      var done := DoFields(fields, start.ctx);
      if done.Next? {
        var e := Conf(d.states + [39], d.values + [None], tail, done.ctx);
        assert e.states == c.states + [18, 27, 39] && e.values[..|c.values|] == c.values;
        CloseGroupMove(e, c.states, c.values, rest);
      }
    }
  }

  /** Every value: the driver runs its actions and recognises it. */
  lemma ValueMove(c: Conf, v: Val, rest: seq<Token>)
    requires Sound(c) && WantsValue(Below(c.states, 0)) && Formed(v) && |c.states| + Peak(v) < YYMAXDEPTH
    requires c.input == ValTokens(v) + rest && Lookahead(rest) != 9
    ensures Comes(c, DoVal(v, c.ctx), c.states + [ValueState(Below(c.states, 0))], c.values + [None], rest)
    decreases v, 1
  {
    hide Run, StackOk, Semantic, DoItems, DoFields, ItemTokens, FieldsTokens, Comes, Edge, Rank, StringTokens, DoStrings;
    SoundSizes(c);
    match v
    case Plain(t) =>
      SimpleMove(c, v, rest);
      ValuesAgree(c, DoVal(v, c.ctx), c.states, c.values, rest, 23);
    case Strings(parts) =>
      SimpleMove(c, v, rest);
      ValuesAgree(c, DoVal(v, c.ctx), c.states, c.values, rest, 23);
    case Arr(items) =>
      assert c.input == [ArrayStartTok] + (ItemTokens(items) + ([ArrayEndTok] + rest));
      BracketMove(c, false, items, rest);
    case Lst(items) =>
      assert c.input == [ListStartTok] + (ItemTokens(items) + ([ListEndTok] + rest));
      BracketMove(c, true, items, rest);
    case Grp(fields) =>
      assert c.input == [GroupStartTok] + (FieldsTokens(fields) + ([GroupEndTok] + rest));
      GroupMove(c, fields, rest);
  }

  // ---------- whole configurations ----------

  lemma EndStates()
    ensures Action(0, 0) == Reduce(2) && YyR2(2) == 0 && Goto(0, YyR1(2)) == 2
    ensures Action(3, 0) == Reduce(3) && YyR2(3) == 1 && Goto(0, YyR1(3)) == 2
    ensures Action(2, 0) == Shift(YYFINAL)
  {
  }

  /** Completeness of the driver: on the tokens of any configuration that stays
      below the stack limit it runs exactly the actions of that configuration; it
      accepts when they succeed and aborts with their problem when they do not. */
  lemma ParseRuns(fields: seq<Field>)
    requires AllFormed(fields) && 1 + FieldsPeak(fields, true) < YYMAXDEPTH
    ensures match DoFields(fields, START.ctx)
            case Next(ctx) => Parse(FieldsTokens(fields)) == Accepted(ctx)
            case Abort(problem) => Parse(FieldsTokens(fields)) == Aborted(problem)
            case Crash => Parse(FieldsTokens(fields)) == Crashed
  {
    hide Run, Action, Semantic, Goto, YyPact, YyDefAct, YyR1, YyR2, Edge, Rank, DoField, FieldTokens;
    var c := START.(input := FieldsTokens(fields));
    EndStates();
    if |fields| == 0 {
      assert c.input == [];
      EmptyMove(c, 0, 2, 2);
      NoAction(2, c.ctx, c.values[|c.values| - 1]);
      EndMove(Conf(c.states + [2], c.values + [None], [], c.ctx));
    } else {
      assert c.input == FieldsTokens(fields) + [] && c.states == [0] + [] && c.values[..1] == [None];
      FieldsMove(c, [0], [None], [], fields, []);
      var done := DoFields(fields, c.ctx);
      if done.Next? {
        var d := Conf([0] + [3], [None] + [None], [], done.ctx);
        UnitMove(d, [0], [None], 3, 3, 2);
        NoAction(3, done.ctx, d.values[|d.values| - 1]);
        EndMove(Conf([0] + [2], [None] + [None], [], done.ctx));
      }
    }
  }

  lemma EndMove(c: Conf)
    requires Sound(c) && |c.states| == 2 && Below(c.states, 0) == 2 && c.input == []
    ensures Run(c) == Accepted(c.ctx)
  {
    hide Run, Action;
    EndStates();
    RunShifts(c);
    RunStops(Shifted(c, YYFINAL));
  }
}
