/** The shift/reduce driver `yyparse` with its semantic actions. */
module ConfigParser {
  import opened ConfigTables
  import opened ConfigTree
  import opened Optional

  /** What the scanner returns, with the semantic value it stores. */
  datatype Token =
    | BooleanTok(on: bool)
    | IntegerTok(ival: int)
    | HexTok(ival: int)
    | Integer64Tok(llval: int)
    | Hex64Tok(llval: int)
    | FloatTok(fval: real)
    | StringTok(sval: string)
    | NameTok(sval: string)
    | EqualsTok | NewlineTok
    | ArrayStartTok | ArrayEndTok
    | ListStartTok | ListEndTok
    | CommaTok
    | GroupStartTok | GroupEndTok
    | SemicolonTok
    | GarbageTok | ErrorTok

  /** `YYTRANSLATE`: the symbol number of a token. */
  function Symbol(t: Token): (r: nat)
    ensures 2 < r < YYNTOKENS
  {
    match t
    case BooleanTok(_) => 3
    case IntegerTok(_) => 4
    case HexTok(_) => 5
    case Integer64Tok(_) => 6
    case Hex64Tok(_) => 7
    case FloatTok(_) => 8
    case StringTok(_) => 9
    case NameTok(_) => 10
    case EqualsTok => 11
    case NewlineTok => 12
    case ArrayStartTok => 13
    case ArrayEndTok => 14
    case ListStartTok => 15
    case ListEndTok => 16
    case CommaTok => 17
    case GroupStartTok => 18
    case GroupEndTok => 19
    case SemicolonTok => 20
    case GarbageTok => 21
    case ErrorTok => 22
  }

  /** The lookahead: the next token, or the end of the input. */
  function Lookahead(input: seq<Token>): (r: nat)
    ensures r < YYNTOKENS && r != YYTERROR
  {
    if |input| == 0 then 0 else Symbol(input[0])
  }

  // ---------- the semantic actions ----------

  /** `struct parse_context` */
  datatype Context = Context(config: Config, parent: Option<nat>, setting: Option<nat>, text: Option<string>)

  datatype Problem = DuplicateSetting | ElementType | SyntaxError | MemoryExhausted

  /** How an action ends. `Crash` stands for the use of a null pointer or of a
      value that is not there. */
  datatype Done = Next(ctx: Context) | Abort(problem: Problem) | Crash

  predicate InRange(ctx: Context) {
    Linked(ctx.config)
    && (ctx.parent.Some? ==> ctx.parent.value < |ctx.config|)
    && (ctx.setting.Some? ==> ctx.setting.value < |ctx.config|)
  }

  predicate ParentIs(ctx: Context, kind: Kind)
    requires InRange(ctx)
  {
    ctx.parent.Some? && ctx.config[ctx.parent.value].kind == kind
  }

  /** A scalar: an element of the enclosing array or list, or the value of the current setting. */
  function PutScalar(ctx: Context, kind: Kind, value: Scalar, format: Format): (r: Done)
    requires InRange(ctx)
    ensures r.Next? ==> InRange(r.ctx)
  {
    if ParentIs(ctx, ArrayT) || ParentIs(ctx, ListT) then
      match Append(ctx.config, ctx.parent.value, kind, value, format)
      case Some(config) => Next(ctx.(config := config))
      case None => Abort(ElementType)
    else if ctx.setting.None? then Crash
    else if ctx.config[ctx.setting.value].kind != NoneT then Crash
    else Next(ctx.(config := SetScalar(ctx.config, ctx.setting.value, kind, value, format)))
  }

  /** The start of an array, a list or a group. */
  function Open(ctx: Context, kind: Kind): (r: Done)
    requires InRange(ctx)
    ensures r.Next? ==> InRange(r.ctx)
  {
    if ParentIs(ctx, ListT) then
      match Add(ctx.config, ctx.parent.value, None, kind)
      case Some(config) => Next(ctx.(config := config, parent := Some(|ctx.config|)))
      case None => Crash
    else if ctx.setting.None? then Crash
    else Next(ctx.(config := SetKind(ctx.config, ctx.setting.value, kind), parent := ctx.setting, setting := None))
  }

  /** The end of an array, a list or a group. */
  function Close(ctx: Context): (r: Context)
    requires InRange(ctx)
    ensures InRange(r)
  {
    if ctx.parent.Some? then ctx.(parent := ctx.config[ctx.parent.value].parent) else ctx
  }

  function NewSetting(ctx: Context, name: string): (r: Done)
    requires InRange(ctx)
    ensures r.Next? ==> InRange(r.ctx)
  {
    if ctx.parent.None? then Abort(DuplicateSetting)
    else
      match Add(ctx.config, ctx.parent.value, Some(name), NoneT)
      case Some(config) => Next(ctx.(config := config, setting := Some(|ctx.config|)))
      case None => Abort(DuplicateSetting)
  }

  /** The semantic action of a rule; `top` is the semantic value on top of the stack. */
  function Semantic(rule: nat, ctx: Context, top: Option<Token>): (r: Done)
    requires InRange(ctx)
    ensures r.Next? ==> InRange(r.ctx)
  {
    match rule
    case 11 => if top.Some? && top.value.NameTok? then NewSetting(ctx, top.value.sval) else Crash
    case 13 => Open(ctx, ArrayT)
    case 15 => Open(ctx, ListT)
    case 38 => Open(ctx, GroupT)
    case 14 => Next(Close(ctx))
    case 16 => Next(Close(ctx))
    case 39 => Next(Close(ctx))
    case 21 => AppendText(ctx, top)
    case 22 => AppendText(ctx, top)
    case 23 => if top.Some? && top.value.BooleanTok? then PutScalar(ctx, BoolT, Whole(if top.value.on then 1 else 0), DefaultFormat) else Crash
    case 24 => if top.Some? && top.value.IntegerTok? then PutScalar(ctx, IntT, Whole(top.value.ival), DefaultFormat) else Crash
    case 25 => if top.Some? && top.value.Integer64Tok? then PutScalar(ctx, Int64T, Whole(top.value.llval), DefaultFormat) else Crash
    case 26 => if top.Some? && top.value.HexTok? then PutScalar(ctx, IntT, Whole(top.value.ival), HexFormat) else Crash
    case 27 => if top.Some? && top.value.Hex64Tok? then PutScalar(ctx, Int64T, Whole(top.value.llval), HexFormat) else Crash
    case 28 => if top.Some? && top.value.FloatTok? then PutScalar(ctx, FloatT, Real(top.value.fval), DefaultFormat) else Crash
    case 29 => if ctx.text.Some? then PutScalar(ctx.(text := None), StringT, Text(ctx.text.value), DefaultFormat) else Crash
    case _ => Next(ctx)
  }

  /** `parsectx_append_string` */
  function AppendText(ctx: Context, top: Option<Token>): (r: Done)
    requires InRange(ctx)
    ensures r.Next? ==> InRange(r.ctx)
  {
    if top.Some? && top.value.StringTok? then
      Next(ctx.(text := Some((if ctx.text.Some? then ctx.text.value else "") + top.value.sval)))
    else Crash
  }

  // ---------- the driver ----------

  /** The state and value stacks, the input not yet shifted, and the context. */
  datatype Conf = Conf(states: seq<nat>, values: seq<Option<Token>>, input: seq<Token>, ctx: Context)

  datatype Outcome = Accepted(ctx: Context) | Aborted(problem: Problem) | Crashed

  predicate Sound(c: Conf) {
    StackOk(c.states) && |c.values| == |c.states| && InRange(c.ctx)
  }

  /** Reductions and shifts still possible: first by the input left, then by the stack. */
  function Stages(c: Conf): nat
    requires Sound(c)
  {
    |c.states| + Rank(Below(c.states, 0))
  }

  lemma ShiftSound(c: Conf, next: nat, value: Option<Token>)
    requires Sound(c) && next < YYNSTATES && Edge(Below(c.states, 0), next)
    ensures StackOk(c.states + [next])
  {
    var s := c.states + [next];
    assert forall k | 0 < k < |s| :: Edge(s[k - 1], s[k]) by {
      forall k | 0 < k < |s| ensures Edge(s[k - 1], s[k]) {
        if k < |c.states| {
          assert s[k - 1] == c.states[k - 1] && s[k] == c.states[k];
        }
      }
    }
  }

  /** Popping the right-hand side and pushing the left. */
  function Reduced(states: seq<nat>, rule: nat): (r: seq<nat>)
    requires 1 < rule <= YYNRULES && YyR2(rule) < |states|
    requires states[|states| - 1 - YyR2(rule)] < YYNSTATES
    requires Goto(states[|states| - 1 - YyR2(rule)], YyR1(rule)) >= 0
  {
    states[..|states| - YyR2(rule)] + [Goto(states[|states| - 1 - YyR2(rule)], YyR1(rule))]
  }

  /** No rule derives the symbol of a name or of the end. */
  lemma TerminalStates(rule: nat)
    requires 1 < rule <= YYNRULES
    ensures YyR1(rule) > YYNTOKENS && YyStos(1) < YYNTOKENS && YyStos(YYFINAL) < YYNTOKENS
  {
  }

  lemma ReduceSound(c: Conf)
    requires Sound(c) && Below(c.states, 0) != YYFINAL && YyDefAct(Below(c.states, 0)) > 0
    ensures var rule := YyDefAct(Below(c.states, 0));
            rule > 1 && YyR2(rule) < |c.states| && c.states[|c.states| - 1 - YyR2(rule)] < YYNSTATES
            && Goto(c.states[|c.states| - 1 - YyR2(rule)], YyR1(rule)) >= 0
            && StackOk(Reduced(c.states, rule)) && Below(Reduced(c.states, rule), 0) != 1 && Below(Reduced(c.states, rule), 0) != YYFINAL
            && |Reduced(c.states, rule)| + Rank(Below(Reduced(c.states, rule), 0)) < Stages(c)
  {
    hide Goto, YyDefAct, YyR1, YyR2, Rank, Edge, YyStos, Rhs;
    PopShape(c.states);
    GotoShape(c.states);
    var rule := YyDefAct(Below(c.states, 0));
    TerminalStates(rule);
    var base := c.states[..|c.states| - YyR2(rule)];
    assert base[|base| - 1] == Below(c.states, YyR2(rule));
    var s := Reduced(c.states, rule);
    forall k | 0 < k < |s| ensures Edge(s[k - 1], s[k]) {
      if k < |base| {
        assert s[k - 1] == c.states[k - 1] && s[k] == c.states[k];
      }
    }
  }

  /** Shifting the lookahead. */
  function Shifted(c: Conf, next: nat): Conf {
    if |c.input| == 0 then c.(states := c.states + [next], values := c.values + [None])
    else c.(states := c.states + [next], values := c.values + [Some(c.input[0])], input := c.input[1..])
  }

  lemma ShiftStep(c: Conf)
    requires Sound(c) && |c.states| < YYMAXDEPTH && Below(c.states, 0) != YYFINAL
    requires Action(Below(c.states, 0), Lookahead(c.input)).Shift?
    ensures var next := Shifted(c, Action(Below(c.states, 0), Lookahead(c.input)).state);
            Sound(next) && |next.states| > 0
            && (|next.input| < |c.input| || (|next.input| == |c.input| && Below(next.states, 0) == YYFINAL))
  {
    var state, token := Below(c.states, 0), Lookahead(c.input);
    ShiftEdge(state, token);
    ShiftSound(c, Action(state, token).state, None);
    if |c.input| == 0 {
      EndShift(state);
    }
  }

  function AfterReduce(c: Conf, rule: nat, ctx: Context): Conf
    requires 1 < rule <= YYNRULES && YyR2(rule) < |c.states| == |c.values|
    requires c.states[|c.states| - 1 - YyR2(rule)] < YYNSTATES
    requires Goto(c.states[|c.states| - 1 - YyR2(rule)], YyR1(rule)) >= 0
  {
    Conf(Reduced(c.states, rule), c.values[..|c.values| - YyR2(rule)] + [None], c.input, ctx)
  }

  /** `yyparse` from a configuration on. The start state is on the stack already. */
  function Run(c: Conf): Outcome
    requires Sound(c)
    decreases |c.input|, if Below(c.states, 0) == YYFINAL then 0 else 1, Stages(c)
  {
    var state := Below(c.states, 0);
    if |c.states| >= YYMAXDEPTH then Aborted(MemoryExhausted)
    else if state == YYFINAL then Accepted(c.ctx)
    else
      match Action(state, Lookahead(c.input))
      case Error => Aborted(SyntaxError)
      case Shift(next) =>
        ShiftStep(c);
        Run(Shifted(c, next))
      case Reduce(rule) =>
        ReduceIsDefault(state, Lookahead(c.input));
        ReduceSound(c);
        match Semantic(rule, c.ctx, c.values[|c.values| - 1])
        case Crash => Crashed
        case Abort(problem) => Aborted(problem)
        case Next(ctx) =>
          Run(AfterReduce(c, rule, ctx))
  }

  /** The end of the input is only ever shifted into the final state. */
  lemma EndShift(state: nat)
    requires state < YYNSTATES && Action(state, 0).Shift?
    ensures Action(state, 0).state == YYFINAL
  {
    Cells(YyPact(state), 0);
  }

  const START: Conf := Conf([0], [None], [], Context(INITIAL, Some(0), Some(0), None))

  /** `config_read` on the tokens of a text. */
  function Parse(input: seq<Token>): Outcome {
    Run(START.(input := input))
  }

  // ---------- one step of the driver ----------

  lemma RunStops(c: Conf)
    requires Sound(c)
    ensures |c.states| >= YYMAXDEPTH ==> Run(c) == Aborted(MemoryExhausted)
    ensures |c.states| < YYMAXDEPTH && Below(c.states, 0) == YYFINAL ==> Run(c) == Accepted(c.ctx)
    ensures |c.states| < YYMAXDEPTH && Below(c.states, 0) != YYFINAL && Action(Below(c.states, 0), Lookahead(c.input)).Error? ==>
              Run(c) == Aborted(SyntaxError)
  {
  }

  lemma RunShifts(c: Conf)
    requires Sound(c) && |c.states| < YYMAXDEPTH && Below(c.states, 0) != YYFINAL
    requires Action(Below(c.states, 0), Lookahead(c.input)).Shift?
    ensures var next := Shifted(c, Action(Below(c.states, 0), Lookahead(c.input)).state);
            Sound(next) && |next.states| == |c.states| + 1 && Run(c) == Run(next)
            && (|next.input| < |c.input| || (|next.input| == |c.input| && Below(next.states, 0) == YYFINAL))
  {
    ShiftStep(c);
  }

  /** The premises of a reduction. */
  predicate Reduces(c: Conf, rule: nat) {
    Sound(c) && 1 < rule <= YYNRULES && YyR2(rule) < |c.states|
    && c.states[|c.states| - 1 - YyR2(rule)] < YYNSTATES
    && Goto(c.states[|c.states| - 1 - YyR2(rule)], YyR1(rule)) >= 0
    && StackOk(Reduced(c.states, rule))
    && |Reduced(c.states, rule)| + Rank(Below(Reduced(c.states, rule), 0)) < Stages(c)
    && Below(Reduced(c.states, rule), 0) != 1 && Below(Reduced(c.states, rule), 0) != YYFINAL
  }

  lemma RunReduces(c: Conf)
    requires Sound(c) && |c.states| < YYMAXDEPTH && Below(c.states, 0) != YYFINAL
    requires Action(Below(c.states, 0), Lookahead(c.input)).Reduce?
    ensures var rule := Action(Below(c.states, 0), Lookahead(c.input)).rule;
            Reduces(c, rule) && |c.values| > 0 && Action(Below(c.states, 0), Lookahead(c.input)) == Default(Below(c.states, 0))
            && match Semantic(rule, c.ctx, c.values[|c.values| - 1])
               case Crash => Run(c) == Crashed
               case Abort(problem) => Run(c) == Aborted(problem)
               case Next(ctx) => Sound(AfterReduce(c, rule, ctx)) && Run(c) == Run(AfterReduce(c, rule, ctx))
  {
    hide Semantic, YyR1, YyR2, Goto, Rank, Edge, Action, YyDefAct;
    ReduceIsDefault(Below(c.states, 0), Lookahead(c.input));
    ReduceSound(c);
  }

  // ---------- the driver as it runs ----------

  /** `yyerrlab1`: states are popped until one handles the error token; none does, so the parse aborts. */
  method Recover(states: seq<nat>) returns (popped: nat)
    requires StackOk(states)
    ensures popped == |states|
  {
    var yyss := states;
    popped := 0;
    while |yyss| > 0
      invariant popped + |yyss| == |states| && yyss == states[..|yyss|]
    {
      var state := yyss[|yyss| - 1];
      NoErrorToken(state);
      if Action(state, YYTERROR).Shift? {
        return;
      }
      yyss := yyss[..|yyss| - 1];
      popped := popped + 1;
    }
  }

  /** `yyparse`: a token is read only when a state needs one, so the action of a
      name runs before the scanner moves on. */
  method YyParse(input: seq<Token>) returns (r: Outcome)
    ensures r == Parse(input)
  {
    hide Run, Edge, YyDefAct, YyStos, YyR1, YyR2, Rank, Rhs, Goto, Semantic;
    var c := START.(input := input);
    var yychar: Option<nat> := None;
    while |c.states| < YYMAXDEPTH && c.states[|c.states| - 1] != YYFINAL
      invariant Sound(c) && |c.states| > 0 && Run(c) == Parse(input)
      invariant yychar.Some? ==> yychar.value == Lookahead(c.input)
      invariant c.states[|c.states| - 1] == 1 ==> yychar.None?
      decreases |c.input|, if Below(c.states, 0) == YYFINAL then 0 else 1, Stages(c)
    {
      var state := c.states[|c.states| - 1];
      var yyn := YyPact(state);
      var act := Default(state);
      if yyn != YYPACT_NINF {
        if yychar.None? {
          yychar := Some(Lookahead(c.input));
        }
        act := Action(state, yychar.value);
      }
      assert act == Action(state, Lookahead(c.input));
      RunStops(c);
      match act
      case Error =>
        var popped := Recover(c.states);
        return Aborted(SyntaxError);
      case Shift(next) =>
        RunShifts(c);
        c, yychar := Shifted(c, next), None;
      case Reduce(rule) =>
        RunReduces(c);
        var done := Semantic(rule, c.ctx, c.values[|c.values| - 1]);
        if done.Crash? {
          return Crashed;
        }
        if done.Abort? {
          return Aborted(done.problem);
        }
        c := AfterReduce(c, rule, done.ctx);
    }
    RunStops(c);
    r := if |c.states| >= YYMAXDEPTH then Aborted(MemoryExhausted) else Accepted(c.ctx);
  }
}
