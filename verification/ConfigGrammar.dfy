/** Derivations of the grammar, and soundness of the driver with respect to them. */
module ConfigGrammar {
  import opened ConfigTables
  import opened ConfigTree
  import opened ConfigParser
  import opened Optional

  const CONFIGURATION: nat := 24

  /** A derivation: a token, the end of the input, or a rule with a derivation of
      every symbol on its right-hand side. */
  datatype Derivation = Leaf(token: Token) | End | Node(rule: nat, kids: seq<Derivation>)

  function Root(d: Derivation): nat {
    match d
    case Leaf(token) => Symbol(token)
    case End => 0
    case Node(rule, _) => if 0 < rule <= YYNRULES then YyR1(rule) else 0
  }

  predicate Derives(d: Derivation) {
    match d
    case Leaf(_) => true
    case End => true
    case Node(rule, kids) =>
      0 < rule <= YYNRULES && |kids| == YyR2(rule)
      && forall k | 0 <= k < |kids| :: Derives(kids[k]) && Root(kids[k]) == Rhs(rule)[k]
  }

  /** The tokens at the leaves. */
  function Yield(d: Derivation): seq<Token> {
    match d
    case Leaf(token) => [token]
    case End => []
    case Node(_, kids) => Yields(kids)
  }

  function Yields(ds: seq<Derivation>): seq<Token> {
    if |ds| == 0 then [] else Yield(ds[0]) + Yields(ds[1..])
  }

  lemma {:induction false} YieldsConcat(a: seq<Derivation>, b: seq<Derivation>)
    ensures Yields(a + b) == Yields(a) + Yields(b)
  {
    hide Yield;
    if |a| == 0 {
      assert a + b == b;
    } else {
      var y, ya, yb := Yield(a[0]), Yields(a[1..]), Yields(b);
      YieldsConcat(a[1..], b);
      assert (a + b)[0] == a[0] && (a + b)[1..] == a[1..] + b;
      assert y + (ya + yb) == (y + ya) + yb;
    }
  }

  lemma YieldsOne(d: Derivation)
    ensures Yields([d]) == Yield(d)
  {
    assert Yields([d]) == Yield(d) + Yields([d][1..]);
  }

  /** Every state above the bottom of the stack stands for a derivation of its
      symbol, and the derivations spell the tokens read so far. */
  predicate Stands(c: Conf, ds: seq<Derivation>, all: seq<Token>) {
    Sound(c) && |ds| == |c.states| - 1
    && (forall k | 0 <= k < |ds| :: Derives(ds[k]) && Root(ds[k]) == YyStos(c.states[k + 1]))
    && Yields(ds) + c.input == all
    && (Below(c.states, 0) == YYFINAL ==> |c.input| == 0)
  }

  lemma ShiftStands(c: Conf, ds: seq<Derivation>, all: seq<Token>)
    requires Stands(c, ds, all) && Below(c.states, 0) != YYFINAL
    requires Action(Below(c.states, 0), Lookahead(c.input)).Shift?
    ensures var next := Shifted(c, Action(Below(c.states, 0), Lookahead(c.input)).state);
            var d := if |c.input| == 0 then End else Leaf(c.input[0]);
            Stands(next, ds + [d], all)
  {
    hide Action, YyStos, Edge, Rank, Yield, Symbol;
    var act := Action(Below(c.states, 0), Lookahead(c.input));
    var d := if |c.input| == 0 then End else Leaf(c.input[0]);
    ShiftEdge(Below(c.states, 0), Lookahead(c.input));
    ShiftSound(c, act.state, None);
    YieldsConcat(ds, [d]);
    YieldsOne(d);
    LeafYield(d);
    if |c.input| == 0 {
      assert Yields(ds) + [] == Yields(ds);
    } else {
      assert c.input == [c.input[0]] + c.input[1..];
      assert (Yields(ds) + [c.input[0]]) + c.input[1..] == Yields(ds) + c.input;
      NotFinal(Below(c.states, 0), Lookahead(c.input));
    }
  }

  lemma LeafYield(d: Derivation)
    ensures d.Leaf? ==> Yield(d) == [d.token]
    ensures d.End? ==> Yield(d) == []
  {
  }

  /** Only the end of the input leads to the final state. */
  lemma NotFinal(state: nat, token: nat)
    requires state < YYNSTATES && 0 < token < YYNTOKENS && Action(state, token).Shift?
    ensures Action(state, token).state != YYFINAL
  {
    Cells(YyPact(state), token);
  }

  lemma ReduceYields(ds: seq<Derivation>, m: nat, rule: nat)
    requires m <= |ds|
    ensures Yields(ds[..m] + [Node(rule, ds[m..])]) == Yields(ds)
  {
    hide Yield, Yields;
    var node := Node(rule, ds[m..]);
    YieldsConcat(ds[..m], ds[m..]);
    YieldsConcat(ds[..m], [node]);
    YieldsOne(node);
    NodeYield(node);
    assert ds[..m] + ds[m..] == ds;
  }

  lemma ReduceStands(c: Conf, ds: seq<Derivation>, all: seq<Token>, ctx: Context)
    requires Stands(c, ds, all) && Below(c.states, 0) != YYFINAL && YyDefAct(Below(c.states, 0)) > 0
    requires Reduces(c, YyDefAct(Below(c.states, 0))) && InRange(ctx)
    ensures var rule := YyDefAct(Below(c.states, 0));
            var m := |ds| - YyR2(rule);
            0 <= m <= |ds| && Stands(AfterReduce(c, rule, ctx), ds[..m] + [Node(rule, ds[m..])], all)
  {
    hide Action, YyStos, Edge, Rank, YyR1, YyR2, Rhs, YyDefAct, Goto, Yield, Yields;
    var rule := YyDefAct(Below(c.states, 0));
    var n := YyR2(rule);
    var m := |ds| - n;
    PopShape(c.states);
    GotoShape(c.states);
    var node := Node(rule, ds[m..]);
    forall k | 0 <= k < n ensures Derives(node.kids[k]) && Root(node.kids[k]) == Rhs(rule)[k] {
      assert Below(c.states, n - 1 - k) == c.states[m + k + 1];
    }
    var r := Reduced(c.states, rule);
    assert r[|r| - 1] == Goto(Below(c.states, n), YyR1(rule));
    ReduceYields(ds, m, rule);
    var after := ds[..m] + [node];
    forall k | 0 <= k < |after| ensures Derives(after[k]) && Root(after[k]) == YyStos(r[k + 1]) {
      if k < m {
        assert after[k] == ds[k] && r[k + 1] == c.states[k + 1];
      }
    }
  }

  lemma NodeYield(d: Derivation)
    requires d.Node?
    ensures Yield(d) == Yields(d.kids)
  {
  }

  /** What the driver accepts from a configuration on is derived from `configuration`. */
  lemma {:induction false} RunDerives(c: Conf, ds: seq<Derivation>, all: seq<Token>) returns (d: Derivation)
    requires Stands(c, ds, all)
    ensures Run(c).Accepted? ==> Derives(d) && Root(d) == CONFIGURATION && Yield(d) == all
    decreases |c.input|, if Below(c.states, 0) == YYFINAL then 0 else 1, Stages(c)
  {
    hide Run, YyStos, Edge, Rank, YyR1, YyR2, Rhs, YyDefAct, Goto, Yield, Semantic;
    d := End;
    RunStops(c);
    if |c.states| < YYMAXDEPTH {
      if Below(c.states, 0) == YYFINAL {
        FinalStack(c, ds, all);
        d := ds[0];
      } else {
        var act := Action(Below(c.states, 0), Lookahead(c.input));
        match act
        case Error =>
        case Shift(next) =>
          RunShifts(c);
          ShiftStands(c, ds, all);
          d := RunDerives(Shifted(c, next), ds + [if |c.input| == 0 then End else Leaf(c.input[0])], all);
        case Reduce(rule) =>
          RunReduces(c);
          ReduceIsDefault(Below(c.states, 0), Lookahead(c.input));
          var done := Semantic(rule, c.ctx, c.values[|c.values| - 1]);
          if done.Next? {
            ReduceStands(c, ds, all, done.ctx);
            var m := |ds| - YyR2(rule);
            d := RunDerives(AfterReduce(c, rule, done.ctx), ds[..m] + [Node(rule, ds[m..])], all);
          }
      }
    }
  }

  /** In the final state the stack holds a configuration and the end of the input. */
  lemma FinalStack(c: Conf, ds: seq<Derivation>, all: seq<Token>)
    requires Stands(c, ds, all) && Below(c.states, 0) == YYFINAL
    ensures |ds| == 2 && Derives(ds[0]) && Root(ds[0]) == CONFIGURATION && Yield(ds[0]) == all
  {
    hide Derives, Yield;
    EdgeBelow(c.states, 0);
    EdgeBelow(c.states, 1);
    assert Below(c.states, 1) == 2 && Below(c.states, 2) == 0;
    if |c.states| > 3 {
      BottomOnly(c.states, |c.states| - 3);
    }
    assert ds == [ds[0], ds[1]];
    EndYield(ds[1]);
    assert ds == [ds[0]] + [ds[1]];
    YieldsConcat([ds[0]], [ds[1]]);
    YieldsOne(ds[0]);
    YieldsOne(ds[1]);
  }

  lemma EndYield(d: Derivation)
    requires Derives(d) && Root(d) == 0
    ensures Yield(d) == []
  {
    hide Rhs;
  }

  /** LALR soundness: whenever the driver accepts, the tokens it consumed are
      derived from `configuration`, all of them and in order. */
  lemma AcceptedIsDerived(input: seq<Token>) returns (d: Derivation)
    ensures Parse(input).Accepted? ==> Derives(d) && Root(d) == CONFIGURATION && Yield(d) == input
  {
    var c := START.(input := input);
    assert Yields([]) + input == input;
    d := RunDerives(c, [], input);
  }
}
