/** What every run of the driver keeps: its actions never use a pointer or a
    value that is not there, and the tree they build is well-formed. */
module ConfigSafety {
  import opened ConfigTables
  import opened ConfigTree
  import opened ConfigParser
  import opened Optional

  // ---------- well-formed trees ----------

  predicate IsScalar(kind: Kind) {
    kind == IntT || kind == Int64T || kind == FloatT || kind == StringT || kind == BoolT
  }

  /** Members of a group carry valid, pairwise different names; the elements of an
      array are scalars of one type; the elements of a list have no name. */
  predicate ProperSetting(c: Config, i: nat)
    requires Linked(c) && i < |c|
  {
    var e := c[i].elements;
    match c[i].kind
    case GroupT =>
      (forall k | 0 <= k < |e| :: c[e[k]].name.Some? && ValidName(c[e[k]].name.value))
      && forall j, k | 0 <= j < k < |e| :: c[e[j]].name != c[e[k]].name
    case ArrayT => forall k | 0 <= k < |e| :: c[e[k]].name.None? && IsScalar(c[e[k]].kind) && c[e[k]].kind == c[e[0]].kind
    case ListT => forall k | 0 <= k < |e| :: c[e[k]].name.None?
    case _ => |e| == 0
  }

  /** All settings are well-formed; only `pending` may still lack a type. */
  predicate Proper(c: Config, pending: Option<nat>) {
    Linked(c)
    && (forall i | 0 <= i < |c| :: ProperSetting(c, i))
    && forall i | 0 <= i < |c| :: c[i].kind == NoneT ==> pending == Some(i)
  }

  /** A setting that has been named and waits for its value. */
  predicate Fresh(c: Config, i: nat)
    requires Linked(c)
  {
    i < |c| && c[i].kind == NoneT && |c[i].elements| == 0 && c[i].parent.Some? && c[c[i].parent.value].kind == GroupT
  }

  /** No valid name is found: all names in the group differ from it. */
  lemma {:induction false} NotFound(c: Config, elements: seq<nat>, name: string, i: nat)
    requires i <= |elements| && forall k | 0 <= k < |elements| :: elements[k] < |c|
    requires Search(c, elements, name, i).None?
    ensures forall k | i <= k < |elements| :: c[elements[k]].name != Some(name)
    decreases |elements| - i
  {
    if i < |elements| {
      NotFound(c, elements, name, i + 1);
    }
  }

  /** A setting stays well-formed when it and its elements keep their names and kinds. */
  lemma AsBefore(c: Config, r: Config, i: nat)
    requires Linked(c) && Linked(r) && i < |c| <= |r| && ProperSetting(c, i)
    requires r[i].kind == c[i].kind && r[i].elements == c[i].elements
    requires forall k | 0 <= k < |c| :: r[k].name == c[k].name && r[k].kind == c[k].kind
    ensures ProperSetting(r, i)
  {
    hide ValidName, IsScalar;
    var e := r[i].elements;
    assert forall k | 0 <= k < |e| :: r[e[k]].name == c[e[k]].name && r[e[k]].kind == c[e[k]].kind;
  }

  lemma AddedIs(c: Config, p: nat, name: string)
    requires Linked(c) && p < |c| && c[p].kind == GroupT && Add(c, p, Some(name), NoneT).Some?
    ensures ValidName(name) && Member(c, p, name).None?
    ensures var r := Add(c, p, Some(name), NoneT).value;
            |r| == |c| + 1 && r[p] == c[p].(elements := c[p].elements + [|c|])
            && r[|c|] == Setting(Some(name), NoneT, DefaultFormat, Unset, [], Some(p))
            && forall k | 0 <= k < |c| && k != p :: r[k] == c[k]
  {
    hide ValidName, Member, Linked;
  }

  lemma AddNamed(c: Config, p: nat, name: string)
    requires Proper(c, None) && p < |c| && c[p].kind == GroupT && Add(c, p, Some(name), NoneT).Some?
    ensures var r := Add(c, p, Some(name), NoneT).value;
            Proper(r, Some(|c|)) && Fresh(r, |c|) && r[|c|].parent == Some(p)
  {
    hide ProperSetting, ValidName, Linked, Member, Search;
    var r := Add(c, p, Some(name), NoneT).value;
    AddedIs(c, p, name);
    UntakenName(c, p, name);
    forall i | 0 <= i < |r| ensures ProperSetting(r, i) {
      if i == |c| {
        NoElements(r, i);
      } else if i == p {
        GrownNames(c, r, p);
      } else {
        AsBefore(c, r, i);
      }
    }
  }

  lemma NoElements(c: Config, i: nat)
    requires Linked(c) && i < |c| && |c[i].elements| == 0
    ensures ProperSetting(c, i)
  {
  }

  lemma UntakenName(c: Config, p: nat, name: string)
    requires Linked(c) && p < |c| && c[p].kind == GroupT && Member(c, p, name).None?
    ensures forall k | 0 <= k < |c[p].elements| :: c[c[p].elements[k]].name != Some(name)
  {
    NotFound(c, c[p].elements, name, 0);
  }

  lemma GrownNames(c: Config, r: Config, p: nat)
    requires Linked(c) && Linked(r) && p < |c| && c[p].kind == GroupT && ProperSetting(c, p)
    requires |r| == |c| + 1 && r[p] == c[p].(elements := c[p].elements + [|c|])
    requires forall i | 0 <= i < |c| :: r[i].name == c[i].name
    requires r[|c|].name.Some? && ValidName(r[|c|].name.value)
    requires forall k | 0 <= k < |c[p].elements| :: c[c[p].elements[k]].name != r[|c|].name
    ensures ProperSetting(r, p)
  {
    var e := r[p].elements;
    forall k | 0 <= k < |e| ensures r[e[k]].name.Some? && ValidName(r[e[k]].name.value) {
      assert k < |c[p].elements| ==> e[k] == c[p].elements[k];
    }
    forall j, k | 0 <= j < k < |e| ensures r[e[j]].name != r[e[k]].name {
      assert e[j] == c[p].elements[j];
    }
  }

  /** A fresh setting is in a group, and its name stays. */
  lemma FillOther(c: Config, i: nat, r: Config, k: nat)
    requires Linked(c) && Fresh(c, i) && Linked(r) && |r| == |c| && k < |c| && k != i && ProperSetting(c, k)
    requires r[i].name == c[i].name && forall k | 0 <= k < |c| && k != i :: r[k] == c[k]
    ensures ProperSetting(r, k)
  {
    hide ValidName;
    var e := r[k].elements;
    forall j | 0 <= j < |e| ensures r[e[j]].name == c[e[j]].name && (c[k].kind != GroupT ==> r[e[j]] == c[e[j]]) {
      assert e[j] == i ==> c[i].parent == Some(k);
    }
  }

  /** Setting the kind of a fresh setting, with or without a value. */
  lemma FillFresh(c: Config, i: nat, r: Config)
    requires Linked(c) && Proper(c, Some(i)) && Fresh(c, i) && Linked(r) && |r| == |c|
    requires r[i].kind != NoneT && r[i].name == c[i].name && r[i].elements == c[i].elements && r[i].parent == c[i].parent
    requires forall k | 0 <= k < |c| && k != i :: r[k] == c[k]
    ensures Proper(r, None)
  {
    forall k | 0 <= k < |r| && k != i ensures ProperSetting(r, k) {
      assert ProperSetting(c, k);
      FillOther(c, i, r, k);
    }
  }

  /** A nameless element of a kind the vector admits. */
  lemma AddElement(c: Config, p: nat, r: Config)
    requires Linked(c) && Proper(c, None) && p < |c| && Linked(r) && |r| == |c| + 1
    requires r[p] == c[p].(elements := c[p].elements + [|c|])
    requires forall k | 0 <= k < |c| && k != p :: r[k] == c[k]
    requires r[|c|].name.None? && r[|c|].kind != NoneT && |r[|c|].elements| == 0
    requires c[p].kind == ListT || (c[p].kind == ArrayT && IsScalar(r[|c|].kind)
                                    && (|c[p].elements| == 0 || c[c[p].elements[0]].kind == r[|c|].kind))
    ensures Proper(r, None)
  {
    hide ProperSetting, Linked, IsScalar;
    forall i | 0 <= i < |r| ensures ProperSetting(r, i) {
      if i == |c| {
        NoElements(r, i);
      } else if i == p {
        GrownVector(c, p, r);
      } else {
        AsBefore(c, r, i);
      }
    }
  }

  lemma GrownVector(c: Config, p: nat, r: Config)
    requires Linked(c) && p < |c| && Linked(r) && |r| == |c| + 1 && ProperSetting(c, p)
    requires r[p] == c[p].(elements := c[p].elements + [|c|])
    requires forall k | 0 <= k < |c| && k != p :: r[k] == c[k]
    requires r[|c|].name.None?
    requires c[p].kind == ListT || (c[p].kind == ArrayT && IsScalar(r[|c|].kind)
                                    && (|c[p].elements| == 0 || c[c[p].elements[0]].kind == r[|c|].kind))
    ensures ProperSetting(r, p)
  {
    hide IsScalar;
    var e := r[p].elements;
    assert forall j | 0 <= j < |c[p].elements| :: e[j] == c[p].elements[j];
  }

  // ---------- the open groups, arrays and lists ----------

  predicate Scope(state: nat) {
    state == 25 || state == 26 || state == 27
  }

  function ScopeKind(state: nat): Kind {
    if state == 25 then ArrayT else if state == 26 then ListT else GroupT
  }

  /** The innermost open bracket; 0 when there is none. */
  function Inner(states: seq<nat>): nat {
    if |states| == 0 then 0
    else if Scope(states[|states| - 1]) then states[|states| - 1]
    else Inner(states[..|states| - 1])
  }

  /** The parent pointer and its ancestors match the open brackets on the stack. */
  predicate Nested(c: Config, parent: Option<nat>, states: seq<nat>)
    requires Linked(c)
    decreases |states|
  {
    if |states| == 0 then parent == Some(0) && c[0].kind == GroupT
    else if Scope(states[|states| - 1]) then
      parent.Some? && parent.value < |c| && c[parent.value].kind == ScopeKind(states[|states| - 1])
      && Nested(c, c[parent.value].parent, states[..|states| - 1])
    else Nested(c, parent, states[..|states| - 1])
  }

  lemma {:induction false} NestedKind(c: Config, parent: Option<nat>, states: seq<nat>)
    requires Linked(c) && Nested(c, parent, states)
    ensures parent.Some? && parent.value < |c| && c[parent.value].kind == ScopeKind(Inner(states))
    decreases |states|
  {
    if |states| > 0 && !Scope(states[|states| - 1]) {
      NestedKind(c, parent, states[..|states| - 1]);
    }
  }

  /** Opened settings keep their kind and their parent. */
  lemma {:induction false} NestedKept(c: Config, d: Config, parent: Option<nat>, states: seq<nat>)
    requires Linked(c) && Linked(d) && |c| <= |d| && Nested(c, parent, states)
    requires forall i | 0 <= i < |c| :: d[i].parent == c[i].parent && (IsAggregate(c[i].kind) ==> d[i].kind == c[i].kind)
    ensures Nested(d, parent, states)
    decreases |states|
  {
    if |states| > 0 {
      var below := states[..|states| - 1];
      NestedKept(c, d, if Scope(states[|states| - 1]) then c[parent.value].parent else parent, below);
    }
  }

  /** States that are no brackets do not matter. */
  lemma {:induction false} NestedPop(c: Config, parent: Option<nat>, states: seq<nat>, n: nat)
    requires Linked(c) && n <= |states| && forall k | n <= k < |states| :: !Scope(states[k])
    ensures Nested(c, parent, states) == Nested(c, parent, states[..n])
    ensures Inner(states) == Inner(states[..n])
    decreases |states|
  {
    if n < |states| {
      NestedPop(c, parent, states[..|states| - 1], n);
      assert states[..|states| - 1][..n] == states[..n];
    } else {
      assert states[..n] == states;
    }
  }

  lemma NestedPush(c: Config, parent: Option<nat>, states: seq<nat>, state: nat)
    requires Linked(c) && !Scope(state)
    ensures Nested(c, parent, states + [state]) == Nested(c, parent, states)
    ensures Inner(states + [state]) == Inner(states)
  {
    assert (states + [state])[..|states|] == states;
  }

  // ---------- the invariant ----------

  /** Between a name and its value. */
  predicate Awaits(state: nat) {
    state == 5 || 8 <= state <= 18 || state == 22 || state == 31
  }

  predicate InGroup(states: seq<nat>) {
    Inner(states) != 25 && Inner(states) != 26
  }

  predicate WithValue(state: nat) {
    state == 1 || 9 <= state <= 15 || state == 31
  }

  /** The semantic value of a token state is the token that led to it. */
  predicate Valued(c: Conf) {
    |c.values| == |c.states|
    && forall k | 0 <= k < |c.states| && WithValue(c.states[k]) ::
         c.states[k] < YYNSTATES && c.values[k].Some? && Symbol(c.values[k].value) == YyStos(c.states[k])
  }

  predicate Waiting(c: Conf) {
    Awaits(Below(c.states, 0)) && InGroup(c.states)
  }

  predicate Tracks(c: Conf) {
    Sound(c) && Valued(c) && Nested(c.ctx.config, c.ctx.parent, c.states)
    && (Below(c.states, 0) == 22 ==> c.ctx.text.Some?)
    && if Waiting(c)
       then c.ctx.setting.Some? && Fresh(c.ctx.config, c.ctx.setting.value) && Proper(c.ctx.config, c.ctx.setting)
            && c.ctx.config[c.ctx.setting.value].parent == c.ctx.parent
       else Proper(c.ctx.config, None)
  }

  // ---------- where the driver stands ----------

  lemma PrefixOk(states: seq<nat>)
    requires StackOk(states) && |states| > 1
    ensures StackOk(states[..|states| - 1]) && Edge(states[|states| - 2], states[|states| - 1])
  {
    hide Edge;
    var below := states[..|states| - 1];
    forall k | 0 < k < |below| ensures Edge(below[k - 1], below[k]) {
      assert below[k] == states[k] && below[k - 1] == states[k - 1];
    }
  }

  /** The state on top tells the innermost bracket. */
  lemma {:induction false} InnerOf(states: seq<nat>)
    requires StackOk(states)
    ensures var top := Below(states, 0);
            (top in {0, 1, 3, 5, 8, 27, 38, 39} ==> InGroup(states))
            && (top in {25, 32, 33, 34, 40} ==> Inner(states) == 25)
            && (top in {26, 35, 36, 37, 42} ==> Inner(states) == 26)
    decreases |states|
  {
    var top := Below(states, 0);
    if |states| == 1 {
      assert states[..0] == [];
    } else if !Scope(top) {
      var below := states[..|states| - 1];
      PrefixOk(states);
      assert Edge(Below(below, 0), top);
      InnerOf(below);
    }
  }

  /** In a group a value starts after an equals sign only. */
  lemma ValueInGroup(states: seq<nat>)
    requires StackOk(states) && InGroup(states)
    ensures 9 <= Below(states, 0) <= 18 || Below(states, 0) == 22 ==> Below(states, 1) == 8
  {
    hide Inner;
    var top := Below(states, 0);
    if 9 <= top <= 18 || top == 22 {
      EdgeBelow(states, 0);
      var below := states[..|states| - 1];
      PrefixOk(states);
      InnerOf(below);
      InnerStep(states);
      assert Below(below, 0) == Below(states, 1);
    }
  }

  lemma InnerStep(states: seq<nat>)
    requires |states| > 0 && !Scope(states[|states| - 1])
    ensures Inner(states) == Inner(states[..|states| - 1])
  {
  }

  lemma ShiftAwaits(state: nat, token: nat)
    requires state < YYNSTATES && token < YYNTOKENS && Action(state, token).Shift?
    ensures var next := Action(state, token).state;
            !Scope(next) && next != 22 && next != 5 && (Awaits(state) ==> Awaits(next))
            && (WithValue(next) ==> token > 0)
  {
    Cells(YyPact(state), token);
  }

  lemma ShiftTracks(c: Conf)
    requires Tracks(c) && |c.states| < YYMAXDEPTH && Below(c.states, 0) != YYFINAL
    requires Action(Below(c.states, 0), Lookahead(c.input)).Shift?
    ensures Tracks(Shifted(c, Action(Below(c.states, 0), Lookahead(c.input)).state))
  {
    hide Action, Edge, Proper, Fresh, Nested, Inner, Rank, Symbol, YyStos, Awaits, WithValue, Scope;
    var state, token := Below(c.states, 0), Lookahead(c.input);
    var next := Action(state, token).state;
    var d := Shifted(c, next);
    ShiftStep(c);
    ShiftEdge(state, token);
    ShiftAwaits(state, token);
    NestedPush(c.ctx.config, c.ctx.parent, c.states, next);
    ShiftValued(c, next);
    if Waiting(d) {
      ValueInGroup(d.states);
      ShiftWaits(d.states, c.states, next, state);
    }
  }

  lemma ShiftWaits(states: seq<nat>, below: seq<nat>, next: nat, state: nat)
    requires StackOk(states) && states == below + [next] && |below| > 0 && state == Below(below, 0)
    requires Awaits(next) && next != 22 && next != 5
    requires 9 <= next <= 18 ==> Below(states, 1) == 8
    ensures Awaits(state)
  {
    EdgeBelow(states, 0);
    assert Below(states, 1) == state;
  }

  lemma ShiftValued(c: Conf, next: nat)
    requires Sound(c) && Valued(c) && next < YYNSTATES
    requires YyStos(next) == Lookahead(c.input) && (WithValue(next) ==> Lookahead(c.input) > 0)
    ensures Valued(Shifted(c, next))
  {
    hide YyStos, WithValue, Symbol, StackOk;
    var d := Shifted(c, next);
    forall k | 0 <= k < |d.states| && WithValue(d.states[k])
      ensures d.states[k] < YYNSTATES && d.values[k].Some? && Symbol(d.values[k].value) == YyStos(d.states[k])
    {
      if k < |c.states| {
        assert d.states[k] == c.states[k] && d.values[k] == c.values[k];
      }
    }
  }

  // ---------- reductions ----------

  predicate Closing(rule: nat) {
    rule == 14 || rule == 16 || rule == 39
  }

  lemma GotoClass(next: nat, rule: nat)
    requires next < YYNSTATES && 0 < rule <= YYNRULES && YyStos(next) == YyR1(rule)
    ensures !WithValue(next)
    ensures Awaits(next) <==> rule == 11 || rule == 21 || rule == 22
    ensures Scope(next) <==> rule == 13 || rule == 15 || rule == 38
    ensures next == 22 <==> rule == 21 || rule == 22
    ensures Scope(next) ==> ScopeKind(next) == if rule == 13 then ArrayT else if rule == 15 then ListT else GroupT
  {
  }

  lemma NoScopeInside(rule: nat, k: nat, state: nat)
    requires 0 < rule <= YYNRULES && !Closing(rule) && k < YyR2(rule) && state < YYNSTATES && YyStos(state) == Rhs(rule)[k]
    ensures !Scope(state)
  {
  }

  lemma ScopeInside(rule: nat, k: nat, state: nat)
    requires 0 < rule <= YYNRULES && Closing(rule) && k < 4 == YyR2(rule) && state < YYNSTATES && YyStos(state) == Rhs(rule)[k]
    ensures Scope(state) <==> k == 1
  {
  }

  /** The popped states of a rule that closes nothing contain no bracket. */
  lemma PopKeeps(c: Conf, rule: nat)
    requires Sound(c) && Below(c.states, 0) != YYFINAL && YyDefAct(Below(c.states, 0)) == rule > 0 && !Closing(rule)
    requires YyR2(rule) < |c.states|
    ensures var base := c.states[..|c.states| - YyR2(rule)];
            Nested(c.ctx.config, c.ctx.parent, c.states) == Nested(c.ctx.config, c.ctx.parent, base)
            && Inner(c.states) == Inner(base)
  {
    hide Edge, YyStos, YyR1, YyR2, Rhs, YyDefAct, Nested, Inner, Scope, Rank;
    PopShape(c.states);
    var n := |c.states| - YyR2(rule);
    forall k | n <= k < |c.states| ensures !Scope(c.states[k]) {
      assert c.states[k] == Below(c.states, |c.states| - 1 - k);
      NoScopeInside(rule, k - n, c.states[k]);
    }
    NestedPop(c.ctx.config, c.ctx.parent, c.states, n);
  }

  /** What is common to all reductions: the pushed state follows the rule's symbol. */
  lemma ReduceFrame(c: Conf, rule: nat, ctx: Context)
    requires Tracks(c) && Below(c.states, 0) != YYFINAL && YyDefAct(Below(c.states, 0)) == rule > 0
    requires Reduces(c, rule) && InRange(ctx)
    ensures var next := Goto(c.states[|c.states| - 1 - YyR2(rule)], YyR1(rule));
            var d := AfterReduce(c, rule, ctx);
            0 <= next < YYNSTATES && YyStos(next) == YyR1(rule) && Sound(d) && Valued(d) && Below(d.states, 0) == next
            && d.states == c.states[..|c.states| - YyR2(rule)] + [next]
  {
    hide Edge, YyStos, YyR1, YyR2, Rhs, YyDefAct, Nested, Inner, Scope, Rank, Goto, Proper, Fresh, Awaits, WithValue, Symbol;
    GotoShape(c.states);
    var next := Goto(c.states[|c.states| - 1 - YyR2(rule)], YyR1(rule));
    assert c.states[|c.states| - 1 - YyR2(rule)] == Below(c.states, YyR2(rule));
    GotoClass(next, rule);
    var d := AfterReduce(c, rule, ctx);
    forall k | 0 <= k < |d.states| && WithValue(d.states[k])
      ensures d.states[k] < YYNSTATES && d.values[k].Some? && Symbol(d.values[k].value) == YyStos(d.states[k])
    {
      assert k < |d.states| - 1;
      assert d.states[k] == c.states[k] && d.values[k] == c.values[k];
    }
  }

  predicate Silent(rule: nat) {
    rule < 11 || rule == 12 || 17 <= rule <= 20 || 30 <= rule <= 37
  }

  /** States that reduce by a rule, by the kind of the rule. */
  lemma ReduceClass(state: nat, rule: nat)
    requires state < YYNSTATES && YyDefAct(state) == rule > 0
    ensures Awaits(state) <==> rule == 13 || rule == 15 || rule == 38 || 21 <= rule <= 29
    ensures rule == 11 ==> state == 1
    ensures rule == 21 ==> state == 15
    ensures rule == 22 ==> state == 31
    ensures rule == 29 ==> state == 22
    ensures 23 <= rule <= 28 ==> 9 <= state <= 14
    ensures rule == 23 ==> state == 9
    ensures rule == 24 ==> state == 10
    ensures rule == 25 ==> state == 12
    ensures rule == 26 ==> state == 11
    ensures rule == 27 ==> state == 13
    ensures rule == 28 ==> state == 14
    ensures rule == 13 ==> state == 16
    ensures rule == 15 ==> state == 17
    ensures rule == 38 ==> state == 18
  {
  }

  /** Rules without an action. */
  lemma SilentTracks(c: Conf, rule: nat)
    requires Tracks(c) && Below(c.states, 0) != YYFINAL && YyDefAct(Below(c.states, 0)) == rule > 0
    requires Reduces(c, rule) && Silent(rule)
    ensures Tracks(AfterReduce(c, rule, c.ctx))
  {
    hide Edge, YyStos, YyR1, YyR2, Rhs, YyDefAct, Nested, Inner, Rank, Goto, Proper, Fresh, Awaits, WithValue, Symbol, Valued, StackOk;
    ReduceFrame(c, rule, c.ctx);
    PopKeeps(c, rule);
    EdgeBelow(c.states, 0);
    ReduceClass(Below(c.states, 0), rule);
    var d := AfterReduce(c, rule, c.ctx);
    GotoClass(Below(d.states, 0), rule);
    NestedPush(c.ctx.config, c.ctx.parent, c.states[..|c.states| - YyR2(rule)], Below(d.states, 0));
  }

  /** What a reduction that opens or closes nothing needs to keep the invariant. */
  lemma PlainTracks(c: Conf, rule: nat, ctx: Context)
    requires Tracks(c) && Below(c.states, 0) != YYFINAL && YyDefAct(Below(c.states, 0)) == rule > 0
    requires Reduces(c, rule) && (rule == 11 || 21 <= rule <= 29) && InRange(ctx)
    requires ctx.parent == c.ctx.parent && |c.ctx.config| <= |ctx.config|
    requires forall i | 0 <= i < |c.ctx.config| :: ctx.config[i].parent == c.ctx.config[i].parent
               && (IsAggregate(c.ctx.config[i].kind) ==> ctx.config[i].kind == c.ctx.config[i].kind)
    requires (rule == 21 || rule == 22) ==> ctx.text.Some?
    requires if rule <= 22 && InGroup(c.states)
             then ctx.setting.Some? && Fresh(ctx.config, ctx.setting.value) && Proper(ctx.config, ctx.setting)
                  && ctx.config[ctx.setting.value].parent == ctx.parent
             else Proper(ctx.config, None)
    ensures Tracks(AfterReduce(c, rule, ctx))
  {
    hide Edge, YyStos, YyR1, YyR2, Rhs, YyDefAct, Nested, Inner, Rank, Goto, Proper, Fresh, Awaits, WithValue, Symbol, Valued, StackOk, IsAggregate;
    ReduceFrame(c, rule, ctx);
    PopKeeps(c, rule);
    var d := AfterReduce(c, rule, ctx);
    var base := c.states[..|c.states| - YyR2(rule)];
    GotoClass(Below(d.states, 0), rule);
    NestedKept(c.ctx.config, ctx.config, ctx.parent, base);
    NestedPush(ctx.config, ctx.parent, base, Below(d.states, 0));
  }

  /** The top value, when the top state stands for a token with a value. */
  lemma TopValue(c: Conf)
    requires Sound(c) && Valued(c) && WithValue(Below(c.states, 0))
    ensures Below(c.states, 0) < YYNSTATES && c.values[|c.values| - 1].Some?
    ensures Symbol(c.values[|c.values| - 1].value) == YyStos(Below(c.states, 0))
  {
  }

  /** The action of a rule never crashes, and the parser goes on in order behind it. */
  predicate ActionTracks(c: Conf, rule: nat)
    requires Reduces(c, rule)
  {
    var done := Semantic(rule, c.ctx, c.values[|c.values| - 1]);
    !done.Crash? && (done.Next? ==> Tracks(AfterReduce(c, rule, done.ctx)))
  }

  lemma NameIsGroup(c: Conf)
    requires Tracks(c) && Below(c.states, 0) == 1
    ensures c.ctx.parent.Some? && c.ctx.parent.value < |c.ctx.config| && c.ctx.config[c.ctx.parent.value].kind == GroupT
    ensures InGroup(c.states) && Proper(c.ctx.config, None)
  {
    hide Nested, Inner, Proper, Edge;
    InnerOf(c.states);
    NestedKind(c.ctx.config, c.ctx.parent, c.states);
  }

  lemma NameTracks(c: Conf)
    requires Tracks(c) && Below(c.states, 0) == 1 && Reduces(c, 11)
    ensures ActionTracks(c, 11)
  {
    hide Edge, YyR1, YyR2, Rhs, Nested, Inner, Rank, Goto, Proper, Fresh, Valued, StackOk, Add;
    TopValue(c);
    NameIsGroup(c);
    var name := c.values[|c.values| - 1].value.sval;
    var p := c.ctx.parent.value;
    if Add(c.ctx.config, p, Some(name), NoneT).Some? {
      AddNamed(c.ctx.config, p, name);
      AddedIs(c.ctx.config, p, name);
      PlainTracks(c, 11, NewSetting(c.ctx, name).ctx);
    }
  }

  lemma TextTracks(c: Conf, rule: nat)
    requires Tracks(c) && Reduces(c, rule)
    requires (Below(c.states, 0) == 15 && rule == 21) || (Below(c.states, 0) == 31 && rule == 22)
    ensures ActionTracks(c, rule)
  {
    hide Edge, YyR1, YyR2, Rhs, Nested, Inner, Rank, Goto, Proper, Fresh, Valued, StackOk;
    TopValue(c);
    var t := c.values[|c.values| - 1];
    assert Semantic(rule, c.ctx, t) == AppendText(c.ctx, t);
    PlainTracks(c, rule, AppendText(c.ctx, t).ctx);
  }

  // ---------- values ----------

  lemma AppendIs(c: Config, p: nat, kind: Kind, value: Scalar, format: Format)
    requires Linked(c) && p < |c| && Append(c, p, kind, value, format).Some?
    ensures var r := Append(c, p, kind, value, format).value;
            |r| == |c| + 1 && r[p] == c[p].(elements := c[p].elements + [|c|])
            && (forall k | 0 <= k < |c| && k != p :: r[k] == c[k])
            && r[|c|].name.None? && r[|c|].kind == kind && r[|c|].elements == []
    ensures c[p].kind == ArrayT && |c[p].elements| > 0 ==> c[p].elements[0] < |c| && c[c[p].elements[0]].kind == kind
  {
    CreateLinked(c, p, None, kind);
  }

  /** An element is appended to the innermost array or list. */
  lemma PutElement(c: Config, p: nat, kind: Kind, value: Scalar, format: Format)
    requires Proper(c, None) && p < |c| && (c[p].kind == ArrayT || c[p].kind == ListT) && IsScalar(kind)
    requires Append(c, p, kind, value, format).Some?
    ensures var r := Append(c, p, kind, value, format).value;
            Proper(r, None) && |c| <= |r|
            && forall k | 0 <= k < |c| :: r[k].parent == c[k].parent && r[k].kind == c[k].kind
  {
    hide Linked, ProperSetting;
    AppendIs(c, p, kind, value, format);
    AddElement(c, p, Append(c, p, kind, value, format).value);
  }

  /** The value of a named setting. */
  lemma PutSetting(c: Config, i: nat, kind: Kind, value: Scalar, format: Format)
    requires Linked(c) && Proper(c, Some(i)) && Fresh(c, i) && IsScalar(kind)
    ensures var r := SetScalar(c, i, kind, value, format);
            Proper(r, None) && |c| == |r|
            && forall k | 0 <= k < |c| :: r[k].parent == c[k].parent && (IsAggregate(c[k].kind) ==> r[k].kind == c[k].kind)
  {
    hide ProperSetting;
    FillFresh(c, i, SetScalar(c, i, kind, value, format));
  }

  lemma PutTracks(c: Conf, rule: nat, kind: Kind, value: Scalar, format: Format, text: Option<string>)
    requires Tracks(c) && Reduces(c, rule) && 23 <= rule <= 29 && IsScalar(kind)
    requires Below(c.states, 0) < YYNSTATES && Below(c.states, 0) != YYFINAL && YyDefAct(Below(c.states, 0)) == rule
    ensures var done := PutScalar(c.ctx.(text := text), kind, value, format);
            !done.Crash? && (done.Next? ==> Tracks(AfterReduce(c, rule, done.ctx)))
  {
    hide Edge, YyStos, YyR1, YyR2, Rhs, YyDefAct, Nested, Inner, Rank, Goto, Proper, Valued, StackOk, Append, Linked, IsScalar, ProperSetting, SetScalar;
    var ctx := c.ctx.(text := text);
    var config := c.ctx.config;
    ReduceClass(Below(c.states, 0), rule);
    NestedKind(config, ctx.parent, c.states);
    var p := ctx.parent.value;
    if InGroup(c.states) {
      PutSetting(config, ctx.setting.value, kind, value, format);
      PlainTracks(c, rule, PutScalar(ctx, kind, value, format).ctx);
    } else if Append(config, p, kind, value, format).Some? {
      PutElement(config, p, kind, value, format);
      PlainTracks(c, rule, PutScalar(ctx, kind, value, format).ctx);
    }
  }

  /** The scalar actions put a value of the type of their token. */
  lemma ScalarAction(rule: nat, ctx: Context, top: Option<Token>) returns (kind: Kind, value: Scalar, format: Format)
    requires InRange(ctx) && 23 <= rule <= 29
    requires rule <= 28 ==> top.Some? && Symbol(top.value) == (if rule == 23 then 3 else if rule == 24 then 4 else if rule == 25 then 6
                              else if rule == 26 then 5 else if rule == 27 then 7 else 8)
    requires rule == 29 ==> ctx.text.Some?
    ensures IsScalar(kind)
    ensures Semantic(rule, ctx, top) == PutScalar(ctx.(text := if rule == 29 then None else ctx.text), kind, value, format)
  {
    hide PutScalar;
    match rule
    case 23 => return BoolT, Whole(if top.value.on then 1 else 0), DefaultFormat;
    case 24 => return IntT, Whole(top.value.ival), DefaultFormat;
    case 25 => return Int64T, Whole(top.value.llval), DefaultFormat;
    case 26 => return IntT, Whole(top.value.ival), HexFormat;
    case 27 => return Int64T, Whole(top.value.llval), HexFormat;
    case 28 => return FloatT, Real(top.value.fval), DefaultFormat;
    case _ => return StringT, Text(ctx.text.value), DefaultFormat;
  }

  lemma ScalarSymbols()
    ensures YyStos(9) == 3 && YyStos(10) == 4 && YyStos(11) == 5 && YyStos(12) == 6 && YyStos(13) == 7 && YyStos(14) == 8
  {
  }

  lemma ScalarTracks(c: Conf, rule: nat)
    requires Tracks(c) && Reduces(c, rule) && 23 <= rule <= 29
    requires Below(c.states, 0) < YYNSTATES && Below(c.states, 0) != YYFINAL && YyDefAct(Below(c.states, 0)) == rule
    ensures ActionTracks(c, rule)
  {
    hide Edge, YyStos, YyR1, YyR2, Rhs, YyDefAct, Nested, Inner, Rank, Goto, Proper, Valued, StackOk, Linked, IsScalar, PutScalar, Semantic, Symbol;
    ReduceClass(Below(c.states, 0), rule);
    ScalarSymbols();
    var top := c.values[|c.values| - 1];
    if rule <= 28 {
      TopValue(c);
    }
    var kind, value, format := ScalarAction(rule, c.ctx, top);
    PutTracks(c, rule, kind, value, format, if rule == 29 then None else c.ctx.text);
  }

  // ---------- brackets ----------

  lemma OpenedList(c: Config, p: nat, kind: Kind)
    requires Proper(c, None) && p < |c| && c[p].kind == ListT && IsAggregate(kind)
    ensures var r := Add(c, p, None, kind);
            r.Some? && Proper(r.value, None) && |r.value| == |c| + 1
            && (forall k | 0 <= k < |c| :: r.value[k].parent == c[k].parent && r.value[k].kind == c[k].kind)
            && r.value[|c|].kind == kind && r.value[|c|].parent == Some(p)
  {
    hide ProperSetting;
    CreateLinked(c, p, None, kind);
    AddElement(c, p, Create(c, p, None, kind));
  }

  lemma OpenedSetting(c: Config, i: nat, kind: Kind)
    requires Linked(c) && Proper(c, Some(i)) && Fresh(c, i) && IsAggregate(kind)
    ensures var r := SetKind(c, i, kind);
            Proper(r, None) && |c| == |r| && r[i].kind == kind
            && forall k | 0 <= k < |c| :: r[k].parent == c[k].parent && (IsAggregate(c[k].kind) ==> r[k].kind == c[k].kind)
  {
    hide ProperSetting;
    FillFresh(c, i, SetKind(c, i, kind));
  }

  /** No bracket opens inside an array. */
  lemma OpensOutsideArray(states: seq<nat>)
    requires StackOk(states) && 16 <= Below(states, 0) <= 18
    ensures Inner(states) != 25
  {
    hide Inner;
    EdgeBelow(states, 0);
    PrefixOk(states);
    var below := states[..|states| - 1];
    InnerOf(below);
    InnerStep(states);
    assert Below(below, 0) == Below(states, 1);
    if Below(states, 1) == 8 {
    } else {
      assert Inner(below) == 26;
    }
  }

  lemma OpenTracks(c: Conf, rule: nat, kind: Kind)
    requires Tracks(c) && Reduces(c, rule) && 16 <= Below(c.states, 0) <= 18 && YyDefAct(Below(c.states, 0)) == rule
    requires (rule == 13 && kind == ArrayT) || (rule == 15 && kind == ListT) || (rule == 38 && kind == GroupT)
    ensures var done := Open(c.ctx, kind);
            !done.Crash? && (done.Next? ==> Tracks(AfterReduce(c, rule, done.ctx)))
  {
    hide Edge, YyStos, YyR1, YyR2, Rhs, YyDefAct, Nested, Inner, Rank, Goto, Proper, Valued, StackOk, Linked, ProperSetting, Add, SetKind, Reduces;
    var config := c.ctx.config;
    NestedKind(config, c.ctx.parent, c.states);
    OpensOutsideArray(c.states);
    if InGroup(c.states) {
      var i := c.ctx.setting.value;
      OpenedSetting(config, i, kind);
      OpenedTracks(c, rule, kind, Open(c.ctx, kind).ctx);
    } else {
      OpenedList(config, c.ctx.parent.value, kind);
      OpenedTracks(c, rule, kind, Open(c.ctx, kind).ctx);
    }
  }

  lemma OpenedTracks(c: Conf, rule: nat, kind: Kind, ctx: Context)
    requires Tracks(c) && Reduces(c, rule) && 16 <= Below(c.states, 0) <= 18 && YyDefAct(Below(c.states, 0)) == rule
    requires (rule == 13 && kind == ArrayT) || (rule == 15 && kind == ListT) || (rule == 38 && kind == GroupT)
    requires InRange(ctx) && Proper(ctx.config, None) && |c.ctx.config| <= |ctx.config|
    requires forall i | 0 <= i < |c.ctx.config| :: ctx.config[i].parent == c.ctx.config[i].parent
               && (IsAggregate(c.ctx.config[i].kind) ==> ctx.config[i].kind == c.ctx.config[i].kind)
    requires ctx.parent.Some? && ctx.config[ctx.parent.value].kind == kind && ctx.config[ctx.parent.value].parent == c.ctx.parent
    ensures Tracks(AfterReduce(c, rule, ctx))
  {
    hide Edge, YyStos, YyR1, YyR2, Rhs, YyDefAct, Inner, Rank, Goto, Proper, Valued, StackOk, Linked, IsAggregate, Nested, Scope, Fresh;
    ReduceFrame(c, rule, ctx);
    PopKeeps(c, rule);
    var d := AfterReduce(c, rule, ctx);
    var base := c.states[..|c.states| - YyR2(rule)];
    var next := Below(d.states, 0);
    GotoClass(next, rule);
    NestedKept(c.ctx.config, ctx.config, c.ctx.parent, base);
    NestedOpen(ctx.config, ctx.parent, base, next);
  }

  lemma NestedOpen(c: Config, parent: Option<nat>, states: seq<nat>, state: nat)
    requires Linked(c) && Scope(state) && parent.Some? && parent.value < |c|
    ensures Nested(c, parent, states + [state]) ==
      (c[parent.value].kind == ScopeKind(state) && Nested(c, c[parent.value].parent, states))
  {
    assert (states + [state])[..|states|] == states;
  }

  /** Four states, of which only the second is a bracket, are popped. */
  lemma ClosePops(c: Conf, rule: nat)
    requires Sound(c) && Below(c.states, 0) != YYFINAL && YyDefAct(Below(c.states, 0)) == rule && Closing(rule)
    requires 4 == YyR2(rule) < |c.states|
    ensures var n := |c.states|;
            !Scope(c.states[n - 1]) && !Scope(c.states[n - 2]) && Scope(c.states[n - 3]) && !Scope(c.states[n - 4])
  {
    hide Edge, YyStos, YyR1, YyR2, Rhs, YyDefAct, Scope, Rank;
    PopShape(c.states);
    var n := |c.states|;
    assert Below(c.states, 0) == c.states[n - 1] && Below(c.states, 1) == c.states[n - 2];
    assert Below(c.states, 2) == c.states[n - 3] && Below(c.states, 3) == c.states[n - 4];
    ScopeInside(rule, 3, c.states[n - 1]);
    ScopeInside(rule, 2, c.states[n - 2]);
    ScopeInside(rule, 1, c.states[n - 3]);
    ScopeInside(rule, 0, c.states[n - 4]);
  }

  lemma NestedClose(c: Config, parent: Option<nat>, states: seq<nat>)
    requires Linked(c) && |states| > 4 && Nested(c, parent, states)
    requires var n := |states|;
             !Scope(states[n - 1]) && !Scope(states[n - 2]) && Scope(states[n - 3]) && !Scope(states[n - 4])
    ensures parent.Some? && parent.value < |c| && Nested(c, c[parent.value].parent, states[..|states| - 4])
  {
    hide Scope;
    var n := |states|;
    var a, b, d := states[..n - 1], states[..n - 2], states[..n - 3];
    assert a[..n - 2] == b && b[..n - 3] == d && d[..n - 4] == states[..n - 4];
    assert Nested(c, parent, a);
    assert Nested(c, parent, b);
    assert Nested(c, c[parent.value].parent, d);
  }

  lemma CloseTracks(c: Conf, rule: nat)
    requires Tracks(c) && Reduces(c, rule) && Closing(rule) && YyR2(rule) == 4
    requires Below(c.states, 0) < YYNSTATES && Below(c.states, 0) != YYFINAL && YyDefAct(Below(c.states, 0)) == rule
    ensures Tracks(AfterReduce(c, rule, Close(c.ctx)))
  {
    hide Edge, YyStos, YyR1, YyR2, Rhs, YyDefAct, Inner, Rank, Goto, Proper, Valued, StackOk, Linked, Nested, Scope, Fresh, Awaits;
    ReduceClass(Below(c.states, 0), rule);
    ClosePops(c, rule);
    NestedClose(c.ctx.config, c.ctx.parent, c.states);
    var ctx := Close(c.ctx);
    ReduceFrame(c, rule, ctx);
    var d := AfterReduce(c, rule, ctx);
    GotoClass(Below(d.states, 0), rule);
    NestedPush(ctx.config, ctx.parent, c.states[..|c.states| - 4], Below(d.states, 0));
  }

  // ---------- runs ----------

  lemma ReduceTracks(c: Conf, rule: nat)
    requires Tracks(c) && Below(c.states, 0) != YYFINAL && YyDefAct(Below(c.states, 0)) == rule > 0 && Reduces(c, rule)
    ensures ActionTracks(c, rule)
  {
    hide Edge, YyStos, YyR1, YyR2, Rhs, YyDefAct, Rank, Goto, Reduces, Tracks, PutScalar, Close, NewSetting, AppendText, Symbol;
    TracksStack(c);
    EdgeBelow(c.states, 0);
    ReduceClass(Below(c.states, 0), rule);
    ReduceFour(rule);
    if rule == 11 {
      NameTracks(c);
    } else if rule == 21 || rule == 22 {
      TextTracks(c, rule);
    } else if 23 <= rule <= 29 {
      ScalarTracks(c, rule);
    } else if Closing(rule) {
      CloseTracks(c, rule);
    } else if rule == 13 {
      OpenTracks(c, rule, ArrayT);
    } else if rule == 15 {
      OpenTracks(c, rule, ListT);
    } else if rule == 38 {
      OpenTracks(c, rule, GroupT);
    } else {
      SilentTracks(c, rule);
    }
  }

  lemma TracksStack(c: Conf)
    requires Tracks(c)
    ensures StackOk(c.states) && |c.values| == |c.states| && InRange(c.ctx)
  {
    hide StackOk, Valued, Nested, Proper, Fresh, Linked;
  }

  lemma ReduceFour(rule: nat)
    requires 0 < rule <= YYNRULES
    ensures Closing(rule) ==> YyR2(rule) == 4
  {
  }

  lemma {:induction false} RunSafe(c: Conf)
    requires Tracks(c)
    ensures Run(c) != Crashed
    ensures Run(c).Accepted? ==> Proper(Run(c).ctx.config, None)
    decreases |c.input|, if Below(c.states, 0) == YYFINAL then 0 else 1, Stages(c)
  {
    hide Run, YyStos, Edge, Rank, YyR1, YyR2, Rhs, YyDefAct, Goto, Semantic, Proper, Nested, Fresh, Valued;
    RunStops(c);
    if |c.states| < YYMAXDEPTH && Below(c.states, 0) != YYFINAL {
      var act := Action(Below(c.states, 0), Lookahead(c.input));
      match act
      case Error =>
      case Shift(next) =>
        RunShifts(c);
        ShiftTracks(c);
        RunSafe(Shifted(c, next));
      case Reduce(rule) =>
        RunReduces(c);
        ReduceIsDefault(Below(c.states, 0), Lookahead(c.input));
        ReduceTracks(c, rule);
        var done := Semantic(rule, c.ctx, c.values[|c.values| - 1]);
        if done.Next? {
          RunSafe(AfterReduce(c, rule, done.ctx));
        }
    }
  }

  /** On every sequence of tokens the parser accepts or aborts; no action ever uses
      a null pointer or a value it does not have. What it accepts is a well-formed
      tree: valid and different names in every group, one scalar type in every
      array, and no setting without a type. */
  lemma ParseSafe(input: seq<Token>)
    ensures Parse(input) != Crashed
    ensures Parse(input).Accepted? ==> Proper(Parse(input).ctx.config, None)
  {
    var c := START.(input := input);
    assert c.states[..0] == [];
    RunSafe(c);
  }
}
