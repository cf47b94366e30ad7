/** The tables of the generated LALR(1) parser and what they say about its grammar.

    Each table is a function that is defined exactly on the indices of the C array,
    so every lookup below is also a proof that the index is in range. */
module ConfigTables {

  const YYFINAL: nat := 6
  const YYLAST: nat := 35
  const YYNTOKENS: nat := 23
  const YYNNTS: nat := 20
  const YYNRULES: nat := 39
  const YYNSTATES: nat := 47
  const YYPACT_NINF := -26
  const YYMAXDEPTH: nat := 10000
  const YYTERROR: nat := 1

  /** `yypact`: where the row of a state starts in `YyTable`. */
  function YyPact(state: nat): int
    requires state < YYNSTATES
  {
    match state
    case 0 => -8 case 1 => -26 case 2 => 12 case 3 => -8 case 4 => -26 case 5 => 5
    case 6 => -26 case 7 => -26 case 8 => 0 case 9 => -26 case 10 => -26 case 11 => -26
    case 12 => -26 case 13 => -26 case 14 => -26 case 15 => -26 case 16 => -26 case 17 => -26
    case 18 => -26 case 19 => -26 case 20 => -26 case 21 => -6 case 22 => 10 case 23 => -26
    case 24 => -26 case 25 => 23 case 26 => 0 case 27 => -8 case 28 => -26 case 29 => -26
    case 30 => -26 case 31 => -26 case 32 => -26 case 33 => 3 case 34 => 7 case 35 => -26
    case 36 => 6 case 37 => 8 case 38 => -8 case 39 => 14 case 40 => 23 case 41 => -26
    case 42 => 0 case 43 => -26 case 44 => -26 case 45 => -26 case _ => -26
  }

  /** `yydefact`: the default reduction of a state; zero is an error. */
  function YyDefAct(state: nat): (r: nat)
    requires state < YYNSTATES
    ensures r <= YYNRULES
  {
    match state
    case 0 => 2 case 1 => 11 case 2 => 0 case 3 => 3 case 4 => 4 case 5 => 0
    case 6 => 1 case 7 => 5 case 8 => 0 case 9 => 23 case 10 => 24 case 11 => 26
    case 12 => 25 case 13 => 27 case 14 => 28 case 15 => 21 case 16 => 13 case 17 => 15
    case 18 => 38 case 19 => 18 case 20 => 19 case 21 => 8 case 22 => 29 case 23 => 17
    case 24 => 20 case 25 => 36 case 26 => 32 case 27 => 6 case 28 => 10 case 29 => 9
    case 30 => 12 case 31 => 22 case 32 => 34 case 33 => 37 case 34 => 0 case 35 => 30
    case 36 => 33 case 37 => 0 case 38 => 7 case 39 => 0 case 40 => 0 case 41 => 14
    case 42 => 0 case 43 => 16 case 44 => 39 case 45 => 35 case _ => 31
  }

  /** `yypgoto` */
  function YyPGoto(nonterminal: nat): int
    requires nonterminal < YYNNTS
  {
    match nonterminal
    case 0 => -26 case 1 => -26 case 2 => -5 case 3 => -26 case 4 => -26 case 5 => -3
    case 6 => -26 case 7 => -26 case 8 => -26 case 9 => -26 case 10 => -26 case 11 => -25
    case 12 => -26 case 13 => -15 case 14 => -26 case 15 => -26 case 16 => -26 case 17 => -26
    case 18 => -26 case _ => -26
  }

  /** `yydefgoto` */
  function YyDefGoto(nonterminal: nat): int
    requires nonterminal < YYNNTS
  {
    match nonterminal
    case 0 => -1 case 1 => 2 case 2 => 3 case 3 => 39 case 4 => 30 case 5 => 4
    case 6 => 5 case 7 => 19 case 8 => 25 case 9 => 20 case 10 => 26 case 11 => 21
    case 12 => 22 case 13 => 23 case 14 => 36 case 15 => 37 case 16 => 33 case 17 => 34
    case 18 => 24 case _ => 27
  }

  /** `yytable`: states to go to. */
  function YyTable(index: nat): nat
    requires index <= YYLAST
  {
    match index
    case 0 => 7 case 1 => 35 case 2 => 1 case 3 => 9 case 4 => 10 case 5 => 11
    case 6 => 12 case 7 => 13 case 8 => 14 case 9 => 15 case 10 => 32 case 11 => 28
    case 12 => 6 case 13 => 16 case 14 => 29 case 15 => 17 case 16 => 8 case 17 => 46
    case 18 => 18 case 19 => 31 case 20 => 40 case 21 => 41 case 22 => 38 case 23 => 42
    case 24 => 43 case 25 => 45 case 26 => 9 case 27 => 10 case 28 => 11 case 29 => 12
    case 30 => 13 case 31 => 14 case 32 => 15 case 33 => 44 case 34 => 0 case _ => 7
  }

  /** `yycheck`: whose entry of `YyTable` this is. */
  function YyCheck(index: nat): int
    requires index <= YYLAST
  {
    match index
    case 0 => 3 case 1 => 26 case 2 => 10 case 3 => 3 case 4 => 4 case 5 => 5
    case 6 => 6 case 7 => 7 case 8 => 8 case 9 => 9 case 10 => 25 case 11 => 17
    case 12 => 0 case 13 => 13 case 14 => 20 case 15 => 15 case 16 => 11 case 17 => 42
    case 18 => 18 case 19 => 9 case 20 => 17 case 21 => 14 case 22 => 27 case 23 => 17
    case 24 => 16 case 25 => 40 case 26 => 3 case 27 => 4 case 28 => 5 case 29 => 6
    case 30 => 7 case 31 => 8 case 32 => 9 case 33 => 19 case 34 => -1 case _ => 38
  }

  /** `yystos`: the symbol that leads to a state. */
  function YyStos(state: nat): nat
    requires state < YYNSTATES
  {
    match state
    case 0 => 0 case 1 => 10 case 2 => 24 case 3 => 25 case 4 => 28 case 5 => 29
    case 6 => 0 case 7 => 28 case 8 => 11 case 9 => 3 case 10 => 4 case 11 => 5
    case 12 => 6 case 13 => 7 case 14 => 8 case 15 => 9 case 16 => 13 case 17 => 15
    case 18 => 18 case 19 => 30 case 20 => 32 case 21 => 34 case 22 => 35 case 23 => 36
    case 24 => 41 case 25 => 31 case 26 => 33 case 27 => 42 case 28 => 17 case 29 => 20
    case 30 => 27 case 31 => 9 case 32 => 36 case 33 => 39 case 34 => 40 case 35 => 34
    case 36 => 37 case 37 => 38 case 38 => 25 case 39 => 26 case 40 => 17 case 41 => 14
    case 42 => 17 case 43 => 16 case 44 => 19 case 45 => 36 case _ => 34
  }

  /** `yyr1`: the symbol on the left of a rule. */
  function YyR1(rule: nat): (r: nat)
    requires 0 < rule <= YYNRULES
    ensures YYNTOKENS <= r < YYNTOKENS + YYNNTS
  {
    match rule
    case 1 => 23 case 2 => 24 case 3 => 24 case 4 => 25 case 5 => 25
    case 6 => 26 case 7 => 26 case 8 => 27 case 9 => 27 case 10 => 27 case 11 => 29
    case 12 => 28 case 13 => 31 case 14 => 30 case 15 => 33 case 16 => 32 case 17 => 34
    case 18 => 34 case 19 => 34 case 20 => 34 case 21 => 35 case 22 => 35 case 23 => 36
    case 24 => 36 case 25 => 36 case 26 => 36 case 27 => 36 case 28 => 36 case 29 => 36
    case 30 => 37 case 31 => 37 case 32 => 38 case 33 => 38 case 34 => 39 case 35 => 39
    case 36 => 40 case 37 => 40 case 38 => 42 case _ => 41
  }

  /** `yyr2`: the length of a rule's right-hand side. */
  function YyR2(rule: nat): nat
    requires 0 < rule <= YYNRULES
  {
    match rule
    case 1 => 2 case 2 => 0 case 3 => 1 case 4 => 1 case 5 => 2
    case 6 => 0 case 7 => 1 case 8 => 0 case 9 => 1 case 10 => 1 case 11 => 0
    case 12 => 5 case 13 => 0 case 14 => 4 case 15 => 0 case 16 => 4 case 17 => 1
    case 18 => 1 case 19 => 1 case 20 => 1 case 21 => 1 case 22 => 2 case 23 => 1
    case 24 => 1 case 25 => 1 case 26 => 1 case 27 => 1 case 28 => 1 case 29 => 1
    case 30 => 1 case 31 => 3 case 32 => 0 case 33 => 1 case 34 => 1 case 35 => 3
    case 36 => 0 case 37 => 1 case 38 => 0 case _ => 4
  }

  /** The right-hand sides of the grammar, in the symbol numbers of `yytname`. */
  function Rhs(rule: nat): (r: seq<nat>)
    requires 0 < rule <= YYNRULES
    ensures |r| == YyR2(rule)
  {
    match rule
    case 1 => [24, 0]
    case 2 => []
    case 3 => [25]
    case 4 => [28]
    case 5 => [25, 28]
    case 6 => []
    case 7 => [25]
    case 8 => []
    case 9 => [20]
    case 10 => [17]
    case 11 => []
    case 12 => [10, 29, 11, 34, 27]
    case 13 => []
    case 14 => [13, 31, 40, 14]
    case 15 => []
    case 16 => [15, 33, 38, 16]
    case 17 => [36]
    case 18 => [30]
    case 19 => [32]
    case 20 => [41]
    case 21 => [9]
    case 22 => [35, 9]
    case 23 => [3]
    case 24 => [4]
    case 25 => [6]
    case 26 => [5]
    case 27 => [7]
    case 28 => [8]
    case 29 => [35]
    case 30 => [34]
    case 31 => [37, 17, 34]
    case 32 => []
    case 33 => [37]
    case 34 => [36]
    case 35 => [39, 17, 36]
    case 36 => []
    case 37 => [39]
    case 38 => []
    case _ => [18, 42, 26, 19]
  }

  /** The states that the automaton can leave to enter `state`. */
  predicate Edge(from: nat, state: nat) {
    match state
    case 1 => from == 0 || from == 3 || from == 27 || from == 38
    case 2 | 3 => from == 0
    case 4 => from == 0 || from == 27
    case 5 => from == 1
    case 6 => from == 2
    case 7 => from == 3 || from == 38
    case 8 => from == 5
    case 9 | 10 | 11 | 12 | 13 | 14 | 15 | 22 => from == 8 || from == 25 || from == 26 || from == 40 || from == 42
    case 16 | 17 | 18 | 19 | 20 | 23 | 24 => from == 8 || from == 26 || from == 42
    case 21 => from == 8
    case 25 => from == 16
    case 26 => from == 17
    case 27 => from == 18
    case 28 | 29 | 30 => from == 21
    case 31 => from == 22
    case 32 | 33 | 34 => from == 25
    case 35 | 36 | 37 => from == 26
    case 38 | 39 => from == 27
    case 40 => from == 33
    case 41 => from == 34
    case 42 => from == 36
    case 43 => from == 37
    case 44 => from == 39
    case 45 => from == 40
    case 46 => from == 42
    case _ => false
  }

  /** How many reductions a state can still see before the next shift. */
  function Rank(state: nat): nat
    requires state < YYNSTATES
  {
    match state
    case 0 => 2 case 1 => 2 case 2 => 0 case 3 => 1 case 4 => 2 case 5 => 0
    case 6 => 0 case 7 => 1 case 8 => 0 case 9 => 4 case 10 => 4 case 11 => 4
    case 12 => 4 case 13 => 4 case 14 => 4 case 15 => 5 case 16 => 4 case 17 => 4
    case 18 => 4 case 19 => 3 case 20 => 3 case 21 => 2 case 22 => 4 case 23 => 3
    case 24 => 3 case 25 => 2 case 26 => 2 case 27 => 2 case 28 => 1 case 29 => 1
    case 30 => 0 case 31 => 4 case 32 => 2 case 33 => 1 case 34 => 0 case 35 => 2
    case 36 => 1 case 37 => 0 case 38 => 1 case 39 => 0 case 40 => 0 case 41 => 1
    case 42 => 0 case 43 => 1 case 44 => 1 case 45 => 0 case _ => 0
  }

  datatype Act = Shift(state: nat) | Reduce(rule: nat) | Error

  /** What the driver does in a state on a lookahead token. */
  function Action(state: nat, token: nat): Act
    requires state < YYNSTATES && token < YYNTOKENS
  {
    var n := YyPact(state);
    if n == YYPACT_NINF then Default(state)
    else
      var i := n + token;
      if i < 0 || YYLAST < i || YyCheck(i) != token then Default(state)
      else if YyTable(i) == 0 then Error
      else Shift(YyTable(i))
  }

  function Default(state: nat): Act
    requires state < YYNSTATES
  {
    if YyDefAct(state) == 0 then Error else Reduce(YyDefAct(state))
  }

  /** Where a reduction to `symbol` goes from the state uncovered by its pop. */
  function Goto(state: nat, symbol: nat): int
    requires state < YYNSTATES && YYNTOKENS <= symbol < YYNTOKENS + YYNNTS
  {
    var i := YyPGoto(symbol - YYNTOKENS) + state;
    if 0 <= i <= YYLAST && YyCheck(i) == state then YyTable(i)
    else YyDefGoto(symbol - YYNTOKENS)
  }

  // ---------- what the tables say ----------

  /** A stack of states that the automaton can have pushed. */
  predicate StackOk(states: seq<nat>) {
    |states| > 0 && states[0] == 0 && (forall k | 0 <= k < |states| :: states[k] < YYNSTATES)
    && forall k | 0 < k < |states| :: Edge(states[k - 1], states[k])
  }

  /** The entries of `YyTable` that a row starting at `start` owns. */
  lemma Cells(start: int, token: nat)
    requires token < YYNTOKENS && 0 <= start + token <= YYLAST && YyCheck(start + token) == token
    ensures start == -8 ==> token == 10
    ensures start == -6 ==> token == 17 || token == 20
    ensures start == 0 ==> 3 <= token <= 9 || token == 13 || token == 15 || token == 18
    ensures start == 5 ==> token == 11
    ensures start == 10 ==> token == 9
    ensures start == 12 ==> token == 0
    ensures start == 23 ==> 3 <= token <= 9
    ensures start == 3 || start == 6 ==> token == 17
    ensures start == 7 ==> token == 14
    ensures start == 8 ==> token == 16
    ensures start == 14 ==> token == 19
  {
  }

  lemma ShiftSymbol(state: nat, token: nat)
    requires state < YYNSTATES && token < YYNTOKENS && Action(state, token).Shift?
    ensures var next := Action(state, token).state; next < YYNSTATES && YyStos(next) == token
  {
    hide Edge;
    Cells(YyPact(state), token);
  }

  lemma ShiftFrom(state: nat, token: nat)
    requires state < YYNSTATES && token < YYNTOKENS && Action(state, token).Shift?
    ensures Edge(state, Action(state, token).state)
  {
    hide YyStos;
    Cells(YyPact(state), token);
  }

  /** A shift follows an edge labelled with the token. */
  lemma ShiftEdge(state: nat, token: nat)
    requires state < YYNSTATES && token < YYNTOKENS && Action(state, token).Shift?
    ensures var next := Action(state, token).state;
            next < YYNSTATES && YyStos(next) == token && Edge(state, next)
  {
    hide Action, YyStos, Edge;
    ShiftSymbol(state, token);
    ShiftFrom(state, token);
  }

  /** No state shifts the error token. */
  lemma NoErrorToken(state: nat)
    requires state < YYNSTATES
    ensures !Action(state, YYTERROR).Shift?
  {
  }

  /** Only defaults reduce. */
  lemma ReduceIsDefault(state: nat, token: nat)
    requires state < YYNSTATES && token < YYNTOKENS && Action(state, token).Reduce?
    ensures Action(state, token).rule == YyDefAct(state) > 0
  {
  }

  /** The state `depth` entries below the top; the start state below the bottom. */
  function Below(states: seq<nat>, depth: nat): nat {
    if depth < |states| then states[|states| - 1 - depth] else 0
  }

  lemma EdgeBelow(states: seq<nat>, depth: nat)
    requires StackOk(states)
    ensures Below(states, depth) < YYNSTATES
    ensures Below(states, depth) != 0 ==> depth + 1 < |states| && Edge(Below(states, depth + 1), Below(states, depth))
  {
  }

  /** The start state lies at the bottom only. */
  lemma BottomOnly(states: seq<nat>, k: nat)
    requires StackOk(states) && 0 < k < |states|
    ensures states[k] != 0
  {
    assert Edge(states[k - 1], states[k]);
  }

  /** The right-hand sides that end at a state, read downwards from it. */
  lemma ShortRules(top: nat, a: nat)
    requires top < YYNSTATES && a < YYNSTATES && top != YYFINAL && (top != 0 ==> Edge(a, top))
    ensures var rule := YyDefAct(top);
            rule > 0 && YyR2(rule) > 0 ==>
              top != 0 && YyStos(top) == Rhs(rule)[YyR2(rule) - 1]
              && (YyR2(rule) > 1 ==> a != 0 && YyStos(a) == Rhs(rule)[YyR2(rule) - 2])
  {
  }

  lemma LongRules(top: nat, a: nat, b: nat, c: nat, d: nat)
    requires top < YYNSTATES && a < YYNSTATES && b < YYNSTATES && c < YYNSTATES && d < YYNSTATES && top != YYFINAL
    requires YyDefAct(top) > 0 && YyR2(YyDefAct(top)) > 2 && Edge(a, top)
    requires a != 0 ==> Edge(b, a)
    requires b != 0 ==> Edge(c, b)
    requires c != 0 ==> Edge(d, c)
    ensures var rule := YyDefAct(top);
            var n := YyR2(rule);
            a != 0 && b != 0 && YyStos(b) == Rhs(rule)[n - 3]
            && (n > 3 ==> c != 0 && YyStos(c) == Rhs(rule)[n - 4])
            && (n > 4 ==> d != 0 && YyStos(d) == Rhs(rule)[n - 5])
  {
  }

  /** Under a state with a reduction lie exactly the states of the rule's right-hand side. */
  lemma PopShape(states: seq<nat>)
    requires StackOk(states) && Below(states, 0) < YYNSTATES
    requires Below(states, 0) != YYFINAL && YyDefAct(Below(states, 0)) > 0
    ensures var n := YyR2(YyDefAct(Below(states, 0)));
            n < |states| && forall k | 0 <= k < n ::
              Below(states, k) < YYNSTATES && YyStos(Below(states, k)) == Rhs(YyDefAct(Below(states, 0)))[n - 1 - k]
  {
    hide YyR1, Rank, Edge, YyDefAct, YyStos, Rhs, YyR2, Below;
    assert |states| > 0;
    var top := Below(states, 0);
    EdgeBelow(states, 0);
    EdgeBelow(states, 1);
    EdgeBelow(states, 2);
    EdgeBelow(states, 3);
    EdgeBelow(states, 4);
    var n := YyR2(YyDefAct(top));
    Lengths(YyDefAct(top));
    if n > 0 {
      ShortRules(top, Below(states, 1));
      if n > 2 {
        LongRules(top, Below(states, 1), Below(states, 2), Below(states, 3), Below(states, 4));
      }
    }
  }

  lemma Lengths(rule: nat)
    requires 0 < rule <= YYNRULES
    ensures YyR2(rule) <= 5
  {
  }

  lemma GotosLow(base: nat, symbol: nat)
    requires base < YYNSTATES && YYNTOKENS < symbol < 34
    ensures symbol == 24 ==> Goto(base, symbol) == 2
    ensures symbol == 25 ==> Goto(base, symbol) == if base == 27 then 38 else 3
    ensures symbol == 26 ==> Goto(base, symbol) == 39
    ensures symbol == 27 ==> Goto(base, symbol) == 30
    ensures symbol == 28 ==> Goto(base, symbol) == if base == 3 || base == 38 then 7 else 4
    ensures symbol == 29 ==> Goto(base, symbol) == 5
    ensures symbol == 30 ==> Goto(base, symbol) == 19
    ensures symbol == 31 ==> Goto(base, symbol) == 25
    ensures symbol == 32 ==> Goto(base, symbol) == 20
    ensures symbol == 33 ==> Goto(base, symbol) == 26
  {
  }

  lemma GotosHigh(base: nat, symbol: nat)
    requires base < YYNSTATES && 34 <= symbol < YYNTOKENS + YYNNTS
    ensures symbol == 34 ==> Goto(base, symbol) == if base == 26 then 35 else if base == 42 then 46 else 21
    ensures symbol == 35 ==> Goto(base, symbol) == 22
    ensures symbol == 36 ==> Goto(base, symbol) == if base == 25 then 32 else if base == 40 then 45 else 23
    ensures symbol == 37 ==> Goto(base, symbol) == 36
    ensures symbol == 38 ==> Goto(base, symbol) == 37
    ensures symbol == 39 ==> Goto(base, symbol) == 33
    ensures symbol == 40 ==> Goto(base, symbol) == 34
    ensures symbol == 41 ==> Goto(base, symbol) == 24
    ensures symbol == 42 ==> Goto(base, symbol) == 27
  {
  }

  /** The gotos that the displacement tables encode. */
  lemma Gotos(base: nat, symbol: nat)
    requires base < YYNSTATES && YYNTOKENS < symbol < YYNTOKENS + YYNNTS
    ensures symbol == 24 ==> Goto(base, symbol) == 2
    ensures symbol == 25 ==> Goto(base, symbol) == if base == 27 then 38 else 3
    ensures symbol == 26 ==> Goto(base, symbol) == 39
    ensures symbol == 27 ==> Goto(base, symbol) == 30
    ensures symbol == 28 ==> Goto(base, symbol) == if base == 3 || base == 38 then 7 else 4
    ensures symbol == 29 ==> Goto(base, symbol) == 5
    ensures symbol == 30 ==> Goto(base, symbol) == 19
    ensures symbol == 31 ==> Goto(base, symbol) == 25
    ensures symbol == 32 ==> Goto(base, symbol) == 20
    ensures symbol == 33 ==> Goto(base, symbol) == 26
    ensures symbol == 34 ==> Goto(base, symbol) == if base == 26 then 35 else if base == 42 then 46 else 21
    ensures symbol == 35 ==> Goto(base, symbol) == 22
    ensures symbol == 36 ==> Goto(base, symbol) == if base == 25 then 32 else if base == 40 then 45 else 23
    ensures symbol == 37 ==> Goto(base, symbol) == 36
    ensures symbol == 38 ==> Goto(base, symbol) == 37
    ensures symbol == 39 ==> Goto(base, symbol) == 33
    ensures symbol == 40 ==> Goto(base, symbol) == 34
    ensures symbol == 41 ==> Goto(base, symbol) == 24
    ensures symbol == 42 ==> Goto(base, symbol) == 27
  {
    hide Goto;
    if symbol < 34 {
      GotosLow(base, symbol);
    } else {
      GotosHigh(base, symbol);
    }
  }

  /** The push after a pop follows an edge labelled with the rule's symbol, and
      leaves fewer reductions to come. */
  predicate GotoOk(top: nat, base: nat)
    requires top < YYNSTATES && base < YYNSTATES && YyDefAct(top) > 1
  {
    var rule := YyDefAct(top);
    var next := Goto(base, YyR1(rule));
    0 <= next < YYNSTATES && YyStos(next) == YyR1(rule) && Edge(base, next)
    && 1 + Rank(next) < YyR2(rule) + Rank(top)
  }

  lemma GotoAfterNone(top: nat)
    requires top < YYNSTATES && top != YYFINAL && YyDefAct(top) > 0 && YyR2(YyDefAct(top)) == 0
    ensures YyDefAct(top) > 1 && GotoOk(top, top)
  {
    hide YyDefAct, YyR1, YyR2, GotoOk;
    NoneSymbol(top);
    if top < 20 {
      GotoAfterNoneLow(top);
    } else {
      GotoAfterNoneHigh(top);
    }
  }

  lemma GotoAfterNoneLow(top: nat)
    requires top < 20 && YyDefAct(top) > 0 && YyR2(YyDefAct(top)) == 0
    ensures YyDefAct(top) > 1 && GotoOk(top, top)
  {
    hide Goto, YyDefAct, YyR1, YyR2;
    NoneSymbol(top);
    Gotos(top, YyR1(YyDefAct(top)));
  }

  lemma GotoAfterNoneHigh(top: nat)
    requires 20 <= top < YYNSTATES && YyDefAct(top) > 0 && YyR2(YyDefAct(top)) == 0
    ensures YyDefAct(top) > 1 && GotoOk(top, top)
  {
    hide Goto, YyDefAct, YyR1, YyR2;
    NoneSymbol(top);
    Gotos(top, YyR1(YyDefAct(top)));
  }

  /** What a state without anything to pop reduces to. */
  lemma NoneSymbol(top: nat)
    requires top < YYNSTATES && YyDefAct(top) > 0 && YyR2(YyDefAct(top)) == 0
    ensures YyDefAct(top) > 1
    ensures var symbol := YyR1(YyDefAct(top));
            (top, symbol) == (0, 24) || (top, symbol) == (1, 29) || (top, symbol) == (16, 31) || (top, symbol) == (17, 33)
            || (top, symbol) == (18, 42) || (top, symbol) == (21, 27) || (top, symbol) == (25, 40) || (top, symbol) == (26, 38)
            || (top, symbol) == (27, 26)
  {
  }

  lemma ScalarSymbol(top: nat)
    requires 9 <= top <= 15 || top == 22
    ensures YyDefAct(top) > 1 && YyR2(YyDefAct(top)) == 1 && YyR1(YyDefAct(top)) == (if top == 15 then 35 else 36)
  {
  }

  lemma OtherSymbol(top: nat)
    requires top < YYNSTATES && YyDefAct(top) > 0 && YyR2(YyDefAct(top)) == 1 && (top < 9 || 15 < top < 22 || 22 < top < 30)
    ensures top == 3 || top == 4 || top == 19 || top == 20 || top == 23 || top == 24 || top == 28 || top == 29
  {
  }

  lemma MostSymbol(top: nat)
    requires top < YYNSTATES && YyDefAct(top) > 0 && 4 <= YyR2(YyDefAct(top)) <= 5
    ensures top == 30 || top == 41 || top == 43 || top == 44
    ensures YyR2(YyDefAct(top)) == if top == 30 then 5 else 4
  {
  }

  lemma GotoAfterScalar(top: nat, a: nat)
    requires a < YYNSTATES && (9 <= top <= 15 || top == 22) && Edge(a, top)
    ensures YyDefAct(top) > 1 && GotoOk(top, a)
  {
    hide Goto, YyDefAct, YyR1, YyR2;
    ScalarSymbol(top);
    Gotos(a, YyR1(YyDefAct(top)));
  }

  lemma GotoAfterOther(top: nat, a: nat)
    requires top < YYNSTATES && a < YYNSTATES && top != YYFINAL && YyDefAct(top) > 0
    requires YyR2(YyDefAct(top)) == 1 && Edge(a, top) && (top < 9 || 15 < top < 22 || 22 < top < 30)
    ensures YyDefAct(top) > 1 && GotoOk(top, a)
  {
    hide Goto, YyDefAct, YyR1, YyR2, GotoOk;
    OtherSymbol(top);
    if 19 <= top <= 24 {
      ItemLands(top, a);
    } else {
      FewLands(top, a);
    }
  }

  lemma ItemLands(top: nat, base: nat)
    requires top == 19 || top == 20 || top == 23 || top == 24
    requires base == 8 || base == 26 || base == 42
    ensures YyDefAct(top) > 1 && GotoOk(top, base)
  {
    hide Goto, YyDefAct, YyR1, YyR2;
    OtherSymbolOf(top);
    Gotos(base, YyR1(YyDefAct(top)));
  }

  lemma FewLands(top: nat, base: nat)
    requires (top == 3 && base == 0) || (top == 4 && (base == 0 || base == 27)) || ((top == 28 || top == 29) && base == 21)
    ensures YyDefAct(top) > 1 && GotoOk(top, base)
  {
    hide Goto, YyDefAct, YyR1, YyR2;
    OtherSymbolOf(top);
    Gotos(base, YyR1(YyDefAct(top)));
  }

  lemma OtherSymbolOf(top: nat)
    requires top == 3 || top == 4 || top == 19 || top == 20 || top == 23 || top == 24 || top == 28 || top == 29
    ensures YyDefAct(top) > 1 && YyR2(YyDefAct(top)) == 1
    ensures YyR1(YyDefAct(top)) == if top == 3 then 24 else if top == 4 then 25 else if top < 28 then 34 else 27
  {
  }

  lemma GotoAfterList(top: nat, a: nat)
    requires 30 <= top < YYNSTATES && a < YYNSTATES && YyDefAct(top) > 0
    requires YyR2(YyDefAct(top)) == 1 && Edge(a, top)
    ensures YyDefAct(top) > 1 && GotoOk(top, a)
  {
    hide Goto;
    Gotos(a, YyR1(YyDefAct(top)));
  }

  lemma GotoAfterOne(top: nat, a: nat)
    requires top < YYNSTATES && a < YYNSTATES && top != YYFINAL && YyDefAct(top) > 0
    requires YyR2(YyDefAct(top)) == 1 && Edge(a, top)
    ensures YyDefAct(top) > 1 && GotoOk(top, a)
  {
    hide Goto, GotoOk, Edge;
    if 9 <= top <= 15 || top == 22 {
      GotoAfterScalar(top, a);
    } else if top >= 30 {
      GotoAfterList(top, a);
    } else {
      GotoAfterOther(top, a);
    }
  }

  lemma GotoAfterMore(top: nat, a: nat, b: nat, c: nat)
    requires top < YYNSTATES && a < YYNSTATES && b < YYNSTATES && c < YYNSTATES && top != YYFINAL
    requires YyDefAct(top) > 0 && 2 <= YyR2(YyDefAct(top)) <= 3 && Edge(a, top)
    requires a != 0 ==> Edge(b, a)
    requires b != 0 ==> Edge(c, b)
    ensures YyDefAct(top) > 1 && GotoOk(top, if YyR2(YyDefAct(top)) == 2 then b else c)
  {
    hide Goto;
    Gotos(if YyR2(YyDefAct(top)) == 2 then b else c, YyR1(YyDefAct(top)));
  }

  lemma GotoAfterMost(top: nat, a: nat, b: nat, c: nat, d: nat, e: nat)
    requires top < YYNSTATES && a < YYNSTATES && b < YYNSTATES && c < YYNSTATES && d < YYNSTATES && e < YYNSTATES
    requires top != YYFINAL && YyDefAct(top) > 0 && 4 <= YyR2(YyDefAct(top)) <= 5 && Edge(a, top)
    requires a != 0 ==> Edge(b, a)
    requires b != 0 ==> Edge(c, b)
    requires c != 0 ==> Edge(d, c)
    requires d != 0 ==> Edge(e, d)
    ensures YyDefAct(top) > 1 && GotoOk(top, if YyR2(YyDefAct(top)) == 4 then d else e)
  {
    hide YyDefAct, YyR1, YyR2, Goto, GotoOk;
    MostSymbol(top);
    MostLands(top, if top == 30 then e else d);
  }

  lemma MostLands(top: nat, base: nat)
    requires base < YYNSTATES && (top == 30 || top == 41 || top == 43 || top == 44)
    requires if top == 30 then base == 0 || base == 3 || base == 27 || base == 38 else base == 8 || base == 26 || base == 42
    ensures YyDefAct(top) > 1 && GotoOk(top, base)
  {
    hide Goto, YyDefAct, YyR1, YyR2;
    MostSymbolOf(top);
    Gotos(base, YyR1(YyDefAct(top)));
  }

  lemma MostSymbolOf(top: nat)
    requires top == 30 || top == 41 || top == 43 || top == 44
    ensures YyDefAct(top) > 1 && YyR2(YyDefAct(top)) == (if top == 30 then 5 else 4)
    ensures YyR1(YyDefAct(top)) == if top == 30 then 28 else if top == 41 then 30 else if top == 43 then 32 else 41
  {
  }

  /** Every reduction can be completed: the push is one the automaton allows. */
  lemma GotoShape(states: seq<nat>)
    requires StackOk(states) && Below(states, 0) < YYNSTATES
    requires Below(states, 0) != YYFINAL && YyDefAct(Below(states, 0)) > 0
    ensures var rule := YyDefAct(Below(states, 0));
            rule > 1 && Below(states, YyR2(rule)) < YYNSTATES && GotoOk(Below(states, 0), Below(states, YyR2(rule)))
  {
    hide YyR1, Edge, YyDefAct, YyR2, Below, GotoOk, Goto, YyStos, Rhs, Rank, YyPGoto, YyDefGoto;
    assert |states| > 0;
    var top := Below(states, 0);
    EdgeBelow(states, 0);
    EdgeBelow(states, 1);
    EdgeBelow(states, 2);
    EdgeBelow(states, 3);
    EdgeBelow(states, 4);
    EdgeBelow(states, 5);
    var n := YyR2(YyDefAct(top));
    Lengths(YyDefAct(top));
    if n == 0 {
      GotoAfterNone(top);
    } else if n == 1 {
      ShortRules(top, Below(states, 1));
      GotoAfterOne(top, Below(states, 1));
    } else {
      ShortRules(top, Below(states, 1));
      if n <= 3 {
        GotoAfterMore(top, Below(states, 1), Below(states, 2), Below(states, 3));
      } else {
        GotoAfterMost(top, Below(states, 1), Below(states, 2), Below(states, 3), Below(states, 4), Below(states, 5));
      }
    }
  }
}
