/** The language of the parser: derivations of the grammar are syntax trees, so what is
    accepted is exactly what some syntax tree stands for. */
module ConfigLanguage {
  import opened ConfigTables
  import opened ConfigTree
  import opened ConfigParser
  import opened ConfigGrammar
  import opened ConfigSyntax
  import opened ConfigDepth
  import opened Optional

  // ---------- appending ----------

  lemma {:induction false} PartsAppend(parts: seq<string>, part: string)
    ensures StringTokens(parts + [part]) == StringTokens(parts) + [StringTok(part)]
    decreases parts
  {
    if |parts| == 0 {
      assert parts + [part] == [part];
    } else {
      PartsAppend(parts[1..], part);
      assert (parts + [part])[1..] == parts[1..] + [part];
    }
  }

  lemma {:induction false} ItemsAppend(items: seq<Val>, v: Val)
    requires |items| > 0
    ensures ItemTokens(items + [v]) == ItemTokens(items) + ([CommaTok] + ValTokens(v))
    decreases items
  {
    hide ValTokens;
    var all := items + [v];
    assert all[1..] == items[1..] + [v];
    if |items| == 1 {
      assert all[1..] == [v];
    } else {
      ItemsAppend(items[1..], v);
      assert ItemTokens(all) == ValTokens(items[0]) + ([CommaTok] + ItemTokens(all[1..]));
      assert ItemTokens(items) == ValTokens(items[0]) + ([CommaTok] + ItemTokens(items[1..]));
    }
  }

  lemma {:induction false} FieldsAppend(fields: seq<Field>, f: Field)
    ensures FieldsTokens(fields + [f]) == FieldsTokens(fields) + FieldTokens(f)
    decreases fields
  {
    hide FieldTokens;
    if |fields| == 0 {
      assert fields + [f] == [f];
      assert [f][1..] == [];
    } else {
      FieldsAppend(fields[1..], f);
      assert (fields + [f])[1..] == fields[1..] + [f];
    }
  }

  // ---------- the rules ----------

  /** What a derivation of a symbol is made of. */
  lemma RuleOf(d: Derivation)
    requires Derives(d) && Root(d) > 22
    ensures d.Node? && 0 < d.rule <= YYNRULES && |d.kids| == |Rhs(d.rule)| && YyR1(d.rule) == Root(d)
    ensures forall k | 0 <= k < |d.kids| :: Derives(d.kids[k]) && Root(d.kids[k]) == Rhs(d.rule)[k]
  {
    hide Rhs, YyR1, YyR2;
  }

  lemma RulesOf(symbol: nat, rule: nat)
    requires 0 < rule <= YYNRULES && YyR1(rule) == symbol
    ensures symbol == 24 ==> rule == 2 || rule == 3
    ensures symbol == 25 ==> rule == 4 || rule == 5
    ensures symbol == 26 ==> rule == 6 || rule == 7
    ensures symbol == 27 ==> 8 <= rule <= 10
    ensures symbol == 28 ==> rule == 12
    ensures symbol == 29 ==> rule == 11
    ensures symbol == 30 ==> rule == 14
    ensures symbol == 31 ==> rule == 13
    ensures symbol == 32 ==> rule == 16
    ensures symbol == 33 ==> rule == 15
    ensures symbol == 34 ==> 17 <= rule <= 20
    ensures symbol == 35 ==> rule == 21 || rule == 22
    ensures symbol == 36 ==> 23 <= rule <= 29
    ensures symbol == 37 ==> rule == 30 || rule == 31
    ensures symbol == 38 ==> rule == 32 || rule == 33
    ensures symbol == 39 ==> rule == 34 || rule == 35
    ensures symbol == 40 ==> rule == 36 || rule == 37
    ensures symbol == 41 ==> rule == 39
    ensures symbol == 42 ==> rule == 38
  {
  }

  /** A derivation of a token is that token. */
  lemma LeafOf(d: Derivation)
    requires Derives(d) && 0 < Root(d) < YYNTOKENS
    ensures d.Leaf? && Symbol(d.token) == Root(d) && Yield(d) == [d.token]
  {
    hide YyR1;
    if d.Node? {
      LeftSide(d.rule);
    }
  }

  lemma LeftSide(rule: nat)
    requires 0 < rule <= YYNRULES
    ensures YyR1(rule) >= YYNTOKENS
  {
  }

  lemma {:induction false} Yield1(ds: seq<Derivation>)
    ensures |ds| == 0 ==> Yields(ds) == []
    ensures |ds| == 1 ==> Yields(ds) == Yield(ds[0])
    ensures |ds| == 2 ==> Yields(ds) == Yield(ds[0]) + Yield(ds[1])
    ensures |ds| == 3 ==> Yields(ds) == Yield(ds[0]) + Yield(ds[1]) + Yield(ds[2])
    ensures |ds| == 4 ==> Yields(ds) == Yield(ds[0]) + Yield(ds[1]) + Yield(ds[2]) + Yield(ds[3])
    ensures |ds| == 5 ==> Yields(ds) == Yield(ds[0]) + Yield(ds[1]) + Yield(ds[2]) + Yield(ds[3]) + Yield(ds[4])
  {
    hide Yield;
    if |ds| > 0 {
      assert Yields(ds) == Yield(ds[0]) + Yields(ds[1..]);
      if |ds| <= 5 {
        Yield1(ds[1..]);
      }
    }
  }

  // ---------- strings, terminators and mid-rule actions ----------

  lemma {:induction false} ToParts(d: Derivation) returns (parts: seq<string>)
    requires Derives(d) && Root(d) == 35
    ensures |parts| > 0 && StringTokens(parts) == Yield(d)
    decreases d
  {
    hide YyR1, Rhs, Yields, Derives;
    RuleOf(d);
    RulesOf(35, d.rule);
    Yield1(d.kids);
    Rhs35();
    if d.rule == 21 {
      LeafOf(d.kids[0]);
      parts := [d.kids[0].token.sval];
      PartsAppend([], d.kids[0].token.sval);
    } else {
      LeafOf(d.kids[1]);
      var before := ToParts(d.kids[0]);
      PartsAppend(before, d.kids[1].token.sval);
      parts := before + [d.kids[1].token.sval];
    }
  }

  lemma Rhs35()
    ensures Rhs(21) == [9] && Rhs(22) == [35, 9]
  {
  }

  lemma ToEnd(d: Derivation) returns (end: Terminator)
    requires Derives(d) && Root(d) == 27
    ensures EndTokens(end) == Yield(d)
  {
    hide YyR1, Rhs, Yields, Derives;
    RuleOf(d);
    RulesOf(27, d.rule);
    Yield1(d.kids);
    Rhs27();
    if d.rule == 8 {
      end := Bare;
    } else {
      LeafOf(d.kids[0]);
      end := if d.rule == 9 then Semi else Comma;
    }
  }

  lemma Rhs27()
    ensures Rhs(8) == [] && Rhs(9) == [20] && Rhs(10) == [17]
  {
  }

  /** A mid-rule action derives nothing. */
  lemma MidRule(d: Derivation)
    requires Derives(d) && (Root(d) == 29 || Root(d) == 31 || Root(d) == 33 || Root(d) == 42)
    ensures Yield(d) == []
  {
    hide YyR1, Rhs, Yields, Derives;
    RuleOf(d);
    RulesOf(Root(d), d.rule);
    Yield1(d.kids);
    RhsMid();
  }

  lemma RhsMid()
    ensures Rhs(11) == [] && Rhs(13) == [] && Rhs(15) == [] && Rhs(38) == []
  {
  }

  // ---------- values and settings ----------

  lemma {:induction false} ToSimple(d: Derivation) returns (v: Val)
    requires Derives(d) && Root(d) == 36
    ensures Simple(v) && Formed(v) && ValTokens(v) == Yield(d)
  {
    hide YyR1, Rhs, Yields, Derives, StringTokens;
    RuleOf(d);
    RulesOf(36, d.rule);
    Yield1(d.kids);
    Rhs36();
    if d.rule == 29 {
      var parts := ToParts(d.kids[0]);
      v := Strings(parts);
    } else {
      LeafOf(d.kids[0]);
      v := Plain(d.kids[0].token);
    }
  }

  lemma Rhs36()
    ensures Rhs(23) == [3] && Rhs(24) == [4] && Rhs(25) == [6] && Rhs(26) == [5] && Rhs(27) == [7] && Rhs(28) == [8] && Rhs(29) == [35]
  {
  }

  /** The elements of an array or a list. */
  lemma {:induction false} ToItems(d: Derivation, list: bool) returns (items: seq<Val>)
    requires Derives(d) && Root(d) == if list then 37 else 39
    ensures |items| > 0 && ElementsFormed(list, items) && ItemTokens(items) == Yield(d)
    decreases d, 1
  {
    hide YyR1, Rhs, Yields, Derives, ItemTokens, ValTokens, ElementFormed;
    RuleOf(d);
    RulesOf(Root(d), d.rule);
    Yield1(d.kids);
    RhsItems();
    if |d.kids| == 1 {
      var v := ToElement(d.kids[0], list);
      items := [v];
      OneItem(v);
    } else {
      var before := ToItems(d.kids[0], list);
      LeafOf(d.kids[1]);
      CommaIs(d.kids[1].token);
      var v := ToElement(d.kids[2], list);
      ItemsAppend(before, v);
      items := before + [v];
    }
  }

  lemma OneItem(v: Val)
    ensures ItemTokens([v]) == ValTokens(v)
  {
  }

  lemma CommaIs(t: Token)
    ensures Symbol(t) == 17 ==> t == CommaTok
  {
  }

  lemma RhsItems()
    ensures Rhs(30) == [34] && Rhs(31) == [37, 17, 34] && Rhs(34) == [36] && Rhs(35) == [39, 17, 36]
  {
  }

  lemma {:induction false} ToElement(d: Derivation, list: bool) returns (v: Val)
    requires Derives(d) && Root(d) == if list then 34 else 36
    ensures ElementFormed(list, v) && ValTokens(v) == Yield(d)
    decreases d, 3
  {
    hide YyR1, Rhs, Yield, Derives, ValTokens, Formed, Simple;
    if list {
      v := ToVal(d);
    } else {
      v := ToSimple(d);
    }
  }

  lemma {:induction false} ToItemsOptional(d: Derivation, list: bool) returns (items: seq<Val>)
    requires Derives(d) && Root(d) == if list then 38 else 40
    ensures ElementsFormed(list, items) && ItemTokens(items) == Yield(d)
    decreases d, 0
  {
    hide YyR1, Rhs, Yields, Derives, ElementFormed;
    RuleOf(d);
    RulesOf(Root(d), d.rule);
    Yield1(d.kids);
    RhsOptional();
    if |d.kids| == 0 {
      items := [];
    } else {
      items := ToItems(d.kids[0], list);
    }
  }

  lemma RhsOptional()
    ensures Rhs(32) == [] && Rhs(33) == [37] && Rhs(36) == [] && Rhs(37) == [39]
    ensures Rhs(2) == [] && Rhs(3) == [25] && Rhs(6) == [] && Rhs(7) == [25]
  {
  }

  lemma {:induction false} ToBracket(d: Derivation) returns (v: Val)
    requires Derives(d) && (Root(d) == 30 || Root(d) == 32)
    ensures Formed(v) && ValTokens(v) == Yield(d)
    decreases d, 0
  {
    hide YyR1, Rhs, Yields, Derives, ItemTokens, Symbol;
    RuleOf(d);
    RulesOf(Root(d), d.rule);
    Yield1(d.kids);
    RhsBrackets();
    LeafOf(d.kids[0]);
    MidRule(d.kids[1]);
    LeafOf(d.kids[3]);
    BracketIs(d.kids[0].token);
    BracketIs(d.kids[3].token);
    var list := d.rule == 16;
    var items := ToItemsOptional(d.kids[2], list);
    v := if list then Lst(items) else Arr(items);
    if !list {
      forall k | 0 <= k < |items| ensures Simple(items[k]) {
        assert ElementFormed(list, items[k]);
      }
    } else {
      forall k | 0 <= k < |items| ensures Formed(items[k]) {
        assert ElementFormed(list, items[k]);
      }
    }
  }

  lemma BracketIs(t: Token)
    ensures Symbol(t) == 13 ==> t == ArrayStartTok
    ensures Symbol(t) == 14 ==> t == ArrayEndTok
    ensures Symbol(t) == 15 ==> t == ListStartTok
    ensures Symbol(t) == 16 ==> t == ListEndTok
    ensures Symbol(t) == 18 ==> t == GroupStartTok
    ensures Symbol(t) == 19 ==> t == GroupEndTok
    ensures Symbol(t) == 10 ==> t.NameTok?
    ensures Symbol(t) == 11 ==> t == EqualsTok
  {
  }

  lemma RhsBrackets()
    ensures Rhs(14) == [13, 31, 40, 14] && Rhs(16) == [15, 33, 38, 16] && Rhs(39) == [18, 42, 26, 19]
    ensures Rhs(12) == [10, 29, 11, 34, 27] && Rhs(4) == [28] && Rhs(5) == [25, 28]
  {
  }

  lemma {:induction false} ToGroup(d: Derivation) returns (v: Val)
    requires Derives(d) && Root(d) == 41
    ensures Formed(v) && ValTokens(v) == Yield(d)
    decreases d, 0
  {
    hide YyR1, Rhs, Yields, Derives, FieldsTokens, Symbol;
    RuleOf(d);
    RulesOf(41, d.rule);
    Yield1(d.kids);
    RhsBrackets();
    LeafOf(d.kids[0]);
    MidRule(d.kids[1]);
    LeafOf(d.kids[3]);
    BracketIs(d.kids[0].token);
    BracketIs(d.kids[3].token);
    var fields := ToFields(d.kids[2]);
    v := Grp(fields);
  }

  lemma {:induction false} ToVal(d: Derivation) returns (v: Val)
    requires Derives(d) && Root(d) == 34
    ensures Formed(v) && ValTokens(v) == Yield(d)
    decreases d, 2
  {
    hide YyR1, Rhs, Yields, Derives, ValTokens, Formed, Simple;
    RuleOf(d);
    RulesOf(34, d.rule);
    Yield1(d.kids);
    Rhs34();
    if d.rule == 17 {
      v := ToSimple(d.kids[0]);
    } else if d.rule == 20 {
      v := ToGroup(d.kids[0]);
    } else {
      v := ToBracket(d.kids[0]);
    }
  }

  lemma Rhs34()
    ensures Rhs(17) == [36] && Rhs(18) == [30] && Rhs(19) == [32] && Rhs(20) == [41]
  {
  }

  lemma {:induction false} ToField(d: Derivation) returns (f: Field)
    requires Derives(d) && Root(d) == 28
    ensures Formed(f.value) && FieldTokens(f) == Yield(d)
    decreases d, 0
  {
    hide YyR1, Rhs, Yields, Derives, ValTokens, Formed, Symbol, EndTokens;
    RuleOf(d);
    RulesOf(28, d.rule);
    Yield1(d.kids);
    RhsBrackets();
    LeafOf(d.kids[0]);
    MidRule(d.kids[1]);
    LeafOf(d.kids[2]);
    BracketIs(d.kids[0].token);
    BracketIs(d.kids[2].token);
    var v := ToVal(d.kids[3]);
    var end := ToEnd(d.kids[4]);
    f := Field(d.kids[0].token.sval, v, end);
  }

  /** A configuration, a list of settings, or an optional one. */
  lemma {:induction false} ToFields(d: Derivation) returns (fields: seq<Field>)
    requires Derives(d) && 24 <= Root(d) <= 26
    ensures AllFormed(fields) && FieldsTokens(fields) == Yield(d)
    decreases d, 1
  {
    hide YyR1, Rhs, Yields, Derives, FieldTokens, Formed;
    RuleOf(d);
    RulesOf(Root(d), d.rule);
    Yield1(d.kids);
    RhsOptional();
    RhsBrackets();
    if |d.kids| == 0 {
      fields := [];
    } else if d.rule == 3 || d.rule == 7 {
      fields := ToFields(d.kids[0]);
    } else if d.rule == 4 {
      var f := ToField(d.kids[0]);
      fields := [f];
      FieldsAppend([], f);
      assert [] + [f] == [f];
    } else {
      var before := ToFields(d.kids[0]);
      var f := ToField(d.kids[1]);
      FieldsAppend(before, f);
      fields := before + [f];
    }
  }

  // ---------- the language ----------

  /** The settings of a configuration whose actions succeed on a stack that can hold them. */
  predicate Acceptable(fields: seq<Field>) {
    AllFormed(fields) && DoFields(fields, START.ctx).Next? && 1 + FieldsPeak(fields, true) < YYMAXDEPTH
  }

  /** The parser accepts a sequence of tokens if and only if it is that of a syntax
      tree whose actions succeed and whose parse the stack can hold. */
  lemma LanguageExactly(input: seq<Token>)
    ensures Parse(input).Accepted? <==> exists fields :: FieldsTokens(fields) == input && Acceptable(fields)
  {
    hide Parse, DoFields, FieldsTokens, AllFormed, FieldsPeak, Derives, Yield;
    if Parse(input).Accepted? {
      var d := AcceptedIsDerived(input);
      var fields := ToFields(d);
      ParseExactly(fields);
      assert FieldsTokens(fields) == input && Acceptable(fields);
    }
    forall fields | FieldsTokens(fields) == input && Acceptable(fields) ensures Parse(input).Accepted? {
      ParseExactly(fields);
    }
  }
}
