/** Exactly which configurations survive being written and read. */
module ConfigExact {
  import opened ConfigTables
  import opened ConfigTree
  import opened ConfigParser
  import opened ConfigSafety
  import opened ConfigScanner
  import opened ConfigWriter
  import opened ConfigRebuild
  import opened ConfigRoundTrip
  import opened Optional

  /** What the scanner never returns: a boolean word as a name, a number too wide for its type. */
  predicate TokenOk(t: Token) {
    match t
    case NameTok(s) => !IsBoolean(s)
    case IntegerTok(n) => IsInt32(n)
    case HexTok(n) => IsInt32(n)
    case Integer64Tok(n) => IsInt64(n)
    case Hex64Tok(n) => IsInt64(n)
    case _ => true
  }

  lemma NumberTokenOk(s: string)
    requires |s| > 0 && NumberToken(s).Some?
    ensures TokenOk(NumberToken(s).value.0)
  {
    hide ReadDigits, DigitValue;
  }

  lemma {:induction false} ScannedOk(s: string)
    ensures Scan(s).Some? ==> forall t | t in Scan(s).value :: TokenOk(t)
    decreases |s|
  {
    hide ReadWord, ScanString, NumberToken, IsTrue, IsFalse, IsInt32, IsInt64, DigitValue;
    if |s| == 0 {
    } else if IsBlank(s[0]) || Punctuation(s[0]).Some? {
      ScannedOk(s[1..]);
    } else if s[0] == '\"' {
      var r := ScanString(s[1..], "");
      if r.Some? {
        ScannedOk(r.value.1);
      }
    } else if IsAlpha(s[0]) || s[0] == '*' {
      ScanWordStep(s);
      WordStart(s[0]);
      WordShrinks(s);
      ScannedOk(ReadWord(s).1);
    } else if DigitValue(s[0], 10) >= 0 || s[0] in "+-." {
      var r := NumberToken(s);
      if r.Some? {
        NumberTokenOk(s);
        ScannedOk(r.value.1);
      }
    } else if s[0] in "#/@" {
    } else {
      ScannedOk(s[1..]);
    }
  }

  // ---------- where names and values come from ----------

  predicate SettingOk(s: Setting) {
    (s.name.Some? ==> !IsBoolean(s.name.value))
    && match s.kind
       case BoolT => s.value == Whole(0) || s.value == Whole(1)
       case IntT => s.value.Whole? && IsInt32(s.value.n)
       case Int64T => s.value.Whole? && IsInt64(s.value.n)
       case StringT => s.value.Text?
       case _ => true
  }

  predicate AllOk(c: Config) {
    forall i | 0 <= i < |c| :: SettingOk(c[i])
  }

  lemma PutOk(ctx: Context, kind: Kind, value: Scalar, format: Format)
    requires InRange(ctx) && AllOk(ctx.config) && SettingOk(Setting(None, kind, format, value, [], None))
    ensures var done := PutScalar(ctx, kind, value, format); done.Next? ==> AllOk(done.ctx.config)
  {
    hide Linked, CheckType, IsInt32, IsInt64;
  }

  lemma OpenOk(ctx: Context, kind: Kind)
    requires InRange(ctx) && AllOk(ctx.config) && IsAggregate(kind)
    ensures var done := Open(ctx, kind); done.Next? ==> AllOk(done.ctx.config)
  {
    hide Linked, IsInt32, IsInt64;
  }

  lemma NewOk(ctx: Context, name: string)
    requires InRange(ctx) && AllOk(ctx.config) && !IsBoolean(name)
    ensures var done := NewSetting(ctx, name); done.Next? ==> AllOk(done.ctx.config)
  {
    hide Linked, IsInt32, IsInt64, Member, ValidName, IsBoolean;
  }

  lemma SemanticOk(rule: nat, ctx: Context, top: Option<Token>)
    requires InRange(ctx) && AllOk(ctx.config) && (top.Some? ==> TokenOk(top.value))
    ensures var done := Semantic(rule, ctx, top); done.Next? ==> AllOk(done.ctx.config)
  {
    hide Linked, IsInt32, IsInt64, PutScalar, Open, NewSetting, AllOk, IsBoolean;
    match rule
    case 11 => if top.Some? && top.value.NameTok? { NewOk(ctx, top.value.sval); }
    case 13 => OpenOk(ctx, ArrayT);
    case 15 => OpenOk(ctx, ListT);
    case 38 => OpenOk(ctx, GroupT);
    case 23 => if top.Some? && top.value.BooleanTok? { PutOk(ctx, BoolT, Whole(if top.value.on then 1 else 0), DefaultFormat); }
    case 24 => if top.Some? && top.value.IntegerTok? { PutOk(ctx, IntT, Whole(top.value.ival), DefaultFormat); }
    case 25 => if top.Some? && top.value.Integer64Tok? { PutOk(ctx, Int64T, Whole(top.value.llval), DefaultFormat); }
    case 26 => if top.Some? && top.value.HexTok? { PutOk(ctx, IntT, Whole(top.value.ival), HexFormat); }
    case 27 => if top.Some? && top.value.Hex64Tok? { PutOk(ctx, Int64T, Whole(top.value.llval), HexFormat); }
    case 28 => if top.Some? && top.value.FloatTok? { PutOk(ctx, FloatT, Real(top.value.fval), DefaultFormat); }
    case 29 => if ctx.text.Some? { PutOk(ctx.(text := None), StringT, Text(ctx.text.value), DefaultFormat); }
    case _ =>
  }

  predicate RunOk(c: Conf) {
    Sound(c) && AllOk(c.ctx.config)
    && (forall t | t in c.input :: TokenOk(t))
    && forall k | 0 <= k < |c.values| :: c.values[k].Some? ==> TokenOk(c.values[k].value)
  }

  lemma {:induction false} RunKeepsOk(c: Conf)
    requires RunOk(c)
    ensures Run(c).Accepted? ==> AllOk(Run(c).ctx.config)
    decreases |c.input|, if Below(c.states, 0) == YYFINAL then 0 else 1, Stages(c)
  {
    hide Run, YyStos, Edge, Rank, YyR1, YyR2, Rhs, YyDefAct, Goto, Semantic, Action, AllOk, TokenOk;
    RunStops(c);
    if |c.states| < YYMAXDEPTH && Below(c.states, 0) != YYFINAL {
      var act := Action(Below(c.states, 0), Lookahead(c.input));
      match act
      case Error =>
      case Shift(next) =>
        RunShifts(c);
        RunKeepsOk(Shifted(c, next));
      case Reduce(rule) =>
        RunReduces(c);
        var top := c.values[|c.values| - 1];
        SemanticOk(rule, c.ctx, top);
        var done := Semantic(rule, c.ctx, top);
        if done.Next? {
          RunKeepsOk(AfterReduce(c, rule, done.ctx));
        }
    }
  }

  // ---------- what is read can be written ----------

  lemma {:induction false} ProperIsReadable(c: Config, id: nat)
    requires Proper(c, None) && AllOk(c) && id < |c| && Written(Content(c, DefaultFormat, id).body)
    ensures Readable(Content(c, DefaultFormat, id).body)
    decreases |c| - id, 1
  {
    hide Linked, Contents, IsInt32, IsInt64, Names, Uniform, Nameless, AllReadable, AllWritten, ProperSetting, Bytes, IsBoolean;
    var b := Content(c, DefaultFormat, id).body;
    assert SettingOk(c[id]);
    if IsAggregate(c[id].kind) {
      ProperItems(c, id, 0);
      if c[id].kind == GroupT {
        GroupNames(c, id);
      } else {
        VectorNameless(c, id);
        if c[id].kind == ArrayT {
          ArrayUniform(c, id);
        }
      }
    }
  }

  lemma {:induction false} ProperItems(c: Config, id: nat, k: nat)
    requires Proper(c, None) && AllOk(c) && id < |c| && k <= |c[id].elements| && AllWritten(Contents(c, DefaultFormat, id, k))
    ensures AllReadable(Contents(c, DefaultFormat, id, k))
    decreases |c| - id, 0, |c[id].elements| - k
  {
    hide Content, Readable, Written, ProperSetting;
    if k < |c[id].elements| {
      ProperIsReadable(c, c[id].elements[k]);
      ProperItems(c, id, k + 1);
    }
  }

  lemma ElementIs(c: Config, id: nat, k: nat)
    requires Linked(c) && id < |c| && k < |c[id].elements|
    ensures c[id].elements[k] < |c|
    ensures Contents(c, DefaultFormat, id, 0)[k] == Content(c, DefaultFormat, c[id].elements[k])
    ensures Contents(c, DefaultFormat, id, 0)[k].name == c[c[id].elements[k]].name
  {
    hide Contents;
    ContentsAt(c, DefaultFormat, id, 0, k);
  }

  lemma {:induction false} WrittenAt(items: seq<Tree>, k: nat)
    requires AllWritten(items) && k < |items|
    ensures !items[k].body.Decimal?
    decreases k
  {
    if k > 0 {
      WrittenAt(items[1..], k - 1);
    }
  }

  lemma ScalarContent(c: Config, id: nat)
    requires Linked(c) && id < |c| && SettingOk(c[id]) && !Content(c, DefaultFormat, id).body.Decimal?
    ensures var b := Content(c, DefaultFormat, id).body;
            IsScalar(c[id].kind) ==> ScalarBody(b) && KindOf(b) == c[id].kind
  {
    hide Linked, Contents;
  }

  lemma GroupNames(c: Config, id: nat)
    requires Proper(c, None) && AllOk(c) && id < |c| && c[id].kind == GroupT
    ensures Names(Contents(c, DefaultFormat, id, 0))
  {
    hide Contents, Content, ValidName, IsBoolean;
    var items := Contents(c, DefaultFormat, id, 0);
    var e := c[id].elements;
    assert ProperSetting(c, id);
    forall k | 0 <= k < |e| ensures items[k].name == c[e[k]].name && SettingOk(c[e[k]]) {
      ElementIs(c, id, k);
    }
  }

  lemma VectorNameless(c: Config, id: nat)
    requires Proper(c, None) && id < |c| && (c[id].kind == ListT || c[id].kind == ArrayT)
    ensures Nameless(Contents(c, DefaultFormat, id, 0))
  {
    hide Contents, Content;
    var items := Contents(c, DefaultFormat, id, 0);
    assert ProperSetting(c, id);
    forall k | 0 <= k < |items| ensures items[k].name.None? {
      ElementIs(c, id, k);
    }
  }

  lemma ArrayUniform(c: Config, id: nat)
    requires Proper(c, None) && AllOk(c) && id < |c| && c[id].kind == ArrayT && AllWritten(Contents(c, DefaultFormat, id, 0))
    ensures Uniform(Contents(c, DefaultFormat, id, 0))
  {
    hide Contents, Content, IsScalar, SettingOk, KindOf, ScalarBody;
    var items := Contents(c, DefaultFormat, id, 0);
    assert ProperSetting(c, id);
    forall k | 0 <= k < |items| ensures ScalarBody(items[k].body) && KindOf(items[k].body) == c[c[id].elements[0]].kind {
      ElementIs(c, id, k);
      WrittenAt(items, k);
      ScalarContent(c, c[id].elements[k]);
    }
  }

  // ---------- exactly ----------

  /** Whatever is accepted, as far as it can be written, can be read back. */
  lemma AcceptedIsReadable(text: string)
    ensures var r := Read(text);
            r.Some? && r.value.Accepted? ==>
              Linked(r.value.ctx.config)
              && (var t := Content(r.value.ctx.config, DefaultFormat, 0); Written(t.body) ==> Readable(t.body))
  {
    hide Scan, Run, Proper, Content, Readable, Written, TokenOk;
    ScannedOk(text);
    if Scan(text).Some? {
      var tokens := Scan(text).value;
      ParseSafe(tokens);
      var c := START.(input := tokens);
      StartOk();
      RunKeepsOk(c);
      if Parse(tokens).Accepted? {
        var config := Parse(tokens).ctx.config;
        ProperLinked(config);
        if Written(Content(config, DefaultFormat, 0).body) {
          ProperIsReadable(config, 0);
        }
      }
    }
  }

  lemma StartOk()
    ensures AllOk(START.ctx.config) && Sound(START)
  {
  }

  lemma ProperLinked(c: Config)
    requires Proper(c, None)
    ensures Linked(c)
  {
  }

  /** Writing and reading a configuration gives back its contents if and only if the
      grammar can express them: every name valid, used once in its group and not a
      boolean word, arrays of one scalar type, booleans zero or one, and neither
      settings without a type nor strings without a value; and the parser's stack is
      high enough for them. */
  lemma RoundTripExactly(t: Tree, o: Options)
    requires t.name.None? && t.body.GroupOf? && Written(t.body)
    ensures ReadsBack(t, o) <==> Readable(t.body) && Shallow(t.body.items)
  {
    hide Read, Content, Readable, Written, SettingText, Shallow;
    if Readable(t.body) {
      if Shallow(t.body.items) {
        ReadBack(t, o);
      } else {
        TooDeep(t, o);
      }
    }
    AcceptedIsReadable(SettingText(t, o, 0));
  }
}
