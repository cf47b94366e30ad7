/** Finding a setting by its path. */
module ConfigPath {
  import opened ConfigTree
  import opened ConfigScanner
  import opened Integers
  import opened Optional

  // ---------- the lookup ----------

  /** `atoi`, with the conversion to the unsigned index. */
  function Index(s: string): nat {
    if |s| > 0 && (s[0] == ' ' || 9 <= s[0] as int <= 13) then Index(s[1..])
    else
      var n := if |s| > 0 && (s[0] == '-' || s[0] == '+') then Signed(ReadDigits(s[1..], 10, 0).0, s[0] == '-')
               else ReadDigits(s, 10, 0).0;
      Wrap(Int, ClampSigned(n)) % TWO32
  }

  /** What follows the current step of a path. */
  function Tail(s: string): (r: string)
    ensures |r| <= |s| && (|s| > 0 && !IsPathToken(s[0]) ==> |r| < |s|)
  {
    if |s| == 0 || IsPathToken(s[0]) then s else Tail(s[1..])
  }

  /** `config_setting_lookup`. A step that is not found ends the search; where it was
      the last thing in the path, as in "[", the setting reached so far is returned. */
  function Lookup(c: Config, setting: nat, path: string): (r: Option<nat>)
    requires Linked(c) && setting < |c|
    ensures r.Some? ==> r.value < |c|
    decreases |path|
  {
    if |path| == 0 then Some(setting)
    else if IsPathToken(path[0]) then Lookup(c, setting, path[1..])
    else
      var rest := if path[0] == '[' then path[1..] else path;
      var found := if path[0] == '[' then Element(c, setting, Index(rest)) else Member(c, setting, path);
      if found.None? then (if |rest| == 0 then Some(setting) else None)
      else Lookup(c, found.value, Tail(rest))
  }

  method Atoi(s: string) returns (n: nat)
    ensures n == Index(s)
  {
    hide ReadDigits, DigitValue;
    var i := 0;
    while i < |s| && (s[i] == ' ' || 9 <= s[i] as int <= 13)
      invariant i <= |s| && Index(s) == Index(s[i..])
    {
      assert s[i..][1..] == s[i + 1..];
      i := i + 1;
    }
    var negative := i < |s| && s[i] == '-';
    ghost var start := s[i..];
    if i < |s| && (s[i] == '-' || s[i] == '+') {
      i := i + 1;
      assert start[1..] == s[i..];
    }
    ghost var digits := s[i..];
    var value := 0;
    while i < |s| && DigitValue(s[i], 10) >= 0
      invariant i <= |s| && value >= 0 && ReadDigits(digits, 10, 0) == ReadDigits(s[i..], 10, value)
    {
      DigitStep(s[i..], value);
      assert s[i..][1..] == s[i + 1..];
      value := value * 10 + DigitValue(s[i], 10);
      i := i + 1;
    }
    DigitStop(s[i..], value);
    n := Wrap(Int, ClampSigned(Signed(value, negative))) % TWO32;
  }

  lemma DigitStep(s: string, acc: nat)
    requires StartsDigit(s, 10)
    ensures ReadDigits(s, 10, acc) == ReadDigits(s[1..], 10, acc * 10 + DigitValue(s[0], 10))
  {
  }

  lemma DigitStop(s: string, acc: nat)
    requires !StartsDigit(s, 10)
    ensures ReadDigits(s, 10, acc) == (acc, s)
  {
  }

  /** An index may have white space and a sign in front of it; a negative one is as far
      below the unsigned range of 32 bits. */
  lemma {:induction false} IndexIs(blanks: string, sign: string, n: nat, rest: string)
    requires forall k | 0 <= k < |blanks| :: blanks[k] == ' ' || 9 <= blanks[k] as int <= 13
    requires sign in ["", "+", "-"] && n < TWO31 && !StartsDigit(rest, 10)
    ensures Index(blanks + (sign + (Digits(n, 10) + rest))) == if sign == "-" && n > 0 then TWO32 - n else n
    decreases blanks
  {
    hide DigitValue, Digits, Index, ReadDigits, Wrap;
    var number := Digits(n, 10) + rest;
    var text := sign + number;
    IndexUnfolds(blanks + text);
    if |blanks| > 0 {
      assert (blanks + text)[0] == blanks[0] && (blanks + text)[1..] == blanks[1..] + text;
      IndexIs(blanks[1..], sign, n, rest);
    } else {
      assert blanks + text == text;
      DigitsBack(n, 10, rest);
      DigitStop(rest, n);
      DigitFirst(number);
      IndexWraps(n);
      if sign == "" {
        assert text == number;
      } else {
        assert text[0] == sign[0] && text[1..] == number;
      }
    }
  }

  lemma IndexUnfolds(s: string)
    ensures Index(s) ==
      if |s| > 0 && (s[0] == ' ' || 9 <= s[0] as int <= 13) then Index(s[1..])
      else if |s| > 0 && (s[0] == '-' || s[0] == '+') then
        Wrap(Int, ClampSigned(Signed(ReadDigits(s[1..], 10, 0).0, s[0] == '-'))) % TWO32
      else Wrap(Int, ClampSigned(ReadDigits(s, 10, 0).0)) % TWO32
  {
    hide ReadDigits, Wrap;
  }

  lemma IndexWraps(n: nat)
    requires n < TWO31
    ensures Wrap(Int, ClampSigned(n)) % TWO32 == n && Wrap(Int, ClampSigned(Signed(n, false))) % TWO32 == n
    ensures Wrap(Int, ClampSigned(Signed(n, true))) % TWO32 == if n > 0 then TWO32 - n else n
  {
  }

  /** A digit is neither white space nor a sign. */
  lemma DigitFirst(s: string)
    requires StartsDigit(s, 10)
    ensures s[0] != ' ' && !(9 <= s[0] as int <= 13) && s[0] != '-' && s[0] != '+'
  {
  }

  /** A path with a dot for each separator. */
  function Dotted(s: string): (r: string)
    ensures |r| == |s|
  {
    if |s| == 0 then "" else [if s[0] == ':' || s[0] == '/' then '.' else s[0]] + Dotted(s[1..])
  }

  lemma {:induction false} DottedParts(s: string)
    ensures Head(Dotted(s)) == Head(s) && Tail(Dotted(s)) == Dotted(Tail(s))
    decreases s
  {
    if |s| > 0 {
      assert Dotted(s)[1..] == Dotted(s[1..]);
      DottedParts(s[1..]);
    }
  }

  lemma {:induction false} DottedDigits(s: string, acc: nat)
    ensures ReadDigits(Dotted(s), 10, acc).0 == ReadDigits(s, 10, acc).0
    decreases s
  {
    if |s| > 0 {
      assert Dotted(s)[1..] == Dotted(s[1..]);
      if StartsDigit(s, 10) {
        DottedDigits(s[1..], acc * 10 + DigitValue(s[0], 10));
      }
    }
  }

  lemma {:induction false} DottedIndex(s: string)
    ensures Index(Dotted(s)) == Index(s)
    decreases s
  {
    hide ReadDigits, Wrap;
    if |s| > 0 {
      assert Dotted(s)[1..] == Dotted(s[1..]);
      DottedIndex(s[1..]);
      DottedDigits(s[1..], 0);
    }
    DottedDigits(s, 0);
  }

  lemma {:induction false} DottedSearch(c: Config, elements: seq<nat>, name: string, i: nat)
    requires i <= |elements| && forall k | 0 <= k < |elements| :: elements[k] < |c|
    ensures Search(c, elements, Dotted(name), i) == Search(c, elements, name, i)
    decreases |elements| - i
  {
    hide Head, Dotted;
    DottedParts(name);
    if i < |elements| {
      DottedSearch(c, elements, name, i + 1);
    }
  }

  /** Colons, dots and slashes separate the steps of a path alike. */
  lemma {:induction false} SeparatorsAlike(c: Config, setting: nat, path: string)
    requires Linked(c) && setting < |c|
    ensures Lookup(c, setting, Dotted(path)) == Lookup(c, setting, path)
    decreases |path|
  {
    hide Index, Search, Tail;
    if |path| > 0 {
      assert Dotted(path)[1..] == Dotted(path[1..]);
      if IsPathToken(path[0]) {
        SeparatorsAlike(c, setting, path[1..]);
      } else {
        var rest := if path[0] == '[' then path[1..] else path;
        MemberDotted(c, setting, path);
        DottedIndex(rest);
        DottedParts(rest);
        var found := if path[0] == '[' then Element(c, setting, Index(rest)) else Member(c, setting, path);
        if found.Some? {
          TailShorter(path);
          FoundInside(c, setting, path, rest);
          SeparatorsAlike(c, found.value, Tail(rest));
        }
      }
    }
  }

  lemma MemberDotted(c: Config, setting: nat, path: string)
    requires Linked(c) && setting < |c|
    ensures Member(c, setting, Dotted(path)) == Member(c, setting, path)
  {
    hide Search, Dotted;
    DottedSearch(c, c[setting].elements, path, 0);
  }

  lemma TailShorter(path: string)
    requires |path| > 0 && !IsPathToken(path[0])
    ensures |Tail(if path[0] == '[' then path[1..] else path)| < |path|
  {
  }

  lemma FoundInside(c: Config, setting: nat, path: string, rest: string)
    requires Linked(c) && setting < |c| && |path| > 0
    ensures var found := if path[0] == '[' then Element(c, setting, Index(rest)) else Member(c, setting, path);
            found.Some? ==> found.value < |c|
  {
    hide Index, Search;
  }

  /** The lookup as it runs, with a cursor in the path. */
  method LookupSetting(c: Config, start: nat, path: string) returns (r: Option<nat>)
    requires Linked(c) && start < |c|
    ensures r == Lookup(c, start, path)
  {
    hide Member, Element, Index, Lookup, Tail;
    var setting: nat := start;
    var p := 0;
    while true
      invariant p <= |path| && setting < |c| && Lookup(c, start, path) == Lookup(c, setting, path[p..])
      decreases |path| - p
    {
      while p < |path| && IsPathToken(path[p])
        invariant p <= |path| && Lookup(c, start, path) == Lookup(c, setting, path[p..])
      {
        assert path[p..][1..] == path[p + 1..];
        SkipToken(c, setting, path[p..]);
        p := p + 1;
      }
      if p == |path| {
        NoPath(c, setting);
        return Some(setting);
      }
      ghost var here := path[p..];
      var found;
      if path[p] == '[' {
        p := p + 1;
        var idx := Atoi(path[p..]);
        found := Element(c, setting, idx);
        assert here[1..] == path[p..];
      } else {
        found := Member(c, setting, path[p..]);
      }
      if found.None? {
        LostIs(c, setting, here);
        return if p < |path| then None else Some(setting);
      }
      ghost var rest := path[p..];
      FoundIs(c, setting, here, found.value);
      setting := found.value;
      while p < |path| && !IsPathToken(path[p])
        invariant p <= |path| && Tail(rest) == Tail(path[p..])
        invariant |path| - p <= |rest|
        invariant path[p..] == rest || |path| - p < |rest|
      {
        assert path[p..][1..] == path[p + 1..];
        TailStep(path[p..]);
        p := p + 1;
      }
      TailStop(path[p..]);
      assert Tail(path[p..]) == path[p..];
    }
  }

  lemma NoPath(c: Config, s: nat)
    requires Linked(c) && s < |c|
    ensures Lookup(c, s, "") == Some(s)
  {
  }

  lemma SkipToken(c: Config, s: nat, path: string)
    requires Linked(c) && s < |c| && |path| > 0 && IsPathToken(path[0])
    ensures Lookup(c, s, path) == Lookup(c, s, path[1..])
  {
  }

  lemma LostIs(c: Config, setting: nat, path: string)
    requires Linked(c) && setting < |c| && |path| > 0 && !IsPathToken(path[0])
    requires (if path[0] == '[' then Element(c, setting, Index(path[1..])) else Member(c, setting, path)).None?
    ensures Lookup(c, setting, path) == if path == "[" then Some(setting) else None
  {
  }

  lemma TailStep(s: string)
    requires |s| > 0 && !IsPathToken(s[0])
    ensures Tail(s) == Tail(s[1..])
  {
  }

  lemma TailStop(s: string)
    requires |s| == 0 || IsPathToken(s[0])
    ensures Tail(s) == s
  {
  }

  lemma FoundIs(c: Config, setting: nat, path: string, found: nat)
    requires Linked(c) && setting < |c| && |path| > 0 && !IsPathToken(path[0])
    requires (if path[0] == '[' then Element(c, setting, Index(path[1..])) else Member(c, setting, path)) == Some(found)
    ensures found < |c| && Lookup(c, setting, path) == Lookup(c, found, Tail(if path[0] == '[' then path[1..] else path))
  {
  }

  // ---------- results lie below the start ----------

  /** `d` is `a` or lies below it. */
  predicate Descends(c: Config, a: nat, d: nat)
    requires Linked(c) && d < |c|
    decreases d
  {
    d == a || (d > 0 && Descends(c, a, c[d].parent.value))
  }

  lemma {:induction false} DescendsTransitive(c: Config, a: nat, b: nat, d: nat)
    requires Linked(c) && b < |c| && d < |c| && Descends(c, a, b) && Descends(c, b, d)
    ensures Descends(c, a, d)
    decreases d
  {
    if d != b {
      DescendsTransitive(c, a, b, c[d].parent.value);
    }
  }

  lemma StepDescends(c: Config, s: nat, k: nat)
    requires Linked(c) && s < |c| && k < |c[s].elements|
    ensures c[s].elements[k] < |c| && Descends(c, s, c[s].elements[k])
  {
    assert Descends(c, s, s);
  }

  /** Whatever a lookup finds is the start setting or lies below it. */
  lemma {:induction false} LookupDescends(c: Config, setting: nat, path: string)
    requires Linked(c) && setting < |c|
    ensures var r := Lookup(c, setting, path); r.Some? ==> Descends(c, setting, r.value)
    decreases |path|
  {
    hide Descends, Search, Index;
    SelfDescends(c, setting);
    if |path| == 0 {
    } else if IsPathToken(path[0]) {
      LookupDescends(c, setting, path[1..]);
    } else {
      var rest := if path[0] == '[' then path[1..] else path;
      var found := if path[0] == '[' then Element(c, setting, Index(rest)) else Member(c, setting, path);
      if found.Some? {
        var k := if path[0] == '[' then Index(rest) else Search(c, c[setting].elements, path, 0).value;
        StepDescends(c, setting, k);
        LookupDescends(c, found.value, Tail(rest));
        var r := Lookup(c, found.value, Tail(rest));
        if r.Some? {
          DescendsTransitive(c, setting, found.value, r.value);
        }
      }
    }
  }

  lemma SelfDescends(c: Config, s: nat)
    requires Linked(c) && s < |c|
    ensures Descends(c, s, s)
  {
  }

  // ---------- a lookup inverts the construction of a path ----------

  /** One step down: the position of the element, and whether the path names it. */
  datatype Step = Step(k: nat, named: bool)

  /** The setting that the steps lead to. */
  function Follow(c: Config, s: nat, steps: seq<Step>): (r: Option<nat>)
    requires Linked(c) && s < |c|
    ensures r.Some? ==> r.value < |c|
    decreases |steps|
  {
    if |steps| == 0 then Some(s)
    else if !IsAggregate(c[s].kind) || steps[0].k >= |c[s].elements| then None
    else if steps[0].named && c[s].kind != GroupT then None
    else Follow(c, c[s].elements[steps[0].k], steps[1..])
  }

  function StepText(c: Config, s: nat, step: Step): string
    requires Linked(c) && s < |c| && step.k < |c[s].elements|
  {
    var name := c[c[s].elements[step.k]].name;
    if step.named && name.Some? then name.value else "[" + (Digits(step.k, 10) + "]")
  }

  /** Member names and `[i]` steps, joined by dots. */
  function PathText(c: Config, s: nat, steps: seq<Step>): string
    requires Linked(c) && s < |c| && Follow(c, s, steps).Some?
    decreases |steps|
  {
    if |steps| == 0 then ""
    else
      var more := PathText(c, c[s].elements[steps[0].k], steps[1..]);
      StepText(c, s, steps[0]) + (if |steps| == 1 then "" else "." + more)
  }

  /** Groups hold valid, pairwise different names, and no setting has more elements
      than an `int` can count. */
  predicate WellNamed(c: Config)
    requires Linked(c)
  {
    forall i | 0 <= i < |c| ::
      |c[i].elements| <= TWO31
      && (c[i].kind == GroupT ==>
            (forall k | 0 <= k < |c[i].elements| :: c[c[i].elements[k]].name.Some? && ValidName(c[c[i].elements[k]].name.value))
            && forall j, k | 0 <= j < k < |c[i].elements| :: c[c[i].elements[j]].name != c[c[i].elements[k]].name)
  }

  predicate AtEnd(rest: string) {
    |rest| == 0 || rest[0] == '.'
  }

  lemma {:induction false} HeadOf(name: string, rest: string)
    requires (forall k | 0 <= k < |name| :: NameChar(name[k])) && AtEnd(rest)
    ensures Head(name + rest) == name && Tail(name + rest) == rest
    decreases name
  {
    if |name| == 0 {
      assert name + rest == rest;
    } else {
      HeadOf(name[1..], rest);
      var s := name + rest;
      assert s[0] == name[0] && NameChar(name[0]) && s[1..] == name[1..] + rest;
      assert [name[0]] + name[1..] == name;
    }
  }

  lemma ValidChars(name: string)
    requires ValidName(name)
    ensures |name| > 0 && name[0] != '[' && !IsPathToken(name[0])
    ensures forall k | 0 <= k < |name| :: NameChar(name[k])
  {
  }

  /** The search stops at the one element of that name. */
  lemma {:induction false} SearchFinds(c: Config, s: nat, path: string, k: nat, i: nat)
    requires Linked(c) && WellNamed(c) && s < |c| && c[s].kind == GroupT && i <= k < |c[s].elements|
    requires Some(Head(path)) == c[c[s].elements[k]].name
    ensures Search(c, c[s].elements, path, i) == Some(k)
    decreases k - i
  {
    var e := c[s].elements;
    var name := c[e[i]].name.value;
    ValidChars(name);
    ValidNameIsHead(name);
    if i < k {
      assert c[e[i]].name != c[e[k]].name;
      SearchFinds(c, s, path, k, i + 1);
    }
  }

  lemma NamedStep(c: Config, s: nat, k: nat, rest: string)
    requires Linked(c) && WellNamed(c) && s < |c| && c[s].kind == GroupT && k < |c[s].elements| && AtEnd(rest)
    ensures c[c[s].elements[k]].name.Some?
    ensures Lookup(c, s, c[c[s].elements[k]].name.value + rest) == Lookup(c, c[s].elements[k], rest)
  {
    hide Search, Head, Tail, ValidName;
    var name := c[c[s].elements[k]].name.value;
    ValidChars(name);
    HeadOf(name, rest);
    SearchFinds(c, s, name + rest, k, 0);
    FoundIs(c, s, name + rest, c[s].elements[k]);
  }

  lemma {:induction false} DigitsTail(n: nat, rest: string)
    ensures Tail(Digits(n, 10) + rest) == Tail(rest)
    decreases n
  {
    hide DigitChar, Digits, Tail;
    DigitsSplit(n, 10);
    var last := [DigitChar(n % 10)] + rest;
    DigitTail(n % 10, rest);
    if n < 10 {
      assert Digits(n, 10) + rest == last;
    } else {
      DigitsTail(n / 10, last);
      assert Digits(n, 10) + rest == Digits(n / 10, 10) + last;
    }
  }

  lemma DigitTail(d: nat, rest: string)
    requires d < 10
    ensures Tail([DigitChar(d)] + rest) == Tail(rest)
  {
    assert ([DigitChar(d)] + rest)[1..] == rest;
  }

  lemma IndexBack(k: nat, rest: string)
    requires k < TWO31 && |rest| > 0 && DigitValue(rest[0], 10) < 0
    ensures Index(Digits(k, 10) + rest) == k
  {
    hide Digits, ReadDigits;
    DigitsBack(k, 10, rest);
    DigitStop(rest, k);
    var c := (Digits(k, 10) + rest)[0];
    assert c == Digits(k, 10)[0] && DigitValue(c, 10) >= 0;
  }

  lemma IndexStep(c: Config, s: nat, k: nat, rest: string)
    requires Linked(c) && WellNamed(c) && s < |c| && IsAggregate(c[s].kind) && k < |c[s].elements| && AtEnd(rest)
    ensures Lookup(c, s, ("[" + (Digits(k, 10) + "]")) + rest) == Lookup(c, c[s].elements[k], rest)
  {
    hide Index, Digits, Tail, WellNamed;
    assert k < TWO31 by { FewElements(c, s); }
    var close := "]" + rest;
    var path := ("[" + (Digits(k, 10) + "]")) + rest;
    assert path[0] == '[' && path[1..] == Digits(k, 10) + close;
    IndexBack(k, close);
    DigitsTail(k, close);
    BracketTail(rest);
    FoundIs(c, s, path, c[s].elements[k]);
  }

  lemma FewElements(c: Config, s: nat)
    requires Linked(c) && WellNamed(c) && s < |c|
    ensures |c[s].elements| <= TWO31
  {
  }

  lemma BracketTail(rest: string)
    requires AtEnd(rest)
    ensures Tail("]" + rest) == rest
  {
    assert ("]" + rest)[1..] == rest;
  }

  lemma DotStep(c: Config, s: nat, rest: string)
    requires Linked(c) && s < |c|
    ensures Lookup(c, s, "." + rest) == Lookup(c, s, rest)
  {
    assert ("." + rest)[1..] == rest;
  }

  /** The path of a setting finds exactly that setting. */
  lemma {:induction false} LookupFinds(c: Config, s: nat, steps: seq<Step>)
    requires Linked(c) && WellNamed(c) && s < |c| && Follow(c, s, steps).Some?
    ensures Lookup(c, s, PathText(c, s, steps)) == Follow(c, s, steps)
    decreases |steps|
  {
    hide WellNamed, Lookup, Digits;
    if |steps| == 0 {
      NoPath(c, s);
    } else {
      var child := c[s].elements[steps[0].k];
      var more := PathText(c, child, steps[1..]);
      var rest := if |steps| == 1 then "" else "." + more;
      LookupFinds(c, child, steps[1..]);
      if |steps| == 1 {
        assert more == "";
      } else {
        DotStep(c, child, more);
      }
      if steps[0].named {
        NamedStep(c, s, steps[0].k, rest);
      } else {
        IndexStep(c, s, steps[0].k, rest);
      }
    }
  }

  // ---------- a failed step at the end of a path ----------

  /** The lookup that answers nothing whenever a step fails. */
  function Strict(c: Config, setting: nat, path: string): (r: Option<nat>)
    requires Linked(c) && setting < |c|
    ensures r.Some? ==> r.value < |c|
    decreases |path|
  {
    if |path| == 0 then Some(setting)
    else if IsPathToken(path[0]) then Strict(c, setting, path[1..])
    else
      var rest := if path[0] == '[' then path[1..] else path;
      var found := if path[0] == '[' then Element(c, setting, Index(rest)) else Member(c, setting, path);
      if found.None? then None else Strict(c, found.value, Tail(rest))
  }

  /** The last step of a path is a bracket and nothing else. */
  predicate EndsBare(path: string) {
    var n := |path|;
    n > 0 && path[n - 1] == '[' && (n > 1 ==> IsPathToken(path[n - 2]))
  }

  /** The path ends in a bare bracket, on a setting without elements. */
  predicate Dangles(c: Config, setting: nat, path: string)
    requires Linked(c) && setting < |c|
  {
    EndsBare(path)
    && var at := Strict(c, setting, path[..|path| - 1]); at.Some? && Element(c, at.value, 0).None?
  }

  /** A string that ends with a path token, and a bracket behind it. */
  lemma {:induction false} BareTail(front: string)
    requires |front| > 0 && IsPathToken(front[|front| - 1])
    ensures Head(front + "[") == Head(front) && Tail(front + "[") == Tail(front) + "["
    ensures |Tail(front)| > 0 && IsPathToken(Tail(front)[|Tail(front)| - 1])
    decreases |front|
  {
    assert (front + "[")[0] == front[0];
    if !IsPathToken(front[0]) {
      assert (front + "[")[1..] == front[1..] + "[";
      BareTail(front[1..]);
    }
  }

  lemma {:induction false} BareDigits(s: string, acc: nat)
    ensures ReadDigits(s + "[", 10, acc).0 == ReadDigits(s, 10, acc).0
    decreases |s|
  {
    hide DigitValue;
    NoDigit();
    if |s| > 0 {
      assert (s + "[")[0] == s[0] && (s + "[")[1..] == s[1..] + "[";
      if DigitValue(s[0], 10) >= 0 {
        BareDigits(s[1..], acc * 10 + DigitValue(s[0], 10));
      }
    }
  }

  lemma NoDigit()
    ensures DigitValue('[', 10) < 0
  {
  }

  /** A bracket is no part of a number. */
  lemma {:induction false} BareIndex(s: string)
    ensures Index(s + "[") == Index(s)
    decreases |s|
  {
    hide ReadDigits, Wrap;
    BareDigits(s, 0);
    if |s| > 0 {
      assert (s + "[")[0] == s[0] && (s + "[")[1..] == s[1..] + "[";
      BareIndex(s[1..]);
      BareDigits(s[1..], 0);
    }
  }

  lemma {:induction false} HeadSearches(c: Config, elements: seq<nat>, a: string, b: string, i: nat)
    requires i <= |elements| && (forall k | 0 <= k < |elements| :: elements[k] < |c|) && Head(a) == Head(b)
    ensures Search(c, elements, a, i) == Search(c, elements, b, i)
    decreases |elements| - i
  {
    hide Head;
    if i < |elements| {
      HeadSearches(c, elements, a, b, i + 1);
    }
  }

  /** What the first step of a path finds. */
  function Found(c: Config, setting: nat, path: string): (r: Option<nat>)
    requires Linked(c) && setting < |c| && |path| > 0
    ensures r.Some? ==> r.value < |c|
  {
    if path[0] == '[' then Element(c, setting, Index(path[1..])) else Member(c, setting, path)
  }

  /** The path behind its first step. */
  function Behind(path: string): (r: string)
    requires |path| > 0 && !IsPathToken(path[0])
    ensures |r| < |path|
  {
    Tail(if path[0] == '[' then path[1..] else path)
  }

  lemma StrictStep(c: Config, s: nat, path: string)
    requires Linked(c) && s < |c| && |path| > 0 && !IsPathToken(path[0])
    ensures Strict(c, s, path) == if Found(c, s, path).None? then None else Strict(c, Found(c, s, path).value, Behind(path))
  {
  }

  lemma LookupStep(c: Config, s: nat, path: string)
    requires Linked(c) && s < |c| && |path| > 0 && !IsPathToken(path[0])
    ensures Lookup(c, s, path) ==
            if Found(c, s, path).None? then (if path == "[" then Some(s) else None) else Lookup(c, Found(c, s, path).value, Behind(path))
  {
  }

  /** A bare bracket at the end does not change the first step of what is in front of it. */
  lemma BareStep(c: Config, s: nat, front: string)
    requires Linked(c) && s < |c| && |front| > 1 && !IsPathToken(front[0]) && IsPathToken(front[|front| - 1])
    ensures Found(c, s, front + "[") == Found(c, s, front) && Behind(front + "[") == Behind(front) + "["
    ensures |Behind(front)| > 0 && IsPathToken(Behind(front)[|Behind(front)| - 1])
  {
    hide Index, Head, Tail;
    assert (front + "[")[0] == front[0];
    if front[0] == '[' {
      assert (front + "[")[1..] == front[1..] + "[";
      BareIndex(front[1..]);
      BareTail(front[1..]);
    } else {
      BareTail(front);
      HeadSearches(c, c[s].elements, front + "[", front, 0);
    }
  }

  lemma {:induction false} TailEnds(s: string)
    ensures |Tail(s)| <= |s| && Tail(s) == s[|s| - |Tail(s)|..] && (|Tail(s)| > 0 ==> IsPathToken(Tail(s)[0]))
    decreases |s|
  {
    if |s| > 0 && !IsPathToken(s[0]) {
      TailEnds(s[1..]);
    }
  }

  /** Behind the first step, a path ends as before. */
  lemma BehindEnds(path: string)
    requires |path| > 0 && !IsPathToken(path[0])
    ensures EndsBare(Behind(path)) ==> |path| > 1 && EndsBare(path)
  {
    hide Tail;
    var rest := if path[0] == '[' then path[1..] else path;
    TailEnds(rest);
    var n, m := |path|, |Behind(path)|;
    if EndsBare(Behind(path)) {
      assert m > 1;
      assert Behind(path)[m - 1] == path[n - 1] && Behind(path)[m - 2] == path[n - 2];
    }
  }

  lemma DanglesSkips(c: Config, s: nat, path: string)
    requires Linked(c) && s < |c| && |path| > 0 && IsPathToken(path[0])
    ensures Dangles(c, s, path) <==> Dangles(c, s, path[1..])
  {
    var n := |path|;
    if n > 1 {
      var front := path[..n - 1];
      assert front[0] == path[0] && front[1..] == path[1..][..n - 2];
      assert Strict(c, s, front) == Strict(c, s, front[1..]);
      assert n > 2 ==> path[1..][n - 3] == path[n - 2];
    }
  }

  lemma DanglesAlone(c: Config, s: nat)
    requires Linked(c) && s < |c|
    ensures Dangles(c, s, "[") <==> Found(c, s, "[").None?
  {
    assert "["[..0] == "" && "["[1..] == "";
    assert Index("") == 0 by { DigitStop("", 0); }
  }

  lemma DanglesStep(c: Config, s: nat, path: string)
    requires Linked(c) && s < |c| && |path| > 1 && !IsPathToken(path[0])
    ensures Dangles(c, s, path) <==> Found(c, s, path).Some? && Dangles(c, Found(c, s, path).value, Behind(path))
  {
    hide Found, Behind, Strict;
    var n := |path|;
    if EndsBare(path) {
      var front := path[..n - 1];
      assert path == front + "[";
      BareStep(c, s, front);
      StrictStep(c, s, front);
      var more := Behind(front);
      assert (more + "[")[..|more|] == more && (more + "[")[|more| - 1] == more[|more| - 1];
    } else {
      BehindEnds(path);
    }
  }

  /** A failed step goes unnoticed exactly where the path ends in a bare bracket, on a
      setting without elements: there the setting reached so far is the answer. */
  lemma {:induction false} StrictExactly(c: Config, s: nat, path: string)
    requires Linked(c) && s < |c|
    ensures Lookup(c, s, path) == Strict(c, s, path) <==> !Dangles(c, s, path)
    decreases |path|
  {
    hide Found, Behind, Dangles;
    if |path| == 0 {
      NotDangling(c, s);
    } else if IsPathToken(path[0]) {
      DanglesSkips(c, s, path);
      StrictExactly(c, s, path[1..]);
    } else {
      hide Lookup, Strict;
      LookupStep(c, s, path);
      StrictStep(c, s, path);
      if |path| > 1 {
        DanglesStep(c, s, path);
      } else {
        SingleStep(c, s, path);
      }
      if Found(c, s, path).Some? {
        StrictExactly(c, Found(c, s, path).value, Behind(path));
      }
    }
  }

  lemma NotDangling(c: Config, s: nat)
    requires Linked(c) && s < |c|
    ensures !Dangles(c, s, "")
  {
  }

  lemma SingleStep(c: Config, s: nat, path: string)
    requires Linked(c) && s < |c| && |path| == 1 && !IsPathToken(path[0])
    ensures |Behind(path)| == 0 && Behind(path) == ""
    ensures Dangles(c, s, path) <==> path == "[" && Found(c, s, path).None?
    ensures !Dangles(c, s, "")
  {
    if path[0] == '[' {
      assert path == "[";
      DanglesAlone(c, s);
    } else {
      assert path[1..] == "";
    }
  }

  /** An opening bracket alone leads to the first element, and to the setting itself
      where there is none: a failed step at the very end of a path goes unnoticed. */
  lemma BareBracket(c: Config, s: nat)
    requires Linked(c) && s < |c|
    ensures Lookup(c, s, "[") == Some(if Element(c, s, 0).Some? then Element(c, s, 0).value else s)
  {
    assert "["[1..] == "";
    assert Index("") == 0 by { DigitStop("", 0); }
    assert Tail("") == "";
  }
}
