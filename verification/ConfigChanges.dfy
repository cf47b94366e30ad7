/** What a change does, as the functions that read the tree see it. */
module ConfigChanges {
  import opened ConfigTree
  import opened ConfigSafety
  import opened ConfigRuns
  import Integers
  import opened Optional

  // ---------- reading ----------

  /** A setting that was never given a value holds zero. */
  function WholeOf(value: Scalar): int {
    if value.Whole? then value.n else 0
  }

  /** `__config_setting_get_int` without automatic conversion: a 64-bit integer that does
      not fit reads as zero. */
  function GetInt(s: Setting): Option<int> {
    if s.kind == IntT then Some(WholeOf(s.value))
    else if s.kind == Int64T then Some(if -Integers.TWO31 <= WholeOf(s.value) < Integers.TWO31 then WholeOf(s.value) else 0)
    else None
  }

  /** `__config_setting_get_int64` */
  function GetInt64(s: Setting): Option<int> {
    if s.kind == Int64T || s.kind == IntT then Some(WholeOf(s.value)) else None
  }

  /** `config_setting_lookup_bool` on the setting found */
  function GetBool(s: Setting): Option<int> {
    if s.kind == BoolT then Some(WholeOf(s.value)) else None
  }

  /** `config_setting_get_string` */
  function GetString(s: Setting): Option<string> {
    if s.kind == StringT && s.value.Text? then Some(s.value.s) else None
  }

  /** `__config_setting_get_float` */
  function GetFloat(s: Setting): Option<real> {
    if s.kind == FloatT then Some(if s.value.Real? then s.value.r else 0.0) else None
  }

  /** What the functions for a type take: a null string is no value. */
  predicate OfType(kind: Kind, value: Scalar) {
    match kind
    case IntT => value.Whole? && -Integers.TWO31 <= value.n < Integers.TWO31
    case Int64T => value.Whole?
    case BoolT => value.Whole?
    case FloatT => value.Real?
    case StringT => value.Text? || value.Unset?
    case _ => false
  }

  /** The value is read back, by the function for its type. */
  predicate Reads(s: Setting, kind: Kind, value: Scalar)
    requires OfType(kind, value)
  {
    match kind
    case IntT => GetInt(s) == Some(value.n)
    case Int64T => GetInt64(s) == Some(value.n)
    case BoolT => GetBool(s) == Some(value.n)
    case FloatT => GetFloat(s) == Some(value.r)
    case StringT => GetString(s) == if value.Text? then Some(value.s) else None
  }

  /** Only this setting is different. */
  predicate OnlyChanges(c: Config, r: Config, id: nat) {
    id < |c| <= |r| && forall j | 0 <= j < |c| && j != id :: r[j] == c[j]
  }

  // ---------- setting ----------

  /** A setting can be set if and only if it has no type yet, or that of the value, or is
      a 32-bit integer and the value a 64-bit one. The value just set is read back, except
      that a 64-bit one that does not fit reads as zero; the name, the place and every other
      setting stay as they are. */
  lemma SetReads(c: Config, id: nat, kind: Kind, value: Scalar)
    requires id < |c| && OfType(kind, value)
    ensures var own, r := c[id].kind, Set(c, id, kind, value);
            (r.Some? <==> own == NoneT || own == kind || (own == IntT && kind == Int64T))
            && (r.Some? ==>
                  |r.value| == |c| && OnlyChanges(c, r.value, id)
                  && var s := r.value[id];
                     s.(kind := own, value := c[id].value) == c[id] && s.kind == (if own == NoneT then kind else own)
                     && if own == IntT && kind == Int64T && !(-Integers.TWO31 <= value.n < Integers.TWO31) then GetInt(s) == Some(0)
                        else Reads(s, kind, value))
  {
  }

  // ---------- finding in a group ----------

  /** The elements of a group have different names without path tokens. */
  lemma OneMatch(c: Config, p: nat, name: string, i: nat, j: nat)
    requires AllProper(c) && p < |c| && c[p].kind == GroupT && i < |c[p].elements| && j < |c[p].elements|
    ensures c[c[p].elements[i]].name.Some? && c[c[p].elements[j]].name.Some?
    ensures SameName(name, c[c[p].elements[i]].name.value) && SameName(name, c[c[p].elements[j]].name.value) ==> i == j
  {
    hide ValidName, Head;
    assert ProperSetting(c, p);
    var a, b := c[c[p].elements[i]].name.value, c[c[p].elements[j]].name.value;
    ValidHead(a);
    ValidHead(b);
  }

  lemma ValidHead(name: string)
    requires ValidName(name)
    ensures Head(name) == name
  {
    ValidNameIsHead(name);
  }

  /** What is found is the one element of that name. */
  lemma FoundIs(c: Config, p: nat, name: string, k: nat)
    requires AllProper(c) && p < |c| && c[p].kind == GroupT && k < |c[p].elements|
    ensures c[c[p].elements[k]].name.Some?
    ensures SameName(name, c[c[p].elements[k]].name.value) ==> Search(c, c[p].elements, name, 0) == Some(k)
  {
    hide AllProper, Search, SameName;
    ProperIsLinked(c);
    OneMatch(c, p, name, k, k);
    var at := Search(c, c[p].elements, name, 0);
    if at.Some? {
      OneMatch(c, p, name, k, at.value);
    }
  }

  // ---------- removing ----------

  /** The elements other than `id`. */
  function Except(elements: seq<nat>, id: nat): seq<nat> {
    if |elements| == 0 then []
    else (if elements[0] == id then [] else [elements[0]]) + Except(elements[1..], id)
  }

  lemma {:induction false} ExceptNone(elements: seq<nat>, id: nat)
    requires id !in elements
    ensures Except(elements, id) == elements
    decreases elements
  {
    if |elements| > 0 {
      ExceptNone(elements[1..], id);
    }
  }

  lemma {:induction false} ExceptAt(elements: seq<nat>, k: nat)
    requires k < |elements| && forall j | 0 <= j < |elements| && j != k :: elements[j] != elements[k]
    ensures Except(elements, elements[k]) == elements[..k] + elements[k + 1..]
    decreases elements
  {
    var more := elements[1..];
    if k == 0 {
      ExceptNone(more, elements[0]);
    } else {
      ExceptAt(more, k - 1);
      assert elements[..k] == [elements[0]] + more[..k - 1] && elements[k + 1..] == more[k..];
    }
  }

  lemma ElementsDiffer(c: Config, p: nat, k: nat)
    requires AllProper(c) && p < |c| && c[p].kind == GroupT && k < |c[p].elements|
    ensures forall j | 0 <= j < |c[p].elements| && j != k :: c[p].elements[j] != c[p].elements[k]
  {
    hide ValidName;
    assert ProperSetting(c, p);
    var e := c[p].elements;
    forall j | 0 <= j < |e| && j != k ensures e[j] != e[k] {
      assert c[e[if j < k then j else k]].name != c[e[if j < k then k else j]].name;
    }
  }

  lemma ElementsWithout(c: Config, p: nat, k: nat)
    requires p < |c| && k < |c[p].elements|
    ensures var e, d := c[p].elements, Without(c, p, k)[p].elements;
            |d| == |e| - 1 && (forall j | 0 <= j < |d| :: d[j] == e[if j < k then j else j + 1])
            && forall i | 0 <= i < |e| && i != k :: e[i] == d[if i < k then i else i - 1]
  {
  }

  /** Searching without one element: what has another name is found as before. */
  lemma SearchWithout(c: Config, r: Config, p: nat, k: nat, other: string)
    requires AllProper(c) && AllProper(r) && p < |c| == |r| && c[p].kind == GroupT && k < |c[p].elements|
    requires r == Without(c, p, k)
    ensures c[c[p].elements[k]].name.Some?
    ensures SameName(other, c[c[p].elements[k]].name.value) ==> Member(r, p, other) == None
    ensures !SameName(other, c[c[p].elements[k]].name.value) ==> Member(r, p, other) == Member(c, p, other)
  {
    hide AllProper, SameName, Search;
    ProperIsLinked(c);
    ProperIsLinked(r);
    OneMatch(c, p, other, k, k);
    var e, d := c[p].elements, r[p].elements;
    ElementsWithout(c, p, k);
    assert forall j | 0 <= j < |c| :: r[j].name == c[j].name;
    var was, now := Search(c, e, other, 0), Search(r, d, other, 0);
    if now.Some? {
      var i := if now.value < k then now.value else now.value + 1;
      FoundIs(c, p, other, i);
      FoundIs(c, p, other, k);
    }
  }

  /** `config_setting_remove` fails if and only if there is no such member. Afterwards the
      name is not found, every other name is found as before, the other elements keep their
      order, and no other setting has changed. */
  lemma RemoveReads(c: Config, p: nat, name: string)
    requires AllProper(c) && Linked(c) && p < |c|
    ensures var r, m := Remove(c, p, name), Member(c, p, name);
            (r.Some? <==> m.Some?)
            && (r.Some? ==>
                  |r.value| == |c| && Member(r.value, p, name) == None
                  && (forall other :: !SameName(other, name) ==> Member(r.value, p, other) == Member(c, p, other))
                  && r.value[p] == c[p].(elements := Except(c[p].elements, m.value)) && OnlyChanges(c, r.value, p))
  {
    hide AllProper, SameName, Search;
    var m := Member(c, p, name);
    if m.Some? {
      var k := Search(c, c[p].elements, name, 0).value;
      var r := Without(c, p, k);
      WithoutProper(c, p, k);
      ProperIsLinked(r);
      ElementsDiffer(c, p, k);
      ExceptAt(c[p].elements, k);
      var found := c[c[p].elements[k]].name.value;
      SearchWithout(c, r, p, k, name);
      forall other | !SameName(other, name) ensures Member(r, p, other) == Member(c, p, other) {
        SearchWithout(c, r, p, k, other);
        NamesChain(other, name, found);
      }
    }
  }

  lemma NamesChain(a: string, b: string, c: string)
    requires SameName(b, c)
    ensures SameName(a, c) <==> SameName(a, b)
  {
  }

  /** `config_setting_remove_elem` fails if and only if there is no such element; the ones
      behind it move up by one, and nothing else changes. */
  lemma RemoveElementReads(c: Config, p: nat, idx: nat)
    requires Linked(c) && p < |c|
    ensures var r := RemoveElement(c, p, idx);
            (r.Some? <==> Element(c, p, idx).Some?)
            && (r.Some? ==>
                  |r.value| == |c| && OnlyChanges(c, r.value, p) && r.value[p].(elements := c[p].elements) == c[p]
                  && forall j: nat :: Element(r.value, p, j) == Element(c, p, if j < idx then j else j + 1))
  {
    hide Linked;
  }

  // ---------- adding ----------

  /** `config_setting_add` fails if and only if the parent holds no settings, or the name in
      a group is not valid or taken. The new setting is the last element, a group finds it
      under its name and all others as before, and nothing else changes. */
  lemma AddReads(c: Config, p: nat, name: Option<string>, kind: Kind)
    requires AllProper(c) && Linked(c) && p < |c| && (name.Some? || c[p].kind != GroupT)
    ensures var r, n, last := Add(c, p, name, kind), |c|, |c[p].elements|;
            (r.Some? <==> c[p].kind == ArrayT || c[p].kind == ListT
                          || (c[p].kind == GroupT && ValidName(name.value) && Member(c, p, name.value) == None))
            && (r.Some? ==>
                  |r.value| == n + 1 && OnlyChanges(c, r.value, p) && r.value[p].(elements := c[p].elements) == c[p]
                  && r.value[n] == Setting(if c[p].kind == GroupT then name else None, kind, DefaultFormat, Unset, [], Some(p))
                  && (forall j: nat :: Element(r.value, p, j) == if j == last then Some(n) else Element(c, p, j))
                  && (c[p].kind == GroupT ==>
                        Member(r.value, p, name.value) == Some(n)
                        && forall other :: !SameName(other, name.value) ==> Member(r.value, p, other) == Member(c, p, other)))
  {
    hide AllProper, SameName, Search, ValidName;
    var r := Add(c, p, name, kind);
    if r.Some? && c[p].kind == GroupT {
      AddProper(c, p, name, kind);
      ProperIsLinked(r.value);
      forall other ensures Member(r.value, p, other) == if SameName(other, name.value) then Some(|c|) else Member(c, p, other) {
        SearchWith(c, r.value, p, other, name.value);
      }
      SameAsItself(name.value);
    }
  }

  lemma SameAsItself(name: string)
    ensures SameName(name, name)
  {
  }

  /** Searching with one element more. */
  lemma SearchWith(c: Config, r: Config, p: nat, other: string, name: string)
    requires AllProper(c) && AllProper(r) && p < |c| && |r| == |c| + 1 && c[p].kind == GroupT
    requires r[p] == c[p].(elements := c[p].elements + [|c|]) && OnlyChanges(c, r, p) && r[|c|].name == Some(name)
    ensures Member(r, p, other) == if SameName(other, name) then Some(|c|) else Member(c, p, other)
  {
    hide AllProper, SameName, Search;
    ProperIsLinked(c);
    ProperIsLinked(r);
    var e, d := c[p].elements, r[p].elements;
    assert forall j | 0 <= j < |e| :: d[j] == e[j] && r[d[j]].name == c[e[j]].name;
    FoundIs(r, p, other, |e|);
    var was, now := Search(c, e, other, 0), Search(r, d, other, 0);
    if !SameName(other, name) {
      if was.Some? {
        FoundIs(r, p, other, was.value);
      }
    }
  }

  /** `config_setting_set_..._elem` with a negative index fails if and only if there is no
      array or list, or the array is of another type. The new element is the last one, its
      value is read back, and nothing else changes. */
  lemma AppendReads(c: Config, v: nat, kind: Kind, value: Scalar, format: Format)
    requires Linked(c) && v < |c| && OfType(kind, value)
    ensures var r, n, last := Append(c, v, kind, value, format), |c|, |c[v].elements|;
            (r.Some? <==> c[v].kind == ListT || (c[v].kind == ArrayT && (last == 0 || c[c[v].elements[0]].kind == kind)))
            && (r.Some? ==>
                  |r.value| == n + 1 && OnlyChanges(c, r.value, v) && r.value[v].(elements := c[v].elements) == c[v]
                  && (forall j: nat :: Element(r.value, v, j) == if j == last then Some(n) else Element(c, v, j))
                  && r.value[n].name == None && r.value[n].kind == kind && Reads(r.value[n], kind, value)
                  && (kind == IntT || kind == Int64T ==> r.value[n].format == format))
  {
    hide Append, Linked;
    AppendedValue(c, v, kind, value, format);
    if Append(c, v, kind, value, format).Some? {
      AppendIs(c, v, kind, value, format);
    }
  }

  lemma AppendedValue(c: Config, v: nat, kind: Kind, value: Scalar, format: Format)
    requires Linked(c) && v < |c|
    ensures var r := Append(c, v, kind, value, format);
            (r.Some? <==> c[v].kind == ListT || (c[v].kind == ArrayT && (|c[v].elements| == 0 || c[c[v].elements[0]].kind == kind)))
            && (r.Some? ==> r.value[|c|].value == value && (kind == IntT || kind == Int64T ==> r.value[|c|].format == format))
  {
    if c[v].kind == ArrayT || c[v].kind == ListT {
      CreateLinked(c, v, None, kind);
    }
  }
}
