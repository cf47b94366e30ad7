/** The settings tree of libconfig: creating, adding, finding and setting.

    Settings live in one sequence and point to each other by index; the root is
    setting 0. */
module ConfigTree {

  import opened Optional

  /** The setting types, `CONFIG_TYPE_NONE` to `CONFIG_TYPE_LIST`. */
  datatype Kind = NoneT | GroupT | IntT | Int64T | FloatT | StringT | BoolT | ArrayT | ListT

  datatype Format = DefaultFormat | HexFormat

  datatype Scalar = Unset | Whole(n: int) | Real(r: real) | Text(s: string)

  datatype Setting = Setting(
    name: Option<string>, kind: Kind, format: Format, value: Scalar, elements: seq<nat>, parent: Option<nat>)

  type Config = seq<Setting>

  predicate IsAggregate(kind: Kind) {
    kind == GroupT || kind == ArrayT || kind == ListT
  }

  /** `config_init`: a root group without settings. */
  const INITIAL: Config := [Setting(None, GroupT, DefaultFormat, Unset, [], None)]

  // ---------- names ----------

  predicate IsAlpha(c: char) {
    'a' <= c <= 'z' || 'A' <= c <= 'Z'
  }

  predicate NameChar(c: char) {
    IsAlpha(c) || '0' <= c <= '9' || c in "*_-"
  }

  /** `__config_validate_name` */
  predicate ValidName(name: string) {
    |name| > 0 && (IsAlpha(name[0]) || name[0] == '*') && forall k | 0 < k < |name| :: NameChar(name[k])
  }

  /** A name is made of letters, digits, stars, underscores and hyphens, and starts with a
      letter or a star. */
  lemma NameCharacters(name: string)
    ensures ValidName(name) <==>
              |name| > 0
              && (forall k | 0 <= k < |name| ::
                    var c := name[k] as int;
                    65 <= c <= 90 || 97 <= c <= 122 || 48 <= c <= 57 || c == 42 || c == 95 || c == 45)
              && !(48 <= name[0] as int <= 57) && name[0] != '_' && name[0] != '-'
  {
    if |name| > 0 {
      assert IsAlpha(name[0]) || name[0] == '*' ==> NameChar(name[0]);
    }
  }

  predicate IsPathToken(c: char) {
    c in ":./"
  }

  /** The part of a path or name before the next path token. */
  function Head(s: string): (r: string) {
    if |s| == 0 || IsPathToken(s[0]) then "" else [s[0]] + Head(s[1..])
  }

  /** `__config_name_compare` finds no difference. */
  predicate SameName(a: string, b: string) {
    Head(a) == Head(b)
  }

  lemma {:induction false} ValidNameIsHead(name: string)
    requires forall k | 0 <= k < |name| :: NameChar(name[k])
    ensures Head(name) == name
  {
    if |name| > 0 {
      assert NameChar(name[0]);
      ValidNameIsHead(name[1..]);
    }
  }

  /** The comparison as it runs: negative, zero or positive, like `strcmp` on the parts before a path token. */
  method NameCompare(a: string, b: string) returns (r: int)
    ensures r == 0 <==> SameName(a, b)
  {
    var i := 0;
    while true
      invariant 0 <= i <= |a| && i <= |b|
      invariant SameName(a, b) <==> SameName(a[i..], b[i..])
      decreases |a| - i
    {
      var pd := i == |a| || IsPathToken(a[i]);
      var qd := i == |b| || IsPathToken(b[i]);
      if pd && qd { return 0; }
      if pd { return -1; }
      if qd { return 1; }
      HeadStep(a[i..], b[i..]);
      if a[i] < b[i] { return -1; }
      if a[i] > b[i] { return 1; }
      assert a[i..][1..] == a[i + 1..] && b[i..][1..] == b[i + 1..];
      i := i + 1;
    }
  }

  lemma HeadStep(a: string, b: string)
    requires |a| > 0 && |b| > 0 && !IsPathToken(a[0]) && !IsPathToken(b[0])
    ensures SameName(a, b) <==> a[0] == b[0] && SameName(a[1..], b[1..])
  {
    assert Head(a) == [a[0]] + Head(a[1..]) && Head(b) == [b[0]] + Head(b[1..]);
    assert Head(a)[1..] == Head(a[1..]) && Head(b)[1..] == Head(b[1..]);
  }

  // ---------- finding ----------

  /** `__config_list_search`: the position of the first element of that name from `i` on. */
  function Search(c: Config, elements: seq<nat>, name: string, i: nat): (r: Option<nat>)
    requires i <= |elements| && forall k | 0 <= k < |elements| :: elements[k] < |c|
    ensures r.Some? ==> i <= r.value < |elements|
    ensures r.Some? ==> c[elements[r.value]].name.Some? && SameName(name, c[elements[r.value]].name.value)
    ensures forall k | i <= k < (if r.Some? then r.value else |elements|) ::
              c[elements[k]].name.Some? ==> !SameName(name, c[elements[k]].name.value)
    decreases |elements| - i
  {
    if i == |elements| then None
    else if c[elements[i]].name.Some? && SameName(name, c[elements[i]].name.value) then Some(i)
    else Search(c, elements, name, i + 1)
  }

  /** `config_setting_get_member` */
  function Member(c: Config, parent: nat, name: string): (r: Option<nat>)
    requires parent < |c| && forall k | 0 <= k < |c[parent].elements| :: c[parent].elements[k] < |c|
    ensures r.Some? ==> r.value < |c|
  {
    if c[parent].kind != GroupT then None
    else
      var at := Search(c, c[parent].elements, name, 0);
      if at.Some? then Some(c[parent].elements[at.value]) else None
  }

  /** `config_setting_get_elem` */
  function Element(c: Config, parent: nat, idx: nat): Option<nat>
    requires parent < |c|
  {
    if !IsAggregate(c[parent].kind) || idx >= |c[parent].elements| then None else Some(c[parent].elements[idx])
  }

  // ---------- growing ----------

  /** Indices lead to settings, children come after their parents and point back to them. */
  predicate Linked(c: Config) {
    |c| > 0 && c[0].parent == None
    && (forall i, k | 0 <= i < |c| && 0 <= k < |c[i].elements| ::
          i < c[i].elements[k] < |c| && c[c[i].elements[k]].parent == Some(i))
    && (forall i | 0 < i < |c| :: c[i].parent.Some? && c[i].parent.value < i)
  }

  /** `config_setting_create` under a parent that can hold settings. */
  function Create(c: Config, parent: nat, name: Option<string>, kind: Kind): (r: Config)
    requires parent < |c|
    ensures |r| == |c| + 1
  {
    c[parent := c[parent].(elements := c[parent].elements + [|c|])]
    + [Setting(name, kind, DefaultFormat, Unset, [], Some(parent))]
  }

  lemma CreateLinked(c: Config, parent: nat, name: Option<string>, kind: Kind)
    requires Linked(c) && parent < |c|
    ensures Linked(Create(c, parent, name, kind))
  {
  }

  /** `config_setting_add`: refused for a parent that cannot hold settings, an
      invalid name, or a name that is already taken. A group needs a name. */
  function Add(c: Config, parent: nat, name: Option<string>, kind: Kind): (r: Option<Config>)
    requires Linked(c) && parent < |c|
    requires name.Some? || c[parent].kind != GroupT
    ensures r.Some? ==> Linked(r.value) && |r.value| == |c| + 1
  {
    var key := if c[parent].kind == ArrayT || c[parent].kind == ListT then None else name;
    if key.Some? && (!ValidName(key.value) || Member(c, parent, key.value).Some?) then None
    else if !IsAggregate(c[parent].kind) then None
    else
      CreateLinked(c, parent, key, kind);
      Some(Create(c, parent, key, kind))
  }

  /** `__config_vector_checktype`: the first element determines the type of an array. */
  predicate CheckType(c: Config, vector: nat, kind: Kind)
    requires vector < |c| && forall k | 0 <= k < |c[vector].elements| :: c[vector].elements[k] < |c|
  {
    |c[vector].elements| == 0 || c[vector].kind == ListT || c[c[vector].elements[0]].kind == kind
  }

  /** `config_setting_set_..._elem` with index -1: append an element of that type and value. */
  function Append(c: Config, vector: nat, kind: Kind, value: Scalar, format: Format): (r: Option<Config>)
    requires Linked(c) && vector < |c|
    ensures r.Some? ==> Linked(r.value) && |r.value| == |c| + 1
  {
    if c[vector].kind != ArrayT && c[vector].kind != ListT then None
    else if !CheckType(c, vector, kind) then None
    else
      CreateLinked(c, vector, None, kind);
      Some(SetScalar(Create(c, vector, None, kind), |c|, kind, value, format))
  }

  /** `config_setting_set_...` and `config_setting_set_format` on a setting of that type or of none yet. */
  function SetScalar(c: Config, id: nat, kind: Kind, value: Scalar, format: Format): (r: Config)
    requires id < |c| && (c[id].kind == NoneT || c[id].kind == kind)
    ensures |r| == |c|
    ensures Linked(c) ==> Linked(r)
  {
    c[id := c[id].(kind := kind, value := value, format := if kind == IntT || kind == Int64T then format else c[id].format)]
  }

  /** Giving a setting without a type that of an array, a list or a group. */
  function SetKind(c: Config, id: nat, kind: Kind): (r: Config)
    requires id < |c|
    ensures |r| == |c|
    ensures Linked(c) ==> Linked(r)
  {
    c[id := c[id].(kind := kind)]
  }
}
