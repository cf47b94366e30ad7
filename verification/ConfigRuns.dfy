/** What every run of changes to a tree keeps. */
module ConfigRuns {
  import opened ConfigTree
  import opened ConfigParser
  import opened ConfigSafety
  import Integers
  import opened Optional

  /** The changes the interface offers. */
  datatype Change =
    | AddSetting(parent: nat, name: Option<string>, kind: Kind)
    | AppendElement(vector: nat, kind: Kind, value: Scalar, format: Format)
    | SetValue(id: nat, kind: Kind, value: Scalar)
    | RemoveNamed(parent: nat, key: string)
    | RemoveAt(parent: nat, idx: nat)

  /** The element block without one element. */
  function Without(c: Config, p: nat, k: nat): (r: Config)
    requires p < |c| && k < |c[p].elements|
    ensures |r| == |c|
  {
    c[p := c[p].(elements := c[p].elements[..k] + c[p].elements[k + 1..])]
  }

  lemma WithoutLinked(c: Config, p: nat, k: nat)
    requires Linked(c) && p < |c| && k < |c[p].elements|
    ensures Linked(Without(c, p, k))
  {
    var r := Without(c, p, k);
    assert forall j | 0 <= j < |r[p].elements| :: r[p].elements[j] == c[p].elements[if j < k then j else j + 1];
  }

  /** `config_setting_remove` */
  function Remove(c: Config, p: nat, name: string): (r: Option<Config>)
    requires Linked(c) && p < |c|
    ensures r.Some? ==> Linked(r.value)
  {
    if c[p].kind != GroupT then None
    else
      var at := Search(c, c[p].elements, name, 0);
      if at.None? then None
      else
        WithoutLinked(c, p, at.value);
        Some(Without(c, p, at.value))
  }

  /** `config_setting_remove_elem` */
  function RemoveElement(c: Config, p: nat, idx: nat): (r: Option<Config>)
    requires Linked(c) && p < |c|
    ensures r.Some? ==> Linked(r.value)
  {
    if !IsAggregate(c[p].kind) || idx >= |c[p].elements| then None
    else
      WithoutLinked(c, p, idx);
      Some(Without(c, p, idx))
  }

  /** The type and value that a setting of type `own` has after it is given a value: its
      own type stays. A 64-bit integer is cut to zero when it does not fit a 32-bit
      setting; other types are refused, as they are without automatic conversion. */
  function Taken(own: Kind, kind: Kind, value: Scalar): Option<(Kind, Scalar)> {
    if !IsScalar(kind) then None
    else if own == NoneT || own == kind then Some((kind, value))
    else if own == IntT && kind == Int64T && value.Whole? then Some((IntT, if Integers.InKind(Integers.Int, value.n) then value else Whole(0)))
    else None
  }

  /** `config_setting_set_...` */
  function Set(c: Config, id: nat, kind: Kind, value: Scalar): (r: Option<Config>)
    requires id < |c|
    ensures r.Some? && Linked(c) ==> Linked(r.value)
  {
    var taken := Taken(c[id].kind, kind, value);
    if taken.None? then None else Some(SetScalar(c, id, taken.value.0, taken.value.1, c[id].format))
  }

  /** The arguments a caller may pass: settings of the tree, a name for a member of a
      group, and a scalar type for an appended element. */
  predicate Allowed(c: Config, change: Change) {
    match change
    case AddSetting(p, name, kind) => p < |c| && (name.Some? || c[p].kind != GroupT)
    case AppendElement(v, kind, _, _) => v < |c| && IsScalar(kind)
    case SetValue(id, _, _) => id < |c|
    case RemoveNamed(p, _) => p < |c|
    case RemoveAt(p, _) => p < |c|
  }

  /** One change; a refused one leaves the tree as it is. */
  function Apply(c: Config, change: Change): (r: Config)
    requires Linked(c)
    ensures Linked(r)
  {
    if !Allowed(c, change) then c
    else
      var r := match change
               case AddSetting(p, name, kind) => Add(c, p, name, kind)
               case AppendElement(v, kind, value, format) => Append(c, v, kind, value, format)
               case SetValue(id, kind, value) => Set(c, id, kind, value)
               case RemoveNamed(p, name) => Remove(c, p, name)
               case RemoveAt(p, idx) => RemoveElement(c, p, idx);
      if r.Some? then r.value else c
  }

  predicate AllProper(c: Config) {
    Linked(c) && forall i | 0 <= i < |c| :: ProperSetting(c, i)
  }

  // ---------- each change ----------

  lemma WithoutProper(c: Config, p: nat, k: nat)
    requires AllProper(c) && p < |c| && k < |c[p].elements|
    ensures AllProper(Without(c, p, k))
  {
    hide ProperSetting, Linked;
    var r := Without(c, p, k);
    WithoutLinked(c, p, k);
    forall i | 0 <= i < |r| ensures ProperSetting(r, i) {
      if i == p {
        FewerElements(c, r, p, k);
      } else {
        AsBefore(c, r, i);
      }
    }
  }

  lemma FewerElements(c: Config, r: Config, p: nat, k: nat)
    requires Linked(c) && Linked(r) && p < |c| == |r| && k < |c[p].elements| && ProperSetting(c, p)
    requires r == Without(c, p, k)
    ensures ProperSetting(r, p)
  {
    hide ValidName, IsScalar;
    var e, d := c[p].elements, r[p].elements;
    forall j | 0 <= j < |d| ensures d[j] == e[if j < k then j else j + 1] && r[d[j]].name == c[d[j]].name && r[d[j]].kind == c[d[j]].kind {
    }
  }

  lemma AddProper(c: Config, p: nat, name: Option<string>, kind: Kind)
    requires AllProper(c) && p < |c| && (name.Some? || c[p].kind != GroupT)
    requires c[p].kind != ArrayT && Add(c, p, name, kind).Some?
    ensures AllProper(Add(c, p, name, kind).value)
  {
    hide ProperSetting, Linked, Member;
    var r := Add(c, p, name, kind).value;
    if c[p].kind == GroupT {
      UntakenName(c, p, name.value);
    }
    forall i | 0 <= i < |r| ensures ProperSetting(r, i) {
      if i == |c| {
        NoElements(r, i);
      } else if i != p {
        AsBefore(c, r, i);
      } else if c[p].kind == GroupT {
        GrownNames(c, r, p);
      } else {
        GrownVector(c, p, r);
      }
    }
  }

  lemma AppendProper(c: Config, v: nat, kind: Kind, value: Scalar, format: Format)
    requires AllProper(c) && v < |c| && IsScalar(kind) && Append(c, v, kind, value, format).Some?
    ensures AllProper(Append(c, v, kind, value, format).value)
  {
    hide ProperSetting, Linked, IsScalar;
    var r := Append(c, v, kind, value, format).value;
    AppendIs(c, v, kind, value, format);
    forall i | 0 <= i < |r| ensures ProperSetting(r, i) {
      if i == |c| {
        NoElements(r, i);
      } else if i == v {
        GrownVector(c, v, r);
      } else {
        AsBefore(c, r, i);
      }
    }
  }

  /** Setting a value never changes the type of an element of an array. */
  lemma SetProper(c: Config, id: nat, kind: Kind, value: Scalar)
    requires AllProper(c) && id < |c| && Set(c, id, kind, value).Some?
    ensures AllProper(Set(c, id, kind, value).value)
  {
    hide ProperSetting, Linked, IsScalar;
    var r := Set(c, id, kind, value).value;
    forall i | 0 <= i < |r| ensures ProperSetting(r, i) {
      if c[id].kind != NoneT {
        AsBefore(c, r, i);
      } else {
        TypedBefore(c, r, id, i);
      }
    }
  }

  lemma TypedBefore(c: Config, r: Config, id: nat, i: nat)
    requires Linked(c) && Linked(r) && id < |c| == |r| && i < |c| && c[id].kind == NoneT
    requires ProperSetting(c, i) && ProperSetting(c, id)
    requires r[id].elements == c[id].elements && r[id].name == c[id].name && IsScalar(r[id].kind)
    requires forall k | 0 <= k < |c| && k != id :: r[k] == c[k]
    ensures ProperSetting(r, i)
  {
    hide ValidName;
    var e := c[i].elements;
    assert forall k | 0 <= k < |e| :: r[e[k]].name == c[e[k]].name;
  }

  // ---------- runs ----------

  /** What `config_setting_add` does not check: into an array goes a scalar of the type
      of its first element. */
  predicate Typed(c: Config, change: Change)
    requires Linked(c)
  {
    change.AddSetting? && Allowed(c, change) && c[change.parent].kind == ArrayT ==>
      IsScalar(change.kind) && CheckType(c, change.parent, change.kind)
  }

  /** One change keeps names and types in order if and only if it is typed. */
  lemma ApplyExactly(c: Config, change: Change)
    requires AllProper(c)
    ensures Linked(c) && (AllProper(Apply(c, change)) <==> Typed(c, change))
  {
    hide AllProper, Linked, Add, Append, Set, Remove, RemoveElement, IsScalar, CheckType;
    ProperIsLinked(c);
    if Allowed(c, change) {
      match change
      case AddSetting(p, name, kind) =>
        if c[p].kind == ArrayT {
          AddToArray(c, p, name, kind);
        } else if Add(c, p, name, kind).Some? {
          AddProper(c, p, name, kind);
        }
      case AppendElement(v, kind, value, format) => if Append(c, v, kind, value, format).Some? { AppendProper(c, v, kind, value, format); }
      case SetValue(id, kind, value) => if Set(c, id, kind, value).Some? { SetProper(c, id, kind, value); }
      case RemoveNamed(p, name) => RemoveProper(c, p, name);
      case RemoveAt(p, idx) => RemoveElementProper(c, p, idx);
    }
  }

  lemma ProperIsLinked(c: Config)
    requires AllProper(c)
    ensures Linked(c)
  {
  }

  lemma RemoveProper(c: Config, p: nat, name: string)
    requires AllProper(c) && p < |c|
    ensures Remove(c, p, name).Some? ==> AllProper(Remove(c, p, name).value)
  {
    hide AllProper;
    ProperIsLinked(c);
    if Remove(c, p, name).Some? {
      WithoutProper(c, p, Search(c, c[p].elements, name, 0).value);
    }
  }

  lemma RemoveElementProper(c: Config, p: nat, idx: nat)
    requires AllProper(c) && p < |c|
    ensures RemoveElement(c, p, idx).Some? ==> AllProper(RemoveElement(c, p, idx).value)
  {
    hide AllProper;
    ProperIsLinked(c);
    if RemoveElement(c, p, idx).Some? {
      WithoutProper(c, p, idx);
    }
  }

  /** The tree after a run of changes. */
  function ApplyAll(c: Config, changes: seq<Change>): (r: Config)
    requires Linked(c)
    ensures Linked(r)
    decreases changes
  {
    if |changes| == 0 then c else ApplyAll(Apply(c, changes[0]), changes[1..])
  }

  predicate AllTyped(c: Config, changes: seq<Change>)
    requires Linked(c)
    decreases changes
  {
    |changes| > 0 ==> Typed(c, changes[0]) && AllTyped(Apply(c, changes[0]), changes[1..])
  }

  /** Whatever is added, appended, set and removed, in whatever order and number: names
      stay valid and different in every group, and arrays keep to one scalar type. */
  lemma {:induction false} RunKeepsProper(c: Config, changes: seq<Change>)
    requires AllProper(c) && Linked(c) && AllTyped(c, changes)
    ensures AllProper(ApplyAll(c, changes))
    decreases changes
  {
    hide AllProper, Apply, Typed;
    ProperIsLinked(c);
    if |changes| > 0 {
      ApplyExactly(c, changes[0]);
      RunKeepsProper(Apply(c, changes[0]), changes[1..]);
    }
  }

  /** Adding to an array keeps it homogeneous exactly when the caller does what the
      function does not check: passes a scalar type, that of the first element. */
  lemma AddToArray(c: Config, p: nat, name: Option<string>, kind: Kind)
    requires AllProper(c) && p < |c| && c[p].kind == ArrayT
    ensures Add(c, p, name, kind).Some?
    ensures AllProper(Add(c, p, name, kind).value) <==> IsScalar(kind) && CheckType(c, p, kind)
  {
    hide ProperSetting;
    var r := Add(c, p, name, kind).value;
    if IsScalar(kind) && CheckType(c, p, kind) {
      forall i | 0 <= i < |r| ensures ProperSetting(r, i) {
        if i == |c| {
          NoElements(r, i);
        } else if i == p {
          GrownVector(c, p, r);
        } else {
          AsBefore(c, r, i);
        }
      }
    } else {
      AddedBreaks(c, p, r, kind);
    }
  }

  lemma AddedBreaks(c: Config, p: nat, r: Config, kind: Kind)
    requires Linked(c) && Linked(r) && p < |c| && c[p].kind == ArrayT && |r| == |c| + 1
    requires r[p] == c[p].(elements := c[p].elements + [|c|]) && r[|c|].kind == kind
    requires forall k | 0 <= k < |c| && k != p :: r[k] == c[k]
    requires !(IsScalar(kind) && CheckType(c, p, kind))
    ensures !ProperSetting(r, p)
  {
    var e := r[p].elements;
    assert e[|e| - 1] == |c|;
    if |c[p].elements| > 0 {
      assert e[0] == c[p].elements[0];
    }
  }

  /** Every tree the parser accepts is a start for such runs. */
  lemma ParsedIsProper(input: seq<Token>)
    ensures Parse(input).Accepted? ==> AllProper(Parse(input).ctx.config)
  {
    hide Parse;
    ParseSafe(input);
  }
}
