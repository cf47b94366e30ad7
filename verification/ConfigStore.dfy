/** The operations on the settings tree as they run, on settings that are updated in place. */
module ConfigStore {
  import opened ConfigTree
  import opened ConfigSafety
  import opened ConfigRuns
  import Integers
  import opened Optional

  class Store {
    var settings: Config

    /** `config_init` */
    constructor ()
      ensures settings == INITIAL && AllProper(settings)
    {
      settings := INITIAL;
    }

    /** `__config_list_search` */
    method ListSearch(elements: seq<nat>, name: string) returns (at: Option<nat>)
      requires forall k | 0 <= k < |elements| :: elements[k] < |settings|
      ensures at == Search(settings, elements, name, 0)
    {
      var i := 0;
      while i < |elements|
        invariant 0 <= i <= |elements|
        invariant Search(settings, elements, name, i) == Search(settings, elements, name, 0)
      {
        var other := settings[elements[i]].name;
        if other.Some? {
          var difference := NameCompare(name, other.value);
          if difference == 0 {
            return Some(i);
          }
        }
        i := i + 1;
      }
      at := None;
    }

    /** `config_setting_get_member` */
    method GetMember(setting: nat, name: string) returns (member: Option<nat>)
      requires Linked(settings) && setting < |settings|
      ensures member == Member(settings, setting, name)
    {
      if settings[setting].kind != GroupT {
        return None;
      }
      var at := ListSearch(settings[setting].elements, name);
      member := if at.Some? then Some(settings[setting].elements[at.value]) else None;
    }

    /** `config_setting_create` under a parent that can hold settings. */
    method SettingCreate(parent: nat, name: Option<string>, kind: Kind) returns (setting: nat)
      requires parent < |settings|
      modifies this
      ensures settings == Create(old(settings), parent, name, kind) && setting == |old(settings)|
    {
      setting := |settings|;
      settings := settings + [Setting(name, kind, DefaultFormat, Unset, [], Some(parent))];
      settings := settings[parent := settings[parent].(elements := settings[parent].elements + [setting])];
    }

    /** `config_setting_add` */
    method SettingAdd(parent: nat, name: Option<string>, kind: Kind) returns (setting: Option<nat>)
      requires Linked(settings) && parent < |settings|
      requires name.Some? || settings[parent].kind != GroupT
      modifies this
      ensures setting.Some? <==> Add(old(settings), parent, name, kind).Some?
      ensures if setting.Some? then Some(settings) == Add(old(settings), parent, name, kind) && setting.value == |old(settings)|
              else settings == old(settings)
    {
      var key := name;
      if settings[parent].kind == ArrayT || settings[parent].kind == ListT {
        key := None;
      }
      if key.Some? {
        if !ValidName(key.value) {
          return None;
        }
        var member := GetMember(parent, key.value);
        if member.Some? {
          return None;
        }
      }
      if !IsAggregate(settings[parent].kind) {
        return None;
      }
      var created := SettingCreate(parent, key, kind);
      setting := Some(created);
    }

    /** `config_setting_set_...` */
    method SettingSet(setting: nat, kind: Kind, value: Scalar) returns (ok: bool)
      requires setting < |settings|
      modifies this
      ensures ok <==> Set(old(settings), setting, kind, value).Some?
      ensures if ok then Some(settings) == Set(old(settings), setting, kind, value) else settings == old(settings)
    {
      var s := settings[setting];
      if !IsScalar(kind) {
        return false;
      }
      if s.kind == NoneT {
        settings := settings[setting := s.(kind := kind)];
      }
      if s.kind == NoneT || s.kind == kind {
        settings := settings[setting := settings[setting].(value := value)];
      } else if s.kind == IntT && kind == Int64T && value.Whole? {
        var fits := -Integers.TWO31 <= value.n < Integers.TWO31;
        settings := settings[setting := s.(value := if fits then value else Whole(0))];
      } else {
        return false;
      }
      ok := true;
      ghost var taken := Taken(s.kind, kind, value).value;
      assert settings == SetScalar(old(settings), setting, taken.0, taken.1, s.format);
    }

    /** `config_setting_set_..._elem` with a negative index, and `config_setting_set_format`. */
    method AppendElem(vector: nat, kind: Kind, value: Scalar, format: Format) returns (element: Option<nat>)
      requires Linked(settings) && vector < |settings| && IsScalar(kind)
      modifies this
      ensures element.Some? <==> Append(old(settings), vector, kind, value, format).Some?
      ensures if element.Some? then Some(settings) == Append(old(settings), vector, kind, value, format) else settings == old(settings)
    {
      if settings[vector].kind != ArrayT && settings[vector].kind != ListT {
        return None;
      }
      if !CheckType(settings, vector, kind) {
        return None;
      }
      var created := SettingCreate(vector, None, kind);
      settings := settings[created := settings[created].(value := value)];
      if kind == IntT || kind == Int64T {
        settings := settings[created := settings[created].(format := format)];
      }
      element := Some(created);
      assert settings == SetScalar(Create(old(settings), vector, None, kind), created, kind, value, format);
    }

    /** `__config_list_remove` */
    method ListRemove(parent: nat, idx: nat)
      requires parent < |settings| && idx < |settings[parent].elements|
      modifies this
      ensures settings == Without(old(settings), parent, idx)
    {
      var list := settings[parent].elements;
      settings := settings[parent := settings[parent].(elements := list[..idx] + list[idx + 1..])];
    }

    /** `config_setting_remove` */
    method SettingRemove(parent: nat, name: string) returns (ok: bool)
      requires Linked(settings) && parent < |settings|
      modifies this
      ensures ok <==> Remove(old(settings), parent, name).Some?
      ensures if ok then Some(settings) == Remove(old(settings), parent, name) else settings == old(settings)
    {
      if settings[parent].kind != GroupT {
        return false;
      }
      var at := ListSearch(settings[parent].elements, name);
      if at.None? {
        return false;
      }
      ListRemove(parent, at.value);
      ok := true;
    }

    /** `config_setting_remove_elem` */
    method SettingRemoveElem(parent: nat, idx: nat) returns (ok: bool)
      requires Linked(settings) && parent < |settings|
      modifies this
      ensures ok <==> RemoveElement(old(settings), parent, idx).Some?
      ensures if ok then Some(settings) == RemoveElement(old(settings), parent, idx) else settings == old(settings)
    {
      if !IsAggregate(settings[parent].kind) || idx >= |settings[parent].elements| {
        return false;
      }
      ListRemove(parent, idx);
      ok := true;
    }

    /** One call of the interface. */
    method Perform(change: Change)
      requires Linked(settings) && Allowed(settings, change)
      modifies this
      ensures settings == Apply(old(settings), change)
    {
      hide Add, Append, Set, Remove, RemoveElement;
      match change
      case AddSetting(p, name, kind) => var _ := SettingAdd(p, name, kind);
      case AppendElement(v, kind, value, format) => var _ := AppendElem(v, kind, value, format);
      case SetValue(id, kind, value) => var _ := SettingSet(id, kind, value);
      case RemoveNamed(p, name) => var _ := SettingRemove(p, name);
      case RemoveAt(p, idx) => var _ := SettingRemoveElem(p, idx);
    }

    /** Any run of calls on a well-formed tree: it stays well-formed throughout. */
    method PerformAll(changes: seq<Change>)
      requires AllProper(settings) && Linked(settings) && AllTyped(settings, changes)
      modifies this
      ensures settings == ApplyAll(old(settings), changes) && AllProper(settings)
    {
      hide AllProper, Apply, Typed;
      var i := 0;
      assert changes[0..] == changes;
      while i < |changes|
        invariant 0 <= i <= |changes| && AllProper(settings) && Linked(settings) && AllTyped(settings, changes[i..])
        invariant ApplyAll(settings, changes[i..]) == ApplyAll(old(settings), changes)
      {
        ghost var rest := changes[i..];
        assert rest[0] == changes[i] && rest[1..] == changes[i + 1..];
        ApplyExactly(settings, changes[i]);
        if Allowed(settings, changes[i]) {
          Perform(changes[i]);
        } else {
          NothingApplied(settings, changes[i]);
        }
        i := i + 1;
      }
    }
  }

  lemma NothingApplied(c: Config, change: Change)
    requires Linked(c) && !Allowed(c, change)
    ensures Apply(c, change) == c
  {
  }
}
