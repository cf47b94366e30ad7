/** The recursive parser: `parse_value`, `parse_array`, `parse_object` and
    `cJSON_ParseWithOpts`, each as a function of the text and as the loop that runs. */
module JsonParser {
  import opened JsonText
  import opened JsonNumber
  import opened JsonString

  function ParseValue(s: string, i: nat): (r: Outcome<Json>)
    requires i <= |s|
    ensures r.Ok? ==> i < r.end <= |s|
    decreases |s| - i, 1
  {
    if Has(s, i, "null") then Ok(Null, i + 4)
    else if Has(s, i, "false") then Ok(False, i + 5)
    else if Has(s, i, "true") then Ok(True, i + 4)
    else if At(s, i) == '"' then
      match ParseString(s, i)
      case Ok(text, end) => Ok(String(text), end)
      case Err(at) => Err(at)
      case Malformed => Malformed
    else if At(s, i) == '-' || IsDigit(At(s, i)) then ParseNumber(s, i)
    else if At(s, i) == '[' then ParseArray(s, i)
    else if At(s, i) == '{' then ParseObject(s, i)
    else Err(i)
  }

  function ParseArray(s: string, i: nat): (r: Outcome<Json>)
    requires i < |s|
    ensures r.Ok? ==> i < r.end <= |s|
    decreases |s| - i, 0
  {
    var v := Skip(s, i + 1);
    if At(s, v) == ']' then Ok(Array([]), v + 1) else ParseItems(s, v, [])
  }

  function ParseObject(s: string, i: nat): (r: Outcome<Json>)
    requires i < |s|
    ensures r.Ok? ==> i < r.end <= |s|
    decreases |s| - i, 0
  {
    var v := Skip(s, i + 1);
    if At(s, v) == '}' then Ok(Object([]), v + 1) else ParseMembers(s, v, [])
  }

  /** The items of an array from `v` on, after the ones in `done`. */
  function ParseItems(s: string, v: nat, done: seq<Json>): (r: Outcome<Json>)
    requires v <= |s|
    ensures r.Ok? ==> v < r.end <= |s|
    decreases |s| - v, 2
  {
    match ParseValue(s, Skip(s, v))
    case Err(at) => Err(at)
    case Malformed => Malformed
    case Ok(item, end) =>
      AfterItem(s, Skip(s, end), done + [item])
  }

  /** At the character that follows an item. */
  function AfterItem(s: string, w: nat, done: seq<Json>): (r: Outcome<Json>)
    requires w <= |s|
    ensures r.Ok? ==> w < r.end <= |s|
    decreases |s| - w, 0
  {
    if At(s, w) == ',' then ParseItems(s, w + 1, done)
    else if At(s, w) == ']' then Ok(Array(done), w + 1)
    else Err(w)
  }

  /** A name, a colon and a value. */
  function ParseMember(s: string, v: nat): (r: Outcome<Member>)
    requires v <= |s|
    ensures r.Ok? ==> v < r.end <= |s|
    decreases |s| - v, 2
  {
    match ParseString(s, Skip(s, v))
    case Err(at) => Err(at)
    case Malformed => Malformed
    case Ok(name, colon) =>
      var c := Skip(s, colon);
      if At(s, c) != ':' then Err(c)
      else
        match ParseValue(s, Skip(s, c + 1))
        case Err(at) => Err(at)
        case Malformed => Malformed
        case Ok(value, end) => Ok(Member(name, value), end)
  }

  function ParseMembers(s: string, v: nat, done: seq<Member>): (r: Outcome<Json>)
    requires v <= |s|
    ensures r.Ok? ==> v < r.end <= |s|
    decreases |s| - v, 3
  {
    match ParseMember(s, v)
    case Err(at) => Err(at)
    case Malformed => Malformed
    case Ok(member, end) =>
      AfterMember(s, Skip(s, end), done + [member])
  }

  /** At the character that follows a member. */
  function AfterMember(s: string, w: nat, done: seq<Member>): (r: Outcome<Json>)
    requires w <= |s|
    ensures r.Ok? ==> w < r.end <= |s|
    decreases |s| - w, 0
  {
    if At(s, w) == ',' then ParseMembers(s, w + 1, done)
    else if At(s, w) == '}' then Ok(Object(done), w + 1)
    else Err(w)
  }

  /** `cJSON_ParseWithOpts`: with `strict`, only white space may follow the value. */
  function Parse(s: string, strict: bool): (r: Outcome<Json>)
    ensures r.Ok? ==> 0 < r.end <= |s|
  {
    var r := ParseValue(s, Skip(s, 0));
    if r.Ok? && strict then
      var end := Skip(s, r.end);
      if At(s, end) != NUL then Err(end) else Ok(r.value, end)
    else r
  }

  lemma OpenArray(s: string, i: nat)
    requires i < |s|
    ensures var v := Skip(s, i + 1);
            ParseArray(s, i) == if At(s, v) == ']' then Ok(Array([]), v + 1) else ParseItems(s, v, [])
  {
  }

  lemma ItemsTurn(s: string, v: nat, done: seq<Json>, item: Outcome<Json>)
    requires v <= |s| && item == ParseValue(s, Skip(s, v))
    ensures item.Err? ==> ParseItems(s, v, done) == Err(item.at)
    ensures item.Ok? ==> ParseItems(s, v, done) == AfterItem(s, Skip(s, item.end), done + [item.value])
    ensures item.Malformed? ==> ParseItems(s, v, done) == Malformed
  {
  }

  lemma OpenObject(s: string, i: nat)
    requires i < |s|
    ensures var v := Skip(s, i + 1);
            ParseObject(s, i) == if At(s, v) == '}' then Ok(Object([]), v + 1) else ParseMembers(s, v, [])
  {
  }

  lemma MembersTurn(s: string, v: nat, done: seq<Member>, member: Outcome<Member>)
    requires v <= |s| && member == ParseMember(s, v)
    ensures member.Err? ==> ParseMembers(s, v, done) == Err(member.at)
    ensures member.Ok? ==> ParseMembers(s, v, done) == AfterMember(s, Skip(s, member.end), done + [member.value])
    ensures member.Malformed? ==> ParseMembers(s, v, done) == Malformed
  {
  }

  // ---------- the parser as it runs ----------

  method ReadValue(s: string, value: nat) returns (r: Outcome<Json>)
    requires value <= |s| && ParseValue(s, value) != Malformed
    ensures r == ParseValue(s, value)
    decreases |s| - value, 0
  {
    if Has(s, value, "null") { return Ok(Null, value + 4); }
    if Has(s, value, "false") { return Ok(False, value + 5); }
    if Has(s, value, "true") { return Ok(True, value + 4); }
    if At(s, value) == '"' {
      var t := ScanString(s, value);
      return Ok(String(t.value), t.end);
    }
    if At(s, value) == '-' || IsDigit(At(s, value)) {
      var item, end := ScanNumber(s, value);
      return Ok(item, end);
    }
    if At(s, value) == '[' {
      r := ReadArray(s, value);
      return;
    }
    if At(s, value) == '{' {
      r := ReadObject(s, value);
      return;
    }
    r := Err(value);
  }

  method ReadArray(s: string, start: nat) returns (r: Outcome<Json>)
    requires start < |s| && ParseArray(s, start) != Malformed
    ensures r == ParseArray(s, start)
    decreases |s| - start - 1, 2
  {
    hide ParseValue, ParseArray, ParseItems;
    OpenArray(s, start);
    var value := SkipWhite(s, start + 1);
    if At(s, value) == ']' {
      return Ok(Array([]), value + 1);
    }
    ghost var target := ParseItems(s, value, []);
    ItemsTurn(s, value, [], ParseValue(s, Skip(s, value)));
    var child;
    child, value := ReadItem(s, value);
    if child.Err? {
      return Err(child.at);
    }
    var items: seq<Json> := [child.value];
    assert [] + [child.value] == items;
    while At(s, value) == ','
      invariant start < value <= |s|
      invariant AfterItem(s, value, items) == target
      decreases |s| - value
    {
      ItemsTurn(s, value + 1, items, ParseValue(s, Skip(s, value + 1)));
      child, value := ReadItem(s, value + 1);
      if child.Err? {
        return Err(child.at);
      }
      items := items + [child.value];
    }
    r := if At(s, value) == ']' then Ok(Array(items), value + 1) else Err(value);
  }

  /** An item and the white space around it. */
  method ReadItem(s: string, start: nat) returns (item: Outcome<Json>, value: nat)
    requires start <= |s| && ParseValue(s, Skip(s, start)) != Malformed
    ensures item == ParseValue(s, Skip(s, start))
    ensures start <= value <= |s| && (item.Ok? ==> value == Skip(s, item.end))
    decreases |s| - start, 1
  {
    value := SkipWhite(s, start);
    item := ReadValue(s, value);
    if item.Ok? {
      value := SkipWhite(s, item.end);
    }
  }

  method ReadObject(s: string, start: nat) returns (r: Outcome<Json>)
    requires start < |s| && ParseObject(s, start) != Malformed
    ensures r == ParseObject(s, start)
    decreases |s| - start - 1, 2
  {
    hide ParseMember, ParseObject, ParseMembers;
    OpenObject(s, start);
    var value := SkipWhite(s, start + 1);
    if At(s, value) == '}' {
      return Ok(Object([]), value + 1);
    }
    ghost var target := ParseMembers(s, value, []);
    MembersTurn(s, value, [], ParseMember(s, value));
    var child;
    child, value := ReadMember(s, value);
    if child.Err? {
      return Err(child.at);
    }
    var members: seq<Member> := [child.value];
    assert [] + [child.value] == members;
    while At(s, value) == ','
      invariant start < value <= |s|
      invariant AfterMember(s, value, members) == target
      decreases |s| - value
    {
      MembersTurn(s, value + 1, members, ParseMember(s, value + 1));
      child, value := ReadMember(s, value + 1);
      if child.Err? {
        return Err(child.at);
      }
      members := members + [child.value];
    }
    r := if At(s, value) == '}' then Ok(Object(members), value + 1) else Err(value);
  }

  /** A name, a colon, a value and the white space around them. */
  method ReadMember(s: string, start: nat) returns (member: Outcome<Member>, value: nat)
    requires start <= |s| && ParseMember(s, start) != Malformed
    ensures member == ParseMember(s, start)
    ensures start <= value <= |s| && (member.Ok? ==> value == Skip(s, member.end))
    decreases |s| - start, 1
  {
    value := SkipWhite(s, start);
    var name := ScanString(s, value);
    if name.Err? {
      return Err(name.at), value;
    }
    value := SkipWhite(s, name.end);
    if At(s, value) != ':' {
      return Err(value), value;
    }
    value := SkipWhite(s, value + 1);
    var child := ReadValue(s, value);
    if child.Err? {
      return Err(child.at), value;
    }
    value := SkipWhite(s, child.end);
    member := Ok(Member(name.value, child.value), child.end);
  }

  method ReadText(s: string, strict: bool) returns (r: Outcome<Json>)
    requires Parse(s, strict) != Malformed
    ensures r == Parse(s, strict)
  {
    var start := SkipWhite(s, 0);
    r := ReadValue(s, start);
    if r.Ok? && strict {
      var end := SkipWhite(s, r.end);
      r := if At(s, end) != NUL then Err(end) else Ok(r.value, end);
    }
  }
}
