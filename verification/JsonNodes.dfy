/** The nodes of a JSON tree: child lists and their surgery. */
module JsonNodes {

  import opened Optional

  class Node {
    var kind: nat
    var isReference: bool
    var valueint: int
    var valuestring: Option<string>
    var key: Option<string>
    var child: Node?
    var next: Node?
    var prev: Node?

    /** `cJSON_New_Item`: all fields cleared. */
    constructor ()
      ensures kind == 0 && !isReference && valueint == 0 && valuestring == None && key == None
      ensures child == null && next == null && prev == null
    {
      kind, isReference, valueint, valuestring, key := 0, false, 0, None, None;
      child, next, prev := null, null, null;
    }
  }

  // ---------- chains ----------

  /** `next` and `prev` at one position, with null at both ends. */
  predicate LinkAt(s: seq<Node>, i: nat)
    requires i < |s|
    reads s
  {
    s[i].prev == (if i == 0 then null else s[i - 1]) && s[i].next == (if i + 1 < |s| then s[i + 1] else null)
  }

  predicate Distinct(s: seq<Node>) {
    forall i, j | 0 <= i < j < |s| :: s[i] != s[j]
  }

  /** `first` heads a doubly linked chain of exactly these nodes. */
  predicate Chain(first: Node?, s: seq<Node>)
    reads s
  {
    first == (if |s| == 0 then null else s[0]) && Distinct(s) && forall i | 0 <= i < |s| :: LinkAt(s, i)
  }

  /** The children of an array or object. */
  predicate Children(parent: Node, s: seq<Node>)
    reads parent, s
  {
    parent !in s && Chain(parent.child, s)
  }

  predicate Alone(item: Node)
    reads item
  {
    item.next == null && item.prev == null
  }

  /** The position that a request means: negative ones mean the first. */
  function Position(which: int): nat {
    if which < 0 then 0 else which
  }

  /** `cJSON_GetArraySize` */
  method GetArraySize(parent: Node, ghost s: seq<Node>) returns (n: nat)
    requires Children(parent, s)
    ensures n == |s|
  {
    var c := parent.child;
    n := 0;
    while c != null
      invariant n <= |s| && c == (if n < |s| then s[n] else null)
      decreases |s| - n
    {
      assert LinkAt(s, n);
      n, c := n + 1, c.next;
    }
  }

  /** `cJSON_GetArrayItem`, and the walk at the start of the other operations. */
  method GetArrayItem(parent: Node, which: int, ghost s: seq<Node>) returns (c: Node?)
    requires Children(parent, s)
    ensures c == if Position(which) < |s| then s[Position(which)] else null
  {
    c := parent.child;
    var left := which;
    ghost var k := 0;
    while c != null && left > 0
      invariant k <= |s| && c == (if k < |s| then s[k] else null)
      invariant k + Position(left) == Position(which)
      decreases |s| - k
    {
      assert LinkAt(s, k);
      left, c, k := left - 1, c.next, k + 1;
    }
  }

  // ---------- surgery ----------

  /** `cJSON_AddItemToArray` */
  method AddItemToArray(parent: Node, item: Node, ghost s: seq<Node>)
    requires Children(parent, s) && item != parent && item !in s && Alone(item)
    modifies parent`child, item`prev, s`next
    ensures Children(parent, s + [item])
  {
    var c := parent.child;
    ghost var r := s + [item];
    if c == null {
      parent.child := item;
      assert LinkAt(r, 0);
      return;
    }
    ghost var k := 0;
    while c != null && c.next != null
      invariant k < |s| && c == s[k]
      decreases |s| - k
    {
      assert LinkAt(s, k);
      c, k := c.next, k + 1;
    }
    assert LinkAt(s, k);
    assert k == |s| - 1;
    c.next := item;
    item.prev := c;
    forall i | 0 <= i < |r| ensures LinkAt(r, i) {
      if i < |s| {
        assert old(LinkAt(s, i));
      }
    }
  }

  function Without(s: seq<Node>, k: nat): (r: seq<Node>)
    requires k < |s|
    ensures |r| == |s| - 1
  {
    s[..k] + s[k + 1..]
  }

  lemma WithoutAt(s: seq<Node>, k: nat)
    requires Distinct(s) && k < |s|
    ensures Distinct(Without(s, k)) && s[k] !in Without(s, k)
    ensures forall i | 0 <= i < |s| - 1 :: Without(s, k)[i] == s[if i < k then i else i + 1]
  {
  }

  /** `cJSON_DetachItemFromArray` */
  method DetachItemFromArray(parent: Node, which: int, ghost s: seq<Node>) returns (c: Node?)
    requires Children(parent, s)
    modifies parent`child, s`next, s`prev
    ensures var k := Position(which);
            if k < |s| then c == s[k] && Children(parent, Without(s, k)) && s[k].next == null && s[k].prev == null
            else c == null && Children(parent, s) && unchanged(parent) && unchanged(s)
  {
    c := GetArrayItem(parent, which, s);
    if c == null {
      return;
    }
    ghost var k := Position(which);
    assert LinkAt(s, k);
    if k > 0 {
      assert LinkAt(s, k - 1);
    }
    if k + 1 < |s| {
      assert LinkAt(s, k + 1);
    }
    if c.prev != null {
      c.prev.next := c.next;
    }
    if c.next != null {
      c.next.prev := c.prev;
    }
    if c == parent.child {
      parent.child := c.next;
    }
    c.prev := null;
    c.next := null;
    ghost var r := Without(s, k);
    WithoutAt(s, k);
    forall i | 0 <= i < |r| ensures LinkAt(r, i) {
      assert old(LinkAt(s, if i < k then i else i + 1));
    }
  }

  /** `cJSON_ReplaceItemInArray` up to the deletion: the replaced item ends up alone. */
  method ReplaceLinks(parent: Node, which: int, newitem: Node, ghost s: seq<Node>) returns (c: Node?)
    requires Children(parent, s) && newitem != parent && newitem !in s
    modifies parent`child, newitem`next, newitem`prev, s`next, s`prev
    ensures var k := Position(which);
            if k < |s| then c == s[k] && Children(parent, s[k := newitem]) && s[k].next == null && s[k].prev == null
            else c == null && Children(parent, s) && unchanged(parent) && unchanged(newitem) && unchanged(s)
  {
    c := GetArrayItem(parent, which, s);
    if c == null {
      return;
    }
    ghost var k := Position(which);
    assert LinkAt(s, k);
    if k > 0 {
      assert LinkAt(s, k - 1);
    }
    newitem.next := c.next;
    newitem.prev := c.prev;
    if newitem.next != null {
      newitem.next.prev := newitem;
    }
    if c == parent.child {
      parent.child := newitem;
    } else {
      newitem.prev.next := newitem;
    }
    c.next := null;
    c.prev := null;
    ghost var r := s[k := newitem];
    forall i | 0 <= i < |r| ensures LinkAt(r, i) {
      assert old(LinkAt(s, i));
    }
  }

  // ---------- keys ----------

  function Lower(c: char): char {
    if 'A' <= c <= 'Z' then (c as int + 32) as char else c
  }

  /** `cJSON_strcasecmp` finds no difference. */
  predicate SameKey(a: Option<string>, b: string) {
    a.Some? && |a.value| == |b| && forall i | 0 <= i < |b| :: Lower(a.value[i]) == Lower(b[i])
  }

  /** `cJSON_DetachItemFromObject`: the first member whose key agrees but for its case. */
  method DetachItemFromObject(parent: Node, name: string, ghost s: seq<Node>) returns (c: Node?)
    requires Children(parent, s)
    modifies parent`child, s`next, s`prev
    ensures c == null ==> unchanged(parent) && unchanged(s) && forall i | 0 <= i < |s| :: !SameKey(old(s[i].key), name)
    ensures c != null ==>
              exists k | 0 <= k < |s| :: c == s[k] && SameKey(old(s[k].key), name)
                && (forall i | 0 <= i < k :: !SameKey(old(s[i].key), name))
                && Children(parent, Without(s, k)) && s[k].next == null && s[k].prev == null
  {
    var i := 0;
    c := parent.child;
    while c != null && !SameKey(c.key, name)
      invariant 0 <= i <= |s| && c == (if i < |s| then s[i] else null)
      invariant forall j | 0 <= j < i :: !SameKey(s[j].key, name)
      decreases |s| - i
    {
      assert LinkAt(s, i);
      i, c := i + 1, c.next;
    }
    if c != null {
      c := DetachItemFromArray(parent, i, s);
    }
  }
}
