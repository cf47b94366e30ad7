/** The circular doubly linked lists of the kernel. A list is a ring of nodes; the
    sequence of a ring starts with its head. */
module KernelList {

  class ListHead {
    var next: ListHead?
    var prev: ListHead?

    /** `INIT_LIST_HEAD`: a ring of its own. */
    constructor ()
      ensures Ring([this])
    {
      next, prev := this, this;
    }
  }

  /** `next` and `prev` are inverse between a node and the following one, around the ring. */
  predicate LinkAt(s: seq<ListHead>, i: nat)
    requires i < |s|
    reads s
  {
    var after := s[if i + 1 < |s| then i + 1 else 0];
    s[i].next == after && after.prev == s[i]
  }

  predicate Distinct(s: seq<ListHead>) {
    forall i, j | 0 <= i < j < |s| :: s[i] != s[j]
  }

  predicate Ring(s: seq<ListHead>)
    reads s
  {
    |s| > 0 && Distinct(s) && forall i | 0 <= i < |s| :: LinkAt(s, i)
  }

  /** Two rings have no node in common. */
  predicate Apart(s: seq<ListHead>, t: seq<ListHead>) {
    forall i, j | 0 <= i < |s| && 0 <= j < |t| :: s[i] != t[j]
  }

  function Without(s: seq<ListHead>, k: nat): (r: seq<ListHead>)
    requires k < |s|
    ensures |r| == |s| - 1
  {
    s[..k] + s[k + 1..]
  }

  // ---------- adding ----------

  /** `__list_add` */
  method InsertBetween(node: ListHead, prev: ListHead, next: ListHead)
    requires node != prev && node != next
    modifies node, prev, next
    ensures prev.next == node && node.prev == prev && node.next == next && next.prev == node
    ensures prev != next && prev != node ==> prev.prev == old(prev.prev)
    ensures prev != next && next != node ==> next.next == old(next.next)
  {
    next.prev := node;
    node.next := next;
    node.prev := prev;
    prev.next := node;
  }

  /** `list_add`: behind the head, as on a stack. */
  method Add(node: ListHead, head: ListHead, ghost s: seq<ListHead>)
    requires Ring(s) && s[0] == head && node !in s
    modifies node, s
    ensures Ring([head, node] + s[1..])
  {
    assert LinkAt(s, 0);
    assert LinkAt(s, |s| - 1);
    InsertBetween(node, head, head.next);
    ghost var r := [head, node] + s[1..];
    assert Distinct(r);
    forall i | 0 <= i < |r| ensures LinkAt(r, i) {
      if i >= 2 {
        assert old(LinkAt(s, i - 1));
      }
    }
  }

  /** `list_add_tail`: before the head, as in a queue. */
  method AddTail(node: ListHead, head: ListHead, ghost s: seq<ListHead>)
    requires Ring(s) && s[0] == head && node !in s
    modifies node, s
    ensures Ring(s + [node])
  {
    assert LinkAt(s, 0);
    assert LinkAt(s, |s| - 1);
    InsertBetween(node, head.prev, head);
    ghost var r := s + [node];
    assert Distinct(r);
    forall i | 0 <= i < |r| ensures LinkAt(r, i) {
      if i + 1 < |s| {
        assert old(LinkAt(s, i));
      }
    }
  }

  // ---------- deleting ----------

  /** `__list_del` */
  method Unlink(prev: ListHead, next: ListHead)
    modifies prev, next
    ensures prev.next == next && next.prev == prev
    ensures prev != next ==> prev.prev == old(prev.prev) && next.next == old(next.next)
  {
    next.prev := prev;
    prev.next := next;
  }

  /** An entry is taken out of its ring; its own pointers are left as they are. */
  method TakeOut(entry: ListHead, ghost s: seq<ListHead>, ghost k: nat)
    requires Ring(s) && 0 < k < |s| && s[k] == entry
    modifies s[k - 1], s[if k + 1 < |s| then k + 1 else 0]
    ensures Ring(Without(s, k))
  {
    assert LinkAt(s, k - 1) && LinkAt(s, k);
    assert LinkAt(s, if k + 1 < |s| then k + 1 else 0);
    Unlink(entry.prev, entry.next);
    ghost var r := Without(s, k);
    WithoutDistinct(s, k);
    forall i | 0 <= i < |r| ensures LinkAt(r, i) {
      if i < k - 1 {
        assert old(LinkAt(s, i));
      } else if i >= k {
        assert old(LinkAt(s, i + 1));
      }
    }
  }

  lemma WithoutDistinct(s: seq<ListHead>, k: nat)
    requires Distinct(s) && k < |s|
    ensures Distinct(Without(s, k)) && s[k] !in Without(s, k)
    ensures forall i | 0 <= i < |s| - 1 :: Without(s, k)[i] == s[if i < k then i else i + 1]
  {
  }

  /** `list_del` */
  method Delete(entry: ListHead, ghost s: seq<ListHead>, ghost k: nat)
    requires Ring(s) && 0 < k < |s| && s[k] == entry
    modifies s
    ensures Ring(Without(s, k)) && entry.next == null && entry.prev == null
  {
    TakeOut(entry, s, k);
    WithoutDistinct(s, k);
    ghost var r := Without(s, k);
    label Out:
    entry.next := null;
    entry.prev := null;
    forall i | 0 <= i < |r| ensures LinkAt(r, i) {
      assert old@Out(LinkAt(r, i));
    }
  }

  /** `list_del_init`: the entry becomes a ring of its own. */
  method DeleteInit(entry: ListHead, ghost s: seq<ListHead>, ghost k: nat)
    requires Ring(s) && 0 < k < |s| && s[k] == entry
    modifies s
    ensures Ring(Without(s, k)) && Ring([entry])
  {
    TakeOut(entry, s, k);
    WithoutDistinct(s, k);
    ghost var r := Without(s, k);
    label Out:
    entry.next := entry;
    entry.prev := entry;
    forall i | 0 <= i < |r| ensures LinkAt(r, i) {
      assert old@Out(LinkAt(r, i));
    }
  }

  // ---------- moving ----------

  /** `list_move` to another list: out of its own ring, behind the other head. */
  method Move(entry: ListHead, head: ListHead, ghost s: seq<ListHead>, ghost k: nat, ghost t: seq<ListHead>)
    requires Ring(s) && 0 < k < |s| && s[k] == entry
    requires Ring(t) && t[0] == head && Apart(s, t)
    modifies s, t
    ensures Ring(Without(s, k)) && Ring([head, entry] + t[1..])
  {
    TakeOut(entry, s, k);
    WithoutDistinct(s, k);
    ghost var r := Without(s, k);
    label Out:
    forall i | 0 <= i < |t| ensures LinkAt(t, i) {
      assert old(LinkAt(t, i));
    }
    Add(entry, head, t);
    forall i | 0 <= i < |r| ensures LinkAt(r, i) {
      assert old@Out(LinkAt(r, i));
    }
  }

  /** `list_move_tail` to another list. */
  method MoveTail(entry: ListHead, head: ListHead, ghost s: seq<ListHead>, ghost k: nat, ghost t: seq<ListHead>)
    requires Ring(s) && 0 < k < |s| && s[k] == entry
    requires Ring(t) && t[0] == head && Apart(s, t)
    modifies s, t
    ensures Ring(Without(s, k)) && Ring(t + [entry])
  {
    TakeOut(entry, s, k);
    WithoutDistinct(s, k);
    ghost var r := Without(s, k);
    label Out:
    forall i | 0 <= i < |t| ensures LinkAt(t, i) {
      assert old(LinkAt(t, i));
    }
    AddTail(entry, head, t);
    forall i | 0 <= i < |r| ensures LinkAt(r, i) {
      assert old@Out(LinkAt(r, i));
    }
  }

  /** `list_move` within one list: the entry comes first. */
  method MoveToFront(entry: ListHead, head: ListHead, ghost s: seq<ListHead>, ghost k: nat)
    requires Ring(s) && 0 < k < |s| && s[k] == entry && s[0] == head
    modifies s
    ensures Ring([head, entry] + Without(s, k)[1..])
  {
    TakeOut(entry, s, k);
    WithoutDistinct(s, k);
    Add(entry, head, Without(s, k));
  }

  /** `list_move_tail` within one list: the entry comes last. */
  method MoveToBack(entry: ListHead, head: ListHead, ghost s: seq<ListHead>, ghost k: nat)
    requires Ring(s) && 0 < k < |s| && s[k] == entry && s[0] == head
    modifies s
    ensures Ring(Without(s, k) + [entry])
  {
    TakeOut(entry, s, k);
    WithoutDistinct(s, k);
    AddTail(entry, head, Without(s, k));
  }

  // ---------- joining ----------

  /** `list_empty` */
  method Empty(head: ListHead, ghost s: seq<ListHead>) returns (r: bool)
    requires Ring(s) && s[0] == head
    ensures r <==> |s| == 1
  {
    assert LinkAt(s, 0);
    r := head.next == head;
  }

  /** The head of the joined list, the entries of the other one, and its own. */
  function Joined(s: seq<ListHead>, t: seq<ListHead>): seq<ListHead>
    requires |t| > 0 && |s| > 0
  {
    [t[0]] + s[1..] + t[1..]
  }

  lemma JoinedDistinct(s: seq<ListHead>, t: seq<ListHead>)
    requires |t| > 0 && |s| > 0 && Distinct(s) && Distinct(t) && Apart(s, t)
    ensures Distinct(Joined(s, t)) && s[0] !in Joined(s, t)
  {
    var r := Joined(s, t);
    forall i | 0 <= i < |r| ensures r[i] == JoinedAt(s, t, i) {
    }
  }

  function JoinedAt(s: seq<ListHead>, t: seq<ListHead>, i: nat): ListHead
    requires |t| > 0 && |s| > 0 && i < |s| + |t| - 1
  {
    if i == 0 then t[0] else if i < |s| then s[i] else t[i - |s| + 1]
  }

  /** `__list_splice`: the entries of a list that is not empty are linked in behind the
      other head. */
  method SpliceEntries(list: ListHead, head: ListHead, ghost s: seq<ListHead>, ghost t: seq<ListHead>)
    requires Ring(s) && s[0] == list && |s| > 1 && Ring(t) && t[0] == head && Apart(s, t)
    modifies s[1..], t
    ensures Ring(Joined(s, t))
  {
    ghost var tail, end := |s| - 1, |t| - 1;
    assert LinkAt(s, 0) && LinkAt(s, tail) && LinkAt(t, 0) && LinkAt(t, end);
    var first := list.next;
    var last := list.prev;
    var at := head.next;
    assert first == s[1] && last == s[tail] && at == t[if |t| > 1 then 1 else 0];
    first.prev := head;
    head.next := first;
    last.next := at;
    at.prev := last;
    ghost var r := Joined(s, t);
    JoinedDistinct(s, t);
    forall i | 0 <= i < |r| ensures LinkAt(r, i) {
      if 0 < i < |s| - 1 {
        assert old(LinkAt(s, i));
      } else if i >= |s| {
        assert old(LinkAt(t, i - |s| + 1));
      }
    }
  }

  /** `list_splice` */
  method Splice(list: ListHead, head: ListHead, ghost s: seq<ListHead>, ghost t: seq<ListHead>)
    requires Ring(s) && s[0] == list && Ring(t) && t[0] == head && Apart(s, t)
    modifies s, t
    ensures Ring(Joined(s, t))
  {
    var empty := Empty(list, s);
    if !empty {
      SpliceEntries(list, head, s, t);
    } else {
      assert Joined(s, t) == t;
    }
  }

  /** `list_splice_init`: the source list is left empty. */
  method SpliceInit(list: ListHead, head: ListHead, ghost s: seq<ListHead>, ghost t: seq<ListHead>)
    requires Ring(s) && s[0] == list && Ring(t) && t[0] == head && Apart(s, t)
    modifies s, t
    ensures Ring(Joined(s, t)) && Ring([list])
  {
    var empty := Empty(list, s);
    if !empty {
      SpliceEntries(list, head, s, t);
      JoinedDistinct(s, t);
      ghost var r := Joined(s, t);
      label In:
      list.next := list;
      list.prev := list;
      forall i | 0 <= i < |r| ensures LinkAt(r, i) {
        assert old@In(LinkAt(r, i));
      }
    } else {
      assert Joined(s, t) == t && s == [list];
    }
  }

  // ---------- walking ----------

  /** `list_for_each`: the entries in order; the ring is what its sequence says. */
  method Entries(head: ListHead, ghost s: seq<ListHead>) returns (entries: seq<ListHead>)
    requires Ring(s) && s[0] == head
    ensures entries == s[1..]
  {
    entries := [];
    assert LinkAt(s, 0);
    var pos := head.next;
    ghost var k := 1;
    while pos != head
      invariant 1 <= k <= |s| && entries == s[1..k] && pos == s[if k < |s| then k else 0]
      decreases |s| - k
    {
      assert pos == s[k] && LinkAt(s, k);
      entries := entries + [pos];
      pos := pos.next;
      k := k + 1;
    }
  }
}
