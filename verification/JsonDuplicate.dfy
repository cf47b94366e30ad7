/** Copying and freeing trees of JSON nodes. */
module JsonDuplicate {
  import opened JsonNodes
  import opened Optional

  /** Which nodes make up a tree. References share their children, so a node may occur
      more than once. */
  datatype Shape = Shape(node: Node, kids: seq<Shape>)

  /** What a tree holds, whatever nodes it is made of. */
  datatype Tree = Tree(kind: nat, n: int, text: Option<string>, key: Option<string>, kids: seq<Tree>)

  ghost function Roots(kids: seq<Shape>): (r: seq<Node>)
    ensures |r| == |kids| && forall k | 0 <= k < |kids| :: r[k] == kids[k].node
  {
    if |kids| == 0 then [] else [kids[0].node] + Roots(kids[1..])
  }

  /** All nodes of a tree, and of several. */
  ghost function Nodes(sh: Shape): set<Node>
    decreases sh, 1
  {
    {sh.node} + AllNodes(sh.kids)
  }

  ghost function AllNodes(kids: seq<Shape>): set<Node>
    decreases kids, 0
  {
    if |kids| == 0 then {} else Nodes(kids[0]) + AllNodes(kids[1..])
  }

  lemma {:induction false} KidNodes(kids: seq<Shape>, k: nat)
    requires k < |kids|
    ensures Nodes(kids[k]) <= AllNodes(kids) && kids[k].node in AllNodes(kids)
    decreases k
  {
    if k > 0 {
      KidNodes(kids[1..], k - 1);
    }
  }

  lemma {:induction false} RootsInside(kids: seq<Shape>)
    ensures forall n | n in Roots(kids) :: n in AllNodes(kids)
  {
    forall k | 0 <= k < |kids| ensures kids[k].node in AllNodes(kids) {
      KidNodes(kids, k);
    }
  }

  /** The nodes below the roots. */
  ghost function Below(kids: seq<Shape>): set<Node> {
    if |kids| == 0 then {} else AllNodes(kids[0].kids) + Below(kids[1..])
  }

  lemma {:induction false} NodesAre(kids: seq<Shape>)
    ensures AllNodes(kids) == Below(kids) + (set n | n in Roots(kids))
    decreases kids
  {
    if |kids| > 0 {
      NodesAre(kids[1..]);
    }
  }

  /** The child pointers and the chains below follow the shape. */
  ghost predicate Well(sh: Shape)
    reads AllNodes(sh.kids), sh.node`child
    decreases sh, 1
  {
    RootsInside(sh.kids);
    NodesAre(sh.kids);
    Chain(sh.node.child, Roots(sh.kids)) && AllWell(sh.kids)
  }

  ghost predicate AllWell(kids: seq<Shape>)
    reads Below(kids), Roots(kids)`child
    decreases kids, 0
  {
    |kids| > 0 ==> Well(kids[0]) && AllWell(kids[1..])
  }

  ghost function Content(sh: Shape): Tree
    reads AllNodes(sh.kids), sh.node`kind, sh.node`valueint, sh.node`valuestring, sh.node`key
    decreases sh, 1
  {
    NodesAre(sh.kids);
    Tree(sh.node.kind, sh.node.valueint, sh.node.valuestring, sh.node.key, Contents(sh.kids))
  }

  ghost function Contents(kids: seq<Shape>): (r: seq<Tree>)
    reads Below(kids), Roots(kids)`kind, Roots(kids)`valueint, Roots(kids)`valuestring, Roots(kids)`key
    ensures |r| == |kids|
    decreases kids, 0
  {
    if |kids| == 0 then [] else [Content(kids[0])] + Contents(kids[1..])
  }

  /** No node occurs twice. */
  ghost predicate Separate(sh: Shape)
    decreases sh, 1
  {
    sh.node !in AllNodes(sh.kids) && AllSeparate(sh.kids)
  }

  ghost predicate AllSeparate(kids: seq<Shape>)
    decreases kids, 0
  {
    |kids| > 0 ==> Separate(kids[0]) && Nodes(kids[0]) !! AllNodes(kids[1..]) && AllSeparate(kids[1..])
  }

  // ---------- one more child ----------

  lemma {:induction false} NodesAppend(kids: seq<Shape>, sh: Shape)
    ensures AllNodes(kids + [sh]) == AllNodes(kids) + Nodes(sh)
    ensures Roots(kids + [sh]) == Roots(kids) + [sh.node]
    decreases kids
  {
    hide Nodes;
    var all := kids + [sh];
    if |kids| == 0 {
      assert all == [sh] && all[1..] == [];
    } else {
      NodesAppend(kids[1..], sh);
      assert all[0] == kids[0] && all[1..] == kids[1..] + [sh];
    }
  }

  lemma {:induction false} WellAppend(kids: seq<Shape>, sh: Shape)
    ensures AllWell(kids + [sh]) <==> AllWell(kids) && Well(sh)
    ensures Contents(kids + [sh]) == Contents(kids) + [Content(sh)]
    decreases kids
  {
    hide Well, Content;
    var all := kids + [sh];
    if |kids| == 0 {
      assert all == [sh] && all[1..] == [];
    } else {
      WellAppend(kids[1..], sh);
      assert all[0] == kids[0] && all[1..] == kids[1..] + [sh];
    }
  }

  lemma {:induction false} SeparateAppend(kids: seq<Shape>, sh: Shape)
    requires AllSeparate(kids) && Separate(sh) && AllNodes(kids) !! Nodes(sh)
    ensures AllSeparate(kids + [sh])
    decreases kids
  {
    hide Nodes, Separate;
    var all := kids + [sh];
    if |kids| == 0 {
      assert all == [sh] && all[1..] == [];
    } else {
      SeparateAppend(kids[1..], sh);
      assert all[0] == kids[0] && all[1..] == kids[1..] + [sh];
      NodesAppend(kids[1..], sh);
    }
  }

  // ---------- copying ----------

  /** All fields but the links; a copy is never a reference. */
  method CopyFields(item: Node) returns (copy: Node)
    ensures fresh(copy) && Alone(copy) && copy.child == null && !copy.isReference
    ensures copy.kind == item.kind && copy.valueint == item.valueint
    ensures copy.valuestring == item.valuestring && copy.key == item.key
  {
    copy := new Node();
    copy.kind, copy.isReference := item.kind, false;
    copy.valueint := item.valueint;
    copy.valuestring := item.valuestring;
    copy.key := item.key;
  }

  /** A copied child joins the ones before it. */
  method LinkChild(copy: Node, nptr: Node?, newchild: Node, ghost s: seq<Node>)
    requires Children(copy, s) && newchild != copy && newchild !in s && Alone(newchild)
    requires nptr == if |s| == 0 then null else s[|s| - 1]
    modifies copy`child, newchild`prev, s`next
    ensures Children(copy, s + [newchild])
  {
    ghost var r := s + [newchild];
    if nptr != null {
      assert LinkAt(s, |s| - 1);
      nptr.next := newchild;
      newchild.prev := nptr;
    } else {
      copy.child := newchild;
    }
    forall i | 0 <= i < |r| ensures LinkAt(r, i) {
      if i < |s| {
        assert old(LinkAt(s, i));
      }
    }
  }

  lemma {:induction false} RootsNotBelow(kids: seq<Shape>)
    requires AllSeparate(kids)
    ensures forall n | n in Roots(kids) :: n !in Below(kids)
    decreases kids
  {
    if |kids| > 0 {
      RootsNotBelow(kids[1..]);
      NodesAre(kids[1..]);
    }
  }

  lemma {:induction false} WellAt(kids: seq<Shape>, k: nat)
    requires AllWell(kids) && k < |kids|
    ensures Well(kids[k]) && Contents(kids)[k] == Content(kids[k])
    decreases k
  {
    hide Well, Content;
    if k > 0 {
      WellAt(kids[1..], k - 1);
    }
  }

  /** The copies made so far: a chain of trees of their own, with the contents of the
      first children. */
  ghost predicate Copied(copy: Node, copies: seq<Shape>, contents: seq<Tree>)
    reads copy, AllNodes(copies)
  {
    RootsInside(copies);
    NodesAre(copies);
    copy !in AllNodes(copies) && Children(copy, Roots(copies)) && AllWell(copies) && AllSeparate(copies)
    && Contents(copies) == contents
  }

  lemma NodesOf(sh: Shape)
    ensures Nodes(sh) == {sh.node} + AllNodes(sh.kids)
  {
  }

  /** A child is copied and linked in; `mine` and `theirs` are the nodes copied so far
      and those of the child. */
  method AddCopy(copy: Node, nptr: Node?, newchild: Node, ghost copies: seq<Shape>, ghost contents: seq<Tree>, ghost nsh: Shape,
                 ghost mine: set<Node>, ghost theirs: set<Node>)
    requires mine == AllNodes(copies) && theirs == Nodes(nsh) && mine !! theirs && copy !in theirs
    requires Copied(copy, copies, contents) && nptr == if |copies| == 0 then null else copies[|copies| - 1].node
    requires nsh.node == newchild && Well(nsh) && Separate(nsh) && Alone(newchild)
    modifies copy`child, newchild`prev, mine`next
    ensures Copied(copy, copies + [nsh], contents + [old(Content(nsh))])
  {
    hide Chain, Well, Content, Separate, AllWell, AllSeparate, Contents, Roots, Below, AllNodes;
    RootsInside(copies);
    RootsNotBelow(copies);
    NodesAre(copies);
    NodesOf(nsh);
    SeparateParts(nsh);
    NodesAppend(copies, nsh);
    LinkChild(copy, nptr, newchild, Roots(copies));
    assert AllWell(copies) && Contents(copies) == contents;
    assert Well(nsh) && Content(nsh) == old(Content(nsh));
    WellAppend(copies, nsh);
    SeparateAppend(copies, nsh);
  }

  lemma SeparateParts(sh: Shape)
    requires Separate(sh)
    ensures sh.node !in AllNodes(sh.kids)
  {
  }

  /** The loop of `cJSON_Duplicate`: the children are copied one by one and linked in. */
  method CopyChildren(item: Node, copy: Node, ghost sh: Shape) returns (ghost copies: seq<Shape>)
    requires sh.node == item && Well(sh) && copy !in AllNodes(sh.kids) + {item} && Copied(copy, [], []) && SameFields(copy, item)
    modifies copy`child
    ensures fresh(AllNodes(copies)) && copy !in AllNodes(copies) && SameFields(copy, item)
    ensures Copied(copy, copies, old(Content(sh)).kids)
    ensures Content(sh) == old(Content(sh))
    decreases sh, 0
  {
    hide Chain, Separate, Well, Copied, AllNodes, Nodes, Content, Contents, Roots, AllWell;
    KidsAllocated(sh.kids);
    NoNodes();
    ghost var contents := Content(sh).kids;
    ContentIs(sh);
    copies := [];
    ghost var mine: set<Node> := {};
    var cptr := item.child;
    var nptr: Node? := null;
    WellParts(sh);
    while cptr != null
      invariant |copies| <= |sh.kids| && cptr == (if |copies| < |sh.kids| then sh.kids[|copies|].node else null)
      invariant nptr == if |copies| == 0 then null else copies[|copies| - 1].node
      invariant Well(sh) && Content(sh) == old(Content(sh))
      invariant mine == AllNodes(copies) && fresh(mine) && copy !in mine
      invariant Copied(copy, copies, contents[..|copies|])
      invariant unchanged(item) && SameFields(copy, item)
      decreases |sh.kids| - |copies|
    {
      ghost var k := |copies|;
      WellParts(sh);
      WellAt(sh.kids, k);
      ChainLink(sh, k);
      KidNodes(sh.kids, k);
      ContentIs(sh);
      assert contents[k] == Content(sh.kids[k]);
      RootsInside(copies);
      ghost var after := cptr.next;
      var newchild: Node;
      ghost var nsh: Shape;
      newchild, nsh := Duplicate(cptr, true, sh.kids[k]);
      NodesOf(nsh);
      NodesAppend(copies, nsh);
      assert Content(nsh) == contents[k] && contents[..k] + [contents[k]] == contents[..k + 1];
      AddCopy(copy, nptr, newchild, copies, contents[..k], nsh, mine, Nodes(nsh));
      mine := mine + Nodes(nsh);
      copies := copies + [nsh];
      nptr := newchild;
      assert cptr.next == after;
      cptr := cptr.next;
    }
    assert contents[..|copies|] == contents;
  }

  lemma NoNodes()
    ensures AllNodes([]) == {}
  {
  }

  /** `cJSON_Duplicate`: the copy of a tree is an equal tree of new nodes only, none of
      them twice; without recursion it is the node alone. */
  method Duplicate(item: Node, recurse: bool, ghost sh: Shape) returns (copy: Node, ghost made: Shape)
    requires sh.node == item && Well(sh)
    ensures made.node == copy && fresh(Nodes(made)) && Well(made) && Separate(made) && Alone(copy) && !copy.isReference
    ensures Content(made) == if recurse then old(Content(sh)) else old(Content(sh)).(kids := [])
    decreases sh, 1
  {
    hide Chain, Separate, Well, Copied, AllNodes, Nodes, Content, Contents, Roots, AllWell;
    KidsAllocated(sh.kids);
    ContentIs(sh);
    copy := CopyFields(item);
    ghost var copies: seq<Shape> := [];
    NoCopies(copy);
    ContentIs(sh);
    ghost var kids: seq<Tree> := [];
    if recurse {
      kids := Content(sh).kids;
      copies := CopyChildren(item, copy, sh);
    }
    made := Shape(copy, copies);
    NodesOf(made);
    ContentIs(made);
    ContentIs(sh);
    WholeCopy(made, kids);
  }

  /** A copy agrees with its original and is linked to nothing yet. */
  predicate SameFields(copy: Node, item: Node)
    reads copy, item
  {
    Alone(copy) && !copy.isReference && copy.kind == item.kind && copy.valueint == item.valueint
    && copy.valuestring == item.valuestring && copy.key == item.key
  }

  lemma ContentIs(sh: Shape)
    ensures Content(sh) == Tree(sh.node.kind, sh.node.valueint, sh.node.valuestring, sh.node.key, Contents(sh.kids))
    ensures |Contents(sh.kids)| == |sh.kids|
  {
  }

  /** The nodes of a shape at hand exist already. */
  lemma {:induction false} KidsAllocated(kids: seq<Shape>)
    ensures forall n | n in AllNodes(kids) :: allocated(n)
    decreases kids
  {
    if |kids| > 0 {
      var first := kids[0];
      KidsAllocated(first.kids);
      KidsAllocated(kids[1..]);
      NodesOf(first);
      assert AllNodes(kids) == Nodes(first) + AllNodes(kids[1..]);
      forall n | n in AllNodes(kids) ensures allocated(n) {
        assert n == first.node || n in AllNodes(first.kids) || n in AllNodes(kids[1..]);
      }
    }
  }

  lemma WholeCopy(made: Shape, contents: seq<Tree>)
    requires Copied(made.node, made.kids, contents)
    ensures Well(made) && Separate(made) && Content(made).kids == contents
  {
  }

  lemma NoCopies(copy: Node)
    requires copy.child == null
    ensures Copied(copy, [], []) && AllNodes([]) == {}
  {
  }

  lemma WellParts(sh: Shape)
    requires Well(sh)
    ensures AllWell(sh.kids) && sh.node.child == (if |sh.kids| == 0 then null else sh.kids[0].node)
  {
  }

  /** From one child to the next. */
  lemma ChainLink(sh: Shape, k: nat)
    requires Well(sh) && k < |sh.kids|
    ensures sh.kids[k].node.next == if k + 1 < |sh.kids| then sh.kids[k + 1].node else null
  {
    assert LinkAt(Roots(sh.kids), k);
  }

  // ---------- freeing ----------

  /** The nodes that belong to a tree, in the order they are freed: a reference does not
      own its children. */
  ghost function Owned(sh: Shape): seq<Node>
    reads Nodes(sh)`isReference
    decreases sh, 1
  {
    (if sh.node.isReference then [] else AllOwned(sh.kids)) + [sh.node]
  }

  ghost function AllOwned(kids: seq<Shape>): seq<Node>
    reads AllNodes(kids)`isReference
    decreases kids, 0
  {
    if |kids| == 0 then [] else Owned(kids[0]) + AllOwned(kids[1..])
  }

  lemma OwnedStep(kids: seq<Shape>, k: nat)
    requires k < |kids|
    ensures AllOwned(kids[k..]) == Owned(kids[k]) + AllOwned(kids[k + 1..])
  {
    hide Owned;
    assert kids[k..][0] == kids[k] && kids[k..][1..] == kids[k + 1..];
  }

  /** What `cJSON_Delete` does with one node of a chain. */
  method DeleteNode(c: Node, ghost sh: Shape) returns (freed: seq<Node>)
    requires sh.node == c && Well(sh)
    ensures freed == old(Owned(sh))
    decreases sh, 1
  {
    hide AllWell, AllOwned, Owned, Well;
    OwnedIs(sh);
    WellParts(sh);
    WellChain(sh);
    freed := [];
    if !c.isReference && c.child != null {
      freed := Delete(c.child, sh.kids);
    }
    freed := freed + [c];
  }

  /** `cJSON_Delete` on a chain: what is freed, in order. On an item that surgery has
      left alone it frees that item's tree and nothing else. */
  method Delete(first: Node?, ghost kids: seq<Shape>) returns (freed: seq<Node>)
    requires AllWell(kids) && Chain(first, Roots(kids))
    ensures freed == old(AllOwned(kids))
    decreases kids, 0
  {
    hide AllWell, AllOwned, Owned, Well, AllNodes, Below, Chain, Roots, Nodes;
    KidsAllocated(kids);
    ghost var source := AllNodes(kids);
    NodesAre(kids);
    NothingOwned();
    forall j | 0 <= j < |kids|
      ensures AllOwned(kids[j..]) == Owned(kids[j]) + AllOwned(kids[j + 1..]) && Well(kids[j])
      ensures kids[j].node.next == if j + 1 < |kids| then kids[j + 1].node else null
    {
      OwnedStep(kids, j);
      WellAt(kids, j);
      ChainAt(first, kids, j);
    }
    assert kids[0..] == kids;
    freed := [];
    var c := first;
    ghost var k := 0;
    ChainAt(first, kids, 0);
    while c != null
      invariant k <= |kids| && c == (if k < |kids| then kids[k].node else null)
      invariant freed + old(AllOwned(kids[k..])) == old(AllOwned(kids))
      decreases |kids| - k
    {
      KidNodes(kids, k);
      NodesOf(kids[k]);
      assert Well(kids[k]) == old(Well(kids[k]));
      assert Owned(kids[k]) == old(Owned(kids[k]));
      var next := c.next;
      var part := DeleteNode(c, kids[k]);
      freed := freed + part;
      c := next;
      k := k + 1;
    }
    assert kids[k..] == [];
  }

  lemma ChainAt(first: Node?, kids: seq<Shape>, k: nat)
    requires Chain(first, Roots(kids))
    ensures first == if |kids| == 0 then null else kids[0].node
    ensures k < |kids| ==> kids[k].node.next == if k + 1 < |kids| then kids[k + 1].node else null
  {
    hide Roots;
    if k < |kids| {
      assert LinkAt(Roots(kids), k);
    }
  }

  lemma NothingOwned()
    ensures AllOwned([]) == []
  {
  }

  lemma OwnedIs(sh: Shape)
    ensures Owned(sh) == (if sh.node.isReference then [] else AllOwned(sh.kids)) + [sh.node]
    ensures |sh.kids| == 0 ==> AllOwned(sh.kids) == []
  {
  }

  lemma WellChain(sh: Shape)
    requires Well(sh)
    ensures Chain(sh.node.child, Roots(sh.kids))
  {
  }

  lemma {:induction false} OwnedInside(sh: Shape)
    ensures forall n | n in Owned(sh) :: n in Nodes(sh)
    decreases sh, 1
  {
    AllOwnedInside(sh.kids);
  }

  lemma {:induction false} AllOwnedInside(kids: seq<Shape>)
    ensures forall n | n in AllOwned(kids) :: n in AllNodes(kids)
    decreases kids, 0
  {
    hide Owned, Nodes;
    if |kids| > 0 {
      OwnedInside(kids[0]);
      AllOwnedInside(kids[1..]);
    }
  }

  /** Freeing a tree in which no node occurs twice, such as a copy, frees no node twice. */
  lemma {:induction false} FreedOnce(kids: seq<Shape>)
    requires AllSeparate(kids)
    ensures Distinct(AllOwned(kids))
    decreases kids, 0
  {
    hide Owned, Nodes, Separate;
    if |kids| > 0 {
      TreeFreedOnce(kids[0]);
      FreedOnce(kids[1..]);
      OwnedInside(kids[0]);
      AllOwnedInside(kids[1..]);
      var a, b := Owned(kids[0]), AllOwned(kids[1..]);
      forall i, j | 0 <= i < j < |a + b| ensures (a + b)[i] != (a + b)[j] {
        assert i < |a| <= j ==> a[i] in a && b[j - |a|] in b;
      }
    }
  }

  lemma {:induction false} TreeFreedOnce(sh: Shape)
    requires Separate(sh)
    ensures Distinct(Owned(sh))
    decreases sh, 1
  {
    FreedOnce(sh.kids);
    AllOwnedInside(sh.kids);
    var a := AllOwned(sh.kids);
    assert forall i | 0 <= i < |a| :: a[i] in a;
  }

  // ---------- surgery that frees ----------

  /** The parent is not in the tree, and these nodes are not below its root. */
  ghost predicate Clear(sh: Shape, s: seq<Node>, parent: Node) {
    parent !in Nodes(sh) && forall n | n in s :: n !in AllNodes(sh.kids)
  }

  lemma OneTree(sh: Shape)
    ensures AllWell([sh]) <==> Well(sh)
    ensures AllOwned([sh]) == Owned(sh) && Roots([sh]) == [sh.node]
  {
    hide Well, Owned;
    assert [sh][1..] == [];
    NothingOwned();
  }

  /** `cJSON_ReplaceItemInArray`: the new item takes the place of the old one, whose tree is freed. */
  method ReplaceItemInArray(parent: Node, which: int, newitem: Node, ghost s: seq<Node>, ghost gone: Shape) returns (freed: seq<Node>)
    requires Children(parent, s) && newitem != parent && newitem !in s
    requires Position(which) < |s| ==>
               gone.node == s[Position(which)] && Well(gone) && Clear(gone, s, parent) && newitem !in Nodes(gone)
    modifies parent`child, newitem`next, newitem`prev, s`next, s`prev
    ensures var k := Position(which);
            if k < |s| then Children(parent, s[k := newitem]) && freed == old(Owned(gone))
            else freed == [] && Children(parent, s) && unchanged(parent) && unchanged(newitem) && unchanged(s)
  {
    hide Well, Owned, Chain;
    freed := [];
    NodesOf(gone);
    KidsAllocated(gone.kids);
    ghost var mine := AllNodes(gone.kids);
    assert Position(which) < |s| ==> forall n | n in mine :: n !in s;
    var c := ReplaceLinks(parent, which, newitem, s);
    if c != null {
      OneTree(gone);
      assert Chain(c, [c]) by { AloneChain(c); }
      assert Well(gone);
      freed := Delete(c, [gone]);
    }
  }

  lemma AloneChain(c: Node)
    requires Alone(c)
    ensures Chain(c, [c])
  {
  }

  /** `cJSON_DeleteItemFromArray` */
  method DeleteItemFromArray(parent: Node, which: int, ghost s: seq<Node>, ghost gone: Shape) returns (freed: seq<Node>)
    requires Children(parent, s)
    requires Position(which) < |s| ==> gone.node == s[Position(which)] && Well(gone) && Clear(gone, s, parent)
    modifies parent`child, s`next, s`prev
    ensures var k := Position(which);
            if k < |s| then Children(parent, Without(s, k)) && freed == old(Owned(gone))
            else freed == [] && Children(parent, s) && unchanged(parent) && unchanged(s)
  {
    hide Well, Owned, Chain;
    freed := [];
    NodesOf(gone);
    KidsAllocated(gone.kids);
    ghost var mine := AllNodes(gone.kids);
    assert Position(which) < |s| ==> forall n | n in mine :: n !in s;
    var c := DetachItemFromArray(parent, which, s);
    if c != null {
      OneTree(gone);
      assert Chain(c, [c]) by { AloneChain(c); }
      assert Well(gone);
      freed := Delete(c, [gone]);
    }
  }
}
