/** The tree as its client uses it: descending by key and linking a new node. */
module RbClient {
  import opened RbHeap
  import opened RbRotate
  import opened RbOrder
  import opened RbInsert
  import opened RbLink
  import opened RbSnapshot

  // ----- the client of the tree

  /** A tree its clients may use: red-black, keys in order, augmented values right, leftmost cached. */
  ghost predicate Good(F: Heap, root: Node?, leftmost: Node?) {
    RbTree(F, root) && KeysAscend(F) && IsFirst(F, leftmost)
  }

  lemma RaisedNone(F: Heap, val: int)
    requires Augmented(F, {})
    ensures Raised(F, null, val)
  {
  }

  /** The whole interval suits every key. */
  lemma BelongsRoot(F: Heap, root: Node?, key: int)
    requires Shape(F, root)
    ensures Belongs(F, key, 0.0, 1.0)
  {
    forall m | m in F ensures !(F[m].pos <= 0.0) && !(F[m].pos >= 1.0) {
      AllInside(F, root, m);
    }
  }

  lemma SamePlacesKeys(F: Heap, G: Heap, key: int, lo: real, hi: real)
    requires SamePlaces(F, G)
    ensures KeysAscend(F) ==> KeysAscend(G)
    ensures Belongs(F, key, lo, hi) ==> Belongs(G, key, lo, hi)
    ensures forall l: Node? :: (l == null || l in F) && IsFirst(F, l) ==> IsFirst(G, l)
  {
  }

  /** The slot found by the descent, from what the descent knows of it. */
  lemma SlotFound(F: Heap, root: Node?, p: Node?, goLeft: bool, lo: real, hi: real)
    requires p == null ==> root == null && lo == 0.0 && hi == 1.0
    requires p != null ==>
        && p in F
        && (if goLeft then F[p].left == null && lo == F[p].lo && hi == F[p].pos
            else F[p].right == null && lo == F[p].pos && hi == F[p].hi)
    ensures Slot(F, root, p, goLeft, lo, hi)
  {
  }

  /** The new node keeps the keys in order, and is first exactly when the descent never went right. */
  lemma LinkKeys(F: Heap, root: Node?, n: Node, p: Node?, goLeft: bool, lo: real, hi: real, leftmost: Node?)
    requires
      && Shape(F, root) && n !in F && Slot(F, root, p, goLeft, lo, hi) && KeysAscend(F)
      && Belongs(F, n.key, lo, hi) && IsFirst(F, leftmost)
    ensures KeysAscend(Link(F, n, p, goLeft, lo, hi))
    ensures IsFirst(Link(F, n, p, goLeft, lo, hi), if lo == 0.0 then n else leftmost)
  {
    LinkPlaces(F, root, n, p, goLeft, lo, hi);
    LinkLow(F, root, p, goLeft, lo, hi);
    var G := Link(F, n, p, goLeft, lo, hi);
    forall m | m in F ensures F[m].pos > 0.0 { AllInside(F, root, m); }
    hide Link, Shape, Slot;
  }

  /** A slot that does not start at the left end has a node to its left. */
  lemma LinkLow(F: Heap, root: Node?, p: Node?, goLeft: bool, lo: real, hi: real)
    requires Shape(F, root) && Slot(F, root, p, goLeft, lo, hi)
    ensures 0.0 <= lo && (lo == 0.0 || exists m :: m in F && F[m].pos == lo)
  {
    if p != null {
      AllInside(F, root, p);
      if goLeft { LowIsNode(F, root, p); } else { assert F[p].pos == lo; }
    }
  }

  lemma {:induction false} LowIsNode(F: Heap, root: Node?, n: Node)
    requires Shape(F, root) && n in F
    ensures F[n].lo == 0.0 || exists m :: m in F && F[m].pos == F[n].lo
    decreases Outside(F, n)
  {
    assert Linked(F, root, n);
    var p := F[n].parent;
    if p != null {
      assert Linked(F, root, p);
      Climb(F, root, n);
      if F[p].left == n { LowIsNode(F, root, p); } else { assert F[p].pos == F[n].lo; }
    }
  }

  lemma GoodSlices(F: Heap, q: seq<Node>, i: nat, key: int, lo: real, hi: real)
    requires i <= |q| && (forall m :: m in q ==> m in F) && Belongs(F, key, lo, hi)
    requires (forall j :: 0 <= j < i ==> F[q[j]].pos <= lo) && (forall j :: i <= j < |q| ==> hi <= F[q[j]].pos)
    ensures forall j :: 0 <= j < i ==> q[j].key <= key
    ensures forall j :: i <= j < |q| ==> key < q[j].key
  {
  }

  lemma EmptyFirst(F: Heap, root: Node?)
    requires Shape(F, root) && root == null
    ensures IsFirst(F, null) && IsLast(F, null)
  {
  }

  lemma OpenGood(F: Heap, root: Node?, leftmost: Node?)
    requires Good(F, root, leftmost)
    ensures RbTree(F, root) && KeysAscend(F) && IsFirst(F, leftmost)
    ensures Shape(F, root) && Balanced(F) && Coloured(F, null) && Augmented(F, {}) && !Red(F, root)
    ensures root != null ==> root in F && F[root].lo == 0.0 && F[root].hi == 1.0 && F[root].parent == null
    ensures root == null ==> F == map[]
    ensures leftmost != null ==> leftmost in F
  {
  }

  lemma SameButAugmentedSelf(F: Heap)
    ensures SameButAugmented(F, F)
  {
  }

  lemma SameButAugmentedAt(F: Heap, G: Heap, n: Node)
    requires SameButAugmented(F, G) && n in F
    ensures n in G && G[n] == F[n].(augmented := G[n].augmented)
  {
  }

  lemma SameButAugmentedThrough(F: Heap, G: Heap, H: Heap)
    requires SameButAugmented(F, G) && SameButAugmented(G, H)
    ensures SameButAugmented(F, H)
  {
  }

  /** What the descent learns at node c. */
  lemma DescentStep(F: Heap, root: Node?, key: int, lo: real, hi: real, c: Node)
    requires Shape(F, root) && KeysAscend(F) && c in F && Belongs(F, key, lo, hi) && F[c].lo == lo && F[c].hi == hi
    ensures key < c.key ==> Belongs(F, key, lo, F[c].pos)
    ensures key >= c.key ==> Belongs(F, key, F[c].pos, hi)
    ensures lo < F[c].pos
    ensures F[c].left != null ==>
        && F[c].left in F && F[F[c].left].parent == c && F[F[c].left].lo == lo
        && F[F[c].left].hi == F[c].pos && Below(F, F[c].left) < Below(F, c)
    ensures F[c].right != null ==>
        && F[c].right in F && F[F[c].right].parent == c && F[F[c].right].lo == F[c].pos
        && F[F[c].right].hi == hi && Below(F, F[c].right) < Below(F, c)
  {
    BelongsDown(F, root, key, lo, hi, c);
    Descend(F, root, c);
    assert Linked(F, root, c);
  }

  lemma SnapLink(F: Heap, S: set<Node>, n: Node, p: Node?, goLeft: bool, lo: real, hi: real)
    requires F.Keys == S && n !in S && (p != null ==> p in S)
    requires n.Get() == Fields(null, null, p, true, n.val, (lo + hi) / 2.0, lo, hi, 0)
    requires p != null ==> p.Get() == if goLeft then F[p].(left := n) else F[p].(right := n)
    requires forall m :: m in S && m != p ==> m.Get() == F[m]
    ensures Snap(S + {n}) == Link(F, n, p, goLeft, lo, hi)
  {
    forall m | m in S + {n} ensures m.Get() == LinkedAt(F, n, p, goLeft, lo, hi, m) {}
  }

  /** Once linked, the tree is ready for rebalancing. */
  lemma LinkReady(F0: Heap, F: Heap, root: Node?, n: Node, p: Node?, goLeft: bool, lo: real, hi: real)
    requires
      && RbTree(F0, root) && SameButAugmented(F0, F) && n !in F0 && Slot(F0, root, p, goLeft, lo, hi)
      && Raised(F, p, n.val)
    ensures
      AlmostRb(Link(F, n, p, goLeft, lo, hi), if p == null then n else root, n) && Slot(F, root, p, goLeft, lo, hi)
  {
    OpenRbTree(F0, root);
    SameButAugmentedShape(F0, F, root);
    SameButAugmentedColours(F0, F, null);
    assert Red(F, root) == Red(F0, root);
    assert Slot(F, root, p, goLeft, lo, hi);
    assert n !in F;
    hide *;
    LinkAlmostRb(F, root, n, p, goLeft, lo, hi);
  }

  /** After rebalancing, the tree is good and the node stands where its key belongs. */
  lemma InsertDone(F0: Heap, F: Heap, root: Node?, n: Node, p: Node?, goLeft: bool, lo: real, hi: real,
      leftmost: Node?, G: Heap, root': Node?)
    requires
      && Good(F0, root, leftmost) && SameButAugmented(F0, F) && n !in F0
      && Slot(F, root, p, goLeft, lo, hi) && Belongs(F0, n.key, lo, hi)
    requires AlmostRb(Link(F, n, p, goLeft, lo, hi), if p == null then n else root, n)
    requires SamePlaces(Link(F, n, p, goLeft, lo, hi), G) && RbTree(G, root')
    ensures Good(G, root', if lo == 0.0 then n else leftmost)
    ensures Shape(F0, root) && Shape(G, root') && (root != null ==> root in F0) && (root' != null ==> root' in G)
    ensures InsertedByKey(Traverse(F0, root, root), Traverse(G, root', root'), n)
  {
    hide *;
    var L, top := Link(F, n, p, goLeft, lo, hi), if p == null then n else root;
    OpenGood(F0, root, leftmost);
    OpenRbTree(G, root');
    OpenAlmostRb(L, top, n);
    SameButAugmentedShape(F0, F, root);
    SamePlacesKeys(F0, F, n.key, lo, hi);
    RootIn(F, root);
    RootIn(L, top);
    SameButAugmentedOut(F0, F, n, leftmost);
    LinkKeys(F, root, n, p, goLeft, lo, hi, leftmost);
    var l := if lo == 0.0 then n else leftmost;
    FirstIn(L, l);
    SamePlacesKeys(L, G, n.key, lo, hi);
    MakeGood(G, root', l);
    var q := Traverse(F, root, root);
    var i := LinkOrder(F, root, n, p, goLeft, lo, hi);
    GoodSlices(F, q, i, n.key, lo, hi);
    SameOrder(F0, root, F, root);
    SameOrder(L, top, G, root');
    MakeInserted(q, i, Traverse(G, root', root'), n);
  }

  lemma SameButAugmentedOut(F: Heap, G: Heap, n: Node, l: Node?)
    requires SameButAugmented(F, G) && n !in F
    ensures n !in G && (l != null && l in F ==> l in G)
  {
  }

  lemma FirstIn(F: Heap, r: Node?)
    requires IsFirst(F, r)
    ensures r != null ==> r in F
  {
  }

  lemma MakeGood(F: Heap, root: Node?, leftmost: Node?)
    requires RbTree(F, root) && KeysAscend(F) && IsFirst(F, leftmost)
    ensures Good(F, root, leftmost)
  {
  }
}
