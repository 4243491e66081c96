/** What the assignments of __rb_insert do, one block at a time. */
module RbInsertSteps {
  import opened RbHeap
  import opened RbRotate
  import opened RbOrder
  import opened RbInsert
  import opened RbSnapshot

  // ----- cases 2 and 3 of __rb_insert, for a parent that is a left child

  /** The tree after case 2's own assignments: x hangs from p still, and g still points to p. */
  ghost function HalfLeft(F: Heap, p: Node, x: Node): Heap
    requires p in F && x in F
  {
    map n | n in F :: HalvedLeft(F, p, x, n)
  }

  ghost function HalvedLeft(F: Heap, p: Node, x: Node, n: Node): Fields
    requires p in F && x in F && n in F
  {
    if n == p then RotatedLeft(F, p, x, true, F[p].bh, n)
    else if n == x then RotatedLeft(F, p, x, true, F[p].bh, n).(parent := p)
    else if n == F[x].left then F[n].(parent := p)
    else F[n]
  }

  lemma OuterReadyLeft(F: Heap, root: Node?, g: Node, p: Node, x: Node)
    requires AlmostRb(F, root, x) && F[x].parent == p && p in F && Red(F, p) && F[p].parent == g && g in F
    requires F[g].left == p && F[p].left == x && !Red(F, F[g].right)
    ensures F[g].bh > 0 && Rotatable(F, root, g, p, F[p].right) && !Red(F, F[p].right)
    ensures F[g].right != null ==> F[g].right in F && F[g].right != g && F[g].right != p && F[g].right != F[g].parent
  {
    assert Linked(F, root, x) && Linked(F, root, p) && Linked(F, root, g) && BhOk(F, g) && RedOk(F, p, x);
    if F[g].right != null { assert Linked(F, root, F[g].right); }
    if F[p].right != null { assert Linked(F, root, F[p].right); }
    if F[g].parent != null { assert Linked(F, root, F[g].parent); }
  }

  lemma InnerDistinctLeft(F: Heap, root: Node?, g: Node, p: Node, x: Node)
    requires AlmostRb(F, root, x) && F[x].parent == p && p in F && Red(F, p) && F[p].parent == g && g in F
    requires F[g].left == p && F[p].right == x && !Red(F, F[g].right)
    ensures x in F && x != p && x != g && p != g && F[g].bh > 0 && F[x].red
    ensures var l, r, u, t := F[x].left, F[x].right, F[g].parent, F[g].right;
      && !Red(F, l) && !Red(F, r)
      && (l != null ==> l in F && l != x && l != p && l != g && l != r && l != u && l != t)
      && (r != null ==> r in F && r != x && r != p && r != g && r != u && r != t)
      && (u != null ==>
            && u in F && u != x && u != p && u != g && u != t && root != g && root != x
            && (F[u].left == g) != (F[u].right == g))
      && (t != null ==> t in F && t != g && t != p && t != x)
      && (u == null ==> root == g)
  {
    assert
      && Linked(F, root, x) && Linked(F, root, p) && Linked(F, root, g) && BhOk(F, g) && RedOk(F, x, x)
      && F[root].parent == null;
    var l, r, u, t := F[x].left, F[x].right, F[g].parent, F[g].right;
    if l != null { assert Linked(F, root, l); }
    if r != null { assert Linked(F, root, r); }
    if t != null { assert Linked(F, root, t); }
    if u != null { assert Linked(F, root, u); }
    hide Shape, Balanced, Coloured, Augmented;
  }

  /** Case 3 overwrites both stale links. */
  lemma HalfRotateLeft(F: Heap, g: Node, p: Node, x: Node, bh: nat)
    requires
      && p in F && x in F && g in F && x != p && x != g && p != g && F[p].parent == g && F[g].left == p
      && F[g].right != p && F[g].parent != x && F[g].parent != p
    requires F[x].right != p && F[x].right != x
    requires var l := F[x].left;
      l == null || (l != x && l != p && l != g && l != F[g].parent && l != F[x].right && l != F[g].right)
    ensures HalfLeft(F, p, x).Keys == F.Keys == RotateLeft(F, p, x, true, F[p].bh).Keys
    ensures RotateRight(HalfLeft(F, p, x), g, x, true, bh) ==
        RotateRight(RotateLeft(F, p, x, true, F[p].bh), g, x, true, bh)
  {
    var H, M := HalfLeft(F, p, x), RotateLeft(F, p, x, true, F[p].bh);
    HalfRecomputeLeft(F, g, p, x);
    hide Recompute;
    forall n | n in F ensures RotatedRight(H, g, x, true, bh, n) == RotatedRight(M, g, x, true, bh, n) {
    }
  }

  lemma HalfRecomputeLeft(F: Heap, g: Node, p: Node, x: Node)
    requires
      p in F && x in F && g in F && x != p && x != g && p != g && F[p].parent == g && F[x].left != p && F[x].left != x
    ensures Recompute(HalfLeft(F, p, x), g.val, F[x].right, F[g].right) ==
        Recompute(RotateLeft(F, p, x, true, F[p].bh), g.val, F[x].right, F[g].right)
  {
    var H, M := HalfLeft(F, p, x), RotateLeft(F, p, x, true, F[p].bh);
    forall n | n in F ensures H[n].augmented == M[n].augmented {}
    RecomputeSame(M, H, g.val, F[x].right, F[g].right);
  }

  lemma HalfAtLeft(F: Heap, g: Node, p: Node, x: Node, n: Node)
    requires p in F && x in F && n in F && n != p && n != x && x != p
    ensures HalfLeft(F, p, x).Keys == F.Keys
    ensures HalfLeft(F, p, x)[x].right == F[x].right
    ensures n != F[x].left ==> HalfLeft(F, p, x)[n] == F[n]
  {
  }

  lemma HalfReadyLeft(F: Heap, root: Node?, g: Node, p: Node, x: Node)
    requires AlmostRb(F, root, x) && F[x].parent == p && p in F && Red(F, p) && F[p].parent == g && g in F
    requires F[g].left == p && F[p].right == x && !Red(F, F[g].right)
    ensures var H := HalfLeft(F, p, x);
      && H.Keys == F.Keys && F[g].bh == H[g].bh > 0 && Rotatable(H, root, g, x, F[x].right)
      && !Red(H, F[x].right) && H[x].right == F[x].right
      && H[g].right == F[g].right && H[g].parent == F[g].parent
      && (F[g].right != null ==> F[g].right in F && F[g].right != g && F[g].right != x && F[g].right != F[g].parent)
      && RotateRight(H, g, x, true, F[g].bh - 1) ==
           RotateRight(RotateLeft(F, p, x, true, F[p].bh), g, x, true, F[g].bh - 1)
    ensures !Red(F, F[x].left)
  {
    hide *;
    InnerDistinctLeft(F, root, g, p, x);
    HalfRotateLeft(F, g, p, x, F[g].bh - 1);
    var u, r, H := F[g].parent, F[x].right, HalfLeft(F, p, x);
    HalfAtLeft(F, g, p, x, g);
    if u != null { HalfAtLeft(F, g, p, x, u); }
    if r != null { HalfAtLeft(F, g, p, x, r); }
    MakeRotatable(H, root, g, x, r);
    RedSame(F, H, r);
  }

  // ----- cases 2 and 3 of __rb_insert, for a parent that is a right child

  /** The tree after case 2's own assignments: x hangs from p still, and g still points to p. */
  ghost function HalfRight(F: Heap, p: Node, x: Node): Heap
    requires p in F && x in F
  {
    map n | n in F :: HalvedRight(F, p, x, n)
  }

  ghost function HalvedRight(F: Heap, p: Node, x: Node, n: Node): Fields
    requires p in F && x in F && n in F
  {
    if n == p then RotatedRight(F, p, x, true, F[p].bh, n)
    else if n == x then RotatedRight(F, p, x, true, F[p].bh, n).(parent := p)
    else if n == F[x].right then F[n].(parent := p)
    else F[n]
  }

  lemma OuterReadyRight(F: Heap, root: Node?, g: Node, p: Node, x: Node)
    requires AlmostRb(F, root, x) && F[x].parent == p && p in F && Red(F, p) && F[p].parent == g && g in F
    requires F[g].right == p && F[p].right == x && !Red(F, F[g].left)
    ensures F[g].bh > 0 && Rotatable(F, root, g, p, F[p].left) && !Red(F, F[p].left)
    ensures F[g].left != null ==> F[g].left in F && F[g].left != g && F[g].left != p && F[g].left != F[g].parent
  {
    assert Linked(F, root, x) && Linked(F, root, p) && Linked(F, root, g) && BhOk(F, g) && RedOk(F, p, x);
    if F[g].left != null { assert Linked(F, root, F[g].left); }
    if F[p].left != null { assert Linked(F, root, F[p].left); }
    if F[g].parent != null { assert Linked(F, root, F[g].parent); }
  }

  lemma InnerDistinctRight(F: Heap, root: Node?, g: Node, p: Node, x: Node)
    requires AlmostRb(F, root, x) && F[x].parent == p && p in F && Red(F, p) && F[p].parent == g && g in F
    requires F[g].right == p && F[p].left == x && !Red(F, F[g].left)
    ensures x in F && x != p && x != g && p != g && F[g].bh > 0 && F[x].red
    ensures var l, r, u, t := F[x].right, F[x].left, F[g].parent, F[g].left;
      && !Red(F, l) && !Red(F, r)
      && (l != null ==> l in F && l != x && l != p && l != g && l != r && l != u && l != t)
      && (r != null ==> r in F && r != x && r != p && r != g && r != u && r != t)
      && (u != null ==>
            && u in F && u != x && u != p && u != g && u != t && root != g && root != x
            && (F[u].right == g) != (F[u].left == g))
      && (t != null ==> t in F && t != g && t != p && t != x)
      && (u == null ==> root == g)
  {
    assert
      && Linked(F, root, x) && Linked(F, root, p) && Linked(F, root, g) && BhOk(F, g) && RedOk(F, x, x)
      && F[root].parent == null;
    var l, r, u, t := F[x].right, F[x].left, F[g].parent, F[g].left;
    if l != null { assert Linked(F, root, l); }
    if r != null { assert Linked(F, root, r); }
    if t != null { assert Linked(F, root, t); }
    if u != null { assert Linked(F, root, u); }
    hide Shape, Balanced, Coloured, Augmented;
  }

  /** Case 3 overwrites both stale links. */
  lemma HalfRotateRight(F: Heap, g: Node, p: Node, x: Node, bh: nat)
    requires
      && p in F && x in F && g in F && x != p && x != g && p != g && F[p].parent == g && F[g].right == p
      && F[g].left != p && F[g].parent != x && F[g].parent != p
    requires F[x].left != p && F[x].left != x
    requires var l := F[x].right;
      l == null || (l != x && l != p && l != g && l != F[g].parent && l != F[x].left && l != F[g].left)
    ensures HalfRight(F, p, x).Keys == F.Keys == RotateRight(F, p, x, true, F[p].bh).Keys
    ensures RotateLeft(HalfRight(F, p, x), g, x, true, bh) ==
        RotateLeft(RotateRight(F, p, x, true, F[p].bh), g, x, true, bh)
  {
    var H, M := HalfRight(F, p, x), RotateRight(F, p, x, true, F[p].bh);
    HalfRecomputeRight(F, g, p, x);
    hide Recompute;
    forall n | n in F ensures RotatedLeft(H, g, x, true, bh, n) == RotatedLeft(M, g, x, true, bh, n) {
    }
  }

  lemma HalfRecomputeRight(F: Heap, g: Node, p: Node, x: Node)
    requires
      && p in F && x in F && g in F && x != p && x != g && p != g && F[p].parent == g && F[x].right != p
      && F[x].right != x
    ensures Recompute(HalfRight(F, p, x), g.val, F[g].left, F[x].left) ==
        Recompute(RotateRight(F, p, x, true, F[p].bh), g.val, F[g].left, F[x].left)
  {
    var H, M := HalfRight(F, p, x), RotateRight(F, p, x, true, F[p].bh);
    forall n | n in F ensures H[n].augmented == M[n].augmented {}
    RecomputeSame(M, H, g.val, F[g].left, F[x].left);
  }

  lemma HalfAtRight(F: Heap, g: Node, p: Node, x: Node, n: Node)
    requires p in F && x in F && n in F && n != p && n != x && x != p
    ensures HalfRight(F, p, x).Keys == F.Keys
    ensures HalfRight(F, p, x)[x].left == F[x].left
    ensures n != F[x].right ==> HalfRight(F, p, x)[n] == F[n]
  {
  }

  lemma HalfReadyRight(F: Heap, root: Node?, g: Node, p: Node, x: Node)
    requires AlmostRb(F, root, x) && F[x].parent == p && p in F && Red(F, p) && F[p].parent == g && g in F
    requires F[g].right == p && F[p].left == x && !Red(F, F[g].left)
    ensures var H := HalfRight(F, p, x);
      && H.Keys == F.Keys && F[g].bh == H[g].bh > 0 && Rotatable(H, root, g, x, F[x].left)
      && !Red(H, F[x].left) && H[x].left == F[x].left
      && H[g].left == F[g].left && H[g].parent == F[g].parent
      && (F[g].left != null ==> F[g].left in F && F[g].left != g && F[g].left != x && F[g].left != F[g].parent)
      && RotateLeft(H, g, x, true, F[g].bh - 1) ==
           RotateLeft(RotateRight(F, p, x, true, F[p].bh), g, x, true, F[g].bh - 1)
    ensures !Red(F, F[x].right)
  {
    hide *;
    InnerDistinctRight(F, root, g, p, x);
    HalfRotateRight(F, g, p, x, F[g].bh - 1);
    var u, r, H := F[g].parent, F[x].left, HalfRight(F, p, x);
    HalfAtRight(F, g, p, x, g);
    if u != null { HalfAtRight(F, g, p, x, u); }
    if r != null { HalfAtRight(F, g, p, x, r); }
    MakeRotatable(H, root, g, x, r);
    RedSame(F, H, r);
  }

  /** Case 2's own assignments, seen on the snapshot. */
  lemma SnapHalfLeft(F: Heap, S: set<Node>, p: Node, x: Node)
    requires
      && F.Keys == S && p in S && x in S && p != x && F[x].left != p && F[x].left != x
      && (F[x].left != null ==> F[x].left in S)
    requires p.Get() == RotatedLeft(F, p, x, true, F[p].bh, p)
    requires x.Get() ==
        F[x].(left := p, lo := F[p].lo, hi := F[p].hi, red := F[p].red, bh := F[p].bh, augmented := F[p].augmented)
    requires F[x].parent == p
    requires F[x].left != null ==> F[x].left.Get() == F[F[x].left].(parent := p)
    requires forall n :: n in S && n != p && n != x && n != F[x].left ==> n.Get() == F[n]
    ensures Snap(S) == HalfLeft(F, p, x)
  {
    hide Recompute;
  }

  /** Case 2's own assignments, seen on the snapshot. */
  lemma SnapHalfRight(F: Heap, S: set<Node>, p: Node, x: Node)
    requires
      && F.Keys == S && p in S && x in S && p != x && F[x].right != p && F[x].right != x
      && (F[x].right != null ==> F[x].right in S)
    requires p.Get() == RotatedRight(F, p, x, true, F[p].bh, p)
    requires x.Get() ==
        F[x].(right := p, hi := F[p].hi, lo := F[p].lo, red := F[p].red, bh := F[p].bh, augmented := F[p].augmented)
    requires F[x].parent == p
    requires F[x].right != null ==> F[x].right.Get() == F[F[x].right].(parent := p)
    requires forall n :: n in S && n != p && n != x && n != F[x].right ==> n.Get() == F[n]
    ensures Snap(S) == HalfRight(F, p, x)
  {
    hide Recompute;
  }

  lemma SwappedIs(c: Node?, x: Node, y: Node)
    ensures Swapped(c, x, y) == if c == x then y else c
  {
  }

  lemma PlacesThrough(F: Heap, G: Heap, H: Heap)
    requires SamePlaces(F, G) && SamePlaces(G, H)
    ensures SamePlaces(F, H)
  {
  }

  /** x is one child of its red parent, and no other node looks like it there. */
  lemma ParentSees(F: Heap, root: Node?, x: Node)
    requires AlmostRb(F, root, x) && Red(F, F[x].parent)
    ensures x in F && F[x].red
    ensures F[x].parent in F
    ensures var p := F[x].parent;
      && p != x && (F[p].left == x || F[p].right == x) && F[p].left != p && F[p].right != p && F[p].parent != x
      && (F[p].left != null ==> F[p].left in F && F[p].left != F[x].left && F[p].left != F[x].right)
      && (F[p].right != null ==> F[p].right in F && F[p].right != F[x].left && F[p].right != F[x].right)
      && (F[p].left == x ==> F[p].right != x)
  {
    var p := F[x].parent;
    assert Linked(F, root, x) && Linked(F, root, p);
    if F[p].left != null { assert Linked(F, root, F[p].left); }
    if F[p].right != null { assert Linked(F, root, F[p].right); }
  }

  /** Case 2 turned into case 3. */
  lemma InnerAfterLeft(F: Heap, root: Node?, g: Node, p: Node, x: Node)
    requires AlmostRb(F, root, x) && F[x].parent == p && p in F && Red(F, p) && F[p].parent == g && g in F
    requires F[g].left == p && F[p].right == x && !Red(F, F[g].right)
    ensures var M := RotateLeft(F, p, x, true, F[p].bh);
      && M.Keys == F.Keys && M[g].left == x && M[g].right == F[g].right && M[g].bh == F[g].bh
      && M[x].left == p && M[x].parent == g && M[p].parent == x
      && Red(M, x) && !Red(M, F[g].right)
  {
    hide *;
    OpenAlmostRb(F, root, x);
    InnerDistinctLeft(F, root, g, p, x);
    var t, M := F[g].right, RotateLeft(F, p, x, true, F[p].bh);
    RotateLeftAt(F, root, p, x, true, F[p].bh, g);
    RotateLeftAt(F, root, p, x, true, F[p].bh, p);
    RotateLeftAt(F, root, p, x, true, F[p].bh, x);
    SwappedIs(p, p, x);
    SwappedIs(t, p, x);
    SnapRed(F, p);
    SnapRed(M, x);
    if t != null {
      RotateLeftAt(F, root, p, x, true, F[p].bh, t);
    }
    RedSame(F, M, t);
  }

  /** What cases 2 and 3 write is what the two rotations give, and it is a red-black tree. */
  lemma LeftSideDone(F: Heap, root: Node?, g: Node, p: Node, x: Node)
    requires AlmostRb(F, root, x) && F[x].parent == p && p in F && Red(F, p) && F[p].parent == g && g in F
    requires F[g].left == p && F[p].right == x && !Red(F, F[g].right)
    ensures F[g].bh > 0
    ensures HalfLeft(F, p, x).Keys == RotateLeft(F, p, x, true, F[p].bh).Keys == F.Keys
    ensures var G := RotateRight(HalfLeft(F, p, x), g, x, true, F[g].bh - 1);
      && G == RotateRight(RotateLeft(F, p, x, true, F[p].bh), g, x, true, F[g].bh - 1)
      && RbTree(G, Swapped(root, g, x)) && SamePlaces(F, G)
  {
    hide *;
    HalfReadyLeft(F, root, g, p, x);
    InnerAfterLeft(F, root, g, p, x);
    InnerDistinctLeft(F, root, g, p, x);
    var M := RotateLeft(F, p, x, true, F[p].bh);
    MirrorInnerChild(F, root, p, x);
    OuterChild(M, root, g, x, p);
    PlacesThrough(F, M, RotateRight(M, g, x, true, M[g].bh - 1));
  }

  /** Case 2 turned into case 3. */
  lemma InnerAfterRight(F: Heap, root: Node?, g: Node, p: Node, x: Node)
    requires AlmostRb(F, root, x) && F[x].parent == p && p in F && Red(F, p) && F[p].parent == g && g in F
    requires F[g].right == p && F[p].left == x && !Red(F, F[g].left)
    ensures var M := RotateRight(F, p, x, true, F[p].bh);
      && M.Keys == F.Keys && M[g].right == x && M[g].left == F[g].left && M[g].bh == F[g].bh
      && M[x].right == p && M[x].parent == g && M[p].parent == x
      && Red(M, x) && !Red(M, F[g].left)
  {
    hide *;
    OpenAlmostRb(F, root, x);
    InnerDistinctRight(F, root, g, p, x);
    var t, M := F[g].left, RotateRight(F, p, x, true, F[p].bh);
    RotateRightAt(F, root, p, x, true, F[p].bh, g);
    RotateRightAt(F, root, p, x, true, F[p].bh, p);
    RotateRightAt(F, root, p, x, true, F[p].bh, x);
    SwappedIs(p, p, x);
    SwappedIs(t, p, x);
    SnapRed(F, p);
    SnapRed(M, x);
    if t != null {
      RotateRightAt(F, root, p, x, true, F[p].bh, t);
    }
    RedSame(F, M, t);
  }

  /** What cases 2 and 3 write is what the two rotations give, and it is a red-black tree. */
  lemma RightSideDone(F: Heap, root: Node?, g: Node, p: Node, x: Node)
    requires AlmostRb(F, root, x) && F[x].parent == p && p in F && Red(F, p) && F[p].parent == g && g in F
    requires F[g].right == p && F[p].left == x && !Red(F, F[g].left)
    ensures F[g].bh > 0
    ensures HalfRight(F, p, x).Keys == RotateRight(F, p, x, true, F[p].bh).Keys == F.Keys
    ensures var G := RotateLeft(HalfRight(F, p, x), g, x, true, F[g].bh - 1);
      && G == RotateLeft(RotateRight(F, p, x, true, F[p].bh), g, x, true, F[g].bh - 1)
      && RbTree(G, Swapped(root, g, x)) && SamePlaces(F, G)
  {
    hide *;
    HalfReadyRight(F, root, g, p, x);
    InnerAfterRight(F, root, g, p, x);
    InnerDistinctRight(F, root, g, p, x);
    var M := RotateRight(F, p, x, true, F[p].bh);
    InnerChild(F, root, p, x);
    MirrorOuterChild(M, root, g, x, p);
    PlacesThrough(F, M, RotateLeft(M, g, x, true, M[g].bh - 1));
  }

  // ----- case 1 of __rb_insert, and its loop

  lemma SnapIs(S: set<Node>, G: Heap)
    requires G.Keys == S && forall n :: n in S ==> G[n] == n.Get()
    ensures Snap(S) == G
  {
  }

  lemma FlippedAt(F: Heap, g: Node, p: Node, u: Node)
    requires g in F && p in F && u in F && g != p && g != u && p != u
    ensures var G := FlipColours(F, g, p, u);
      && G.Keys == F.Keys && G[g] == F[g].(red := true)
      && G[p] == F[p].(red := false, bh := F[p].bh + 1) && G[u] == F[u].(red := false, bh := F[u].bh + 1)
      && forall n :: n in F && n != g && n != p && n != u ==> G[n] == F[n]
  {
  }

  /** Climbing two steps and recolouring leaves fewer nodes outside. */
  lemma ClimbTwice(F: Heap, root: Node?, x: Node, p: Node, g: Node, G: Heap)
    requires Shape(F, root) && x in F && F[x].parent == p && p in F && F[p].parent == g && SameLinks(F, G)
    ensures g in F && g in G && Outside(G, g) < Outside(F, x)
  {
    Climb(F, root, x);
    Climb(F, root, p);
    hide Shape;
  }

  lemma SiblingsOf(F: Heap, root: Node?, x: Node, p: Node, g: Node, u: Node)
    requires AlmostRb(F, root, x) && F[x].parent == p && Red(F, p) && p in F && F[p].parent == g && Red(F, u)
    requires g in F && (if F[g].right != p then F[g].right == u else F[g].left == u)
    ensures u in F && Siblings(F, g, p, u)
    ensures F[u].parent == g
  {
    RedParent(F, root, x);
    assert Linked(F, root, g);
    assert Linked(F, root, u);
  }

  lemma PlacesSame(F: Heap)
    ensures SamePlaces(F, F)
  {
  }

  lemma ParentIn(F: Heap, root: Node?, n: Node)
    requires Shape(F, root) && n in F
    ensures F[n].parent != null ==> F[n].parent in F
  {
    assert Linked(F, root, n);
  }

  lemma ChildIn(F: Heap, root: Node?, n: Node)
    requires Shape(F, root) && n in F
    ensures F[n].left != null ==> F[n].left in F && F[F[n].left].parent == n
    ensures F[n].right != null ==> F[n].right in F && F[F[n].right].parent == n
  {
    assert Linked(F, root, n);
  }

  lemma NullBlack(F: Heap, n: Node?)
    ensures n == null ==> !Red(F, n)
  {
  }
}
