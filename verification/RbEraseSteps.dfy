/** What the assignments of ____rb_erase_color do, one block at a time. */
module RbEraseSteps {
  import opened RbHeap
  import opened RbRotate
  import opened RbOrder
  import opened RbInsert
  import opened RbErase
  import opened RbSnapshot
  import opened RbInsertSteps
  import RbRepair

  // ----- the child on the left is short

  lemma ReadyLeft(F: Heap, root: Node?, x: Node, y: Node)
    requires Shape(F, root) && x in F && F[x].right == y
    ensures y in F && Rotatable(F, root, x, y, F[y].left)
    ensures F[x].left != null ==> F[x].left in F && F[x].left != x && F[x].left != y && F[x].left != F[x].parent
  {
    assert Linked(F, root, x) && Linked(F, root, y);
    if F[x].left != null { assert Linked(F, root, F[x].left); }
    if F[x].parent != null { assert Linked(F, root, F[x].parent); }
    if F[y].left != null { assert Linked(F, root, F[y].left); }
    assert root in F && F[root].parent == null;
    hide Shape;
  }

  /** The tree after case 3's own assignments: the links up from s and l, and both colours, are still to be set. */
  ghost function HalfInnerLeft(F: Heap, p: Node, s: Node, l: Node): Heap
    requires p in F && s in F && l in F && F[s].bh > 0
  {
    map n | n in F :: HalvedInnerLeft(F, p, s, l, n)
  }

  ghost function HalvedInnerLeft(F: Heap, p: Node, s: Node, l: Node, n: Node): Fields
    requires p in F && s in F && l in F && n in F && F[s].bh > 0
  {
    if n == s then RotatedRight(F, s, l, true, F[s].bh - 1, n).(parent := p, red := false)
    else if n == l then RotatedRight(F, s, l, true, F[s].bh - 1, n).(parent := s, red := true)
    else if n == p then F[n].(right := l)
    else if n == F[l].right then F[n].(parent := s)
    else F[n]
  }

  lemma InnerRedDistinctLeft(F: Heap, root: Node?, p: Node, s: Node, l: Node)
    requires Shape(F, root) && p in F && F[p].right == s && s in F && F[s].left == l && l in F
    ensures s != p && l != p && s != l && F[s].parent == p && F[l].parent == s
    ensures var a, t, u, r, q := F[l].left, F[l].right, F[p].parent, F[p].left, F[s].right;
      && (a != null ==> a in F && a != l && a != s && a != p && a != t && a != u && a != q)
      && (t != null ==> t in F && t != l && t != s && t != p && t != u && t != r && t != q)
      && (u != null ==>
            u in F && u != l && u != s && u != p && u != r && root != p && (F[u].left == p) != (F[u].right == p))
      && (r != null ==> r in F && r != l && r != s && r != p)
      && (q != null ==> q in F && q != l && q != s && q != p && q != u)
      && (u == null ==> root == p)
  {
    assert Linked(F, root, p) && Linked(F, root, s) && Linked(F, root, l);
    var a, t, u, r, q := F[l].left, F[l].right, F[p].parent, F[p].left, F[s].right;
    if a != null { assert Linked(F, root, a); }
    if t != null { assert Linked(F, root, t); }
    if u != null { assert Linked(F, root, u); }
    if r != null { assert Linked(F, root, r); }
    if q != null { assert Linked(F, root, q); }
    assert root in F && F[root].parent == null;
    hide Shape;
  }

  lemma HalfInnerAtLeft(F: Heap, p: Node, s: Node, l: Node, n: Node)
    requires p in F && s in F && l in F && F[s].bh > 0 && n in F && s != p && l != p && s != l
    ensures HalfInnerLeft(F, p, s, l).Keys == F.Keys
    ensures var H := HalfInnerLeft(F, p, s, l);
      && H[p] == F[p].(right := l) && H[l].left == F[l].left && H[l].bh == F[s].bh
      && (n != s && n != l && n != p && n != F[l].right ==> H[n] == F[n])
  {
  }

  lemma HalfInnerReadyLeft(F: Heap, root: Node?, p: Node, s: Node, l: Node)
    requires Shape(F, root) && p in F && F[p].right == s && s in F && F[s].left == l && l in F && F[s].bh > 0
    ensures var H := HalfInnerLeft(F, p, s, l);
      && H.Keys == F.Keys && Rotatable(H, root, p, l, F[l].left) && H[l].left == F[l].left
      && H[p].left == F[p].left && H[p].parent == F[p].parent
      && H[l].bh == F[s].bh
    ensures F[p].left != null ==> F[p].left in F && F[p].left != p && F[p].left != l && F[p].left != F[p].parent
  {
    hide *;
    InnerRedDistinctLeft(F, root, p, s, l);
    var u, t, H := F[p].parent, F[l].left, HalfInnerLeft(F, p, s, l);
    HalfInnerAtLeft(F, p, s, l, p);
    if u != null { HalfInnerAtLeft(F, p, s, l, u); }
    if t != null { HalfInnerAtLeft(F, p, s, l, t); }
    MakeRotatable(H, root, p, l, t);
  }

  /** Case 4 sets what case 3 left open. */
  lemma HalfInnerRotateLeft(F: Heap, root: Node?, p: Node, s: Node, l: Node, n: Node)
    requires
      && Shape(F, root) && p in F && F[p].right == s && s in F && F[s].left == l && l in F
      && F[s].bh > 0 && n in F && F[l].red
    ensures HalfInnerLeft(F, p, s, l).Keys == F.Keys
    ensures RotateRight(F, s, l, true, F[s].bh - 1).Keys == F.Keys
    ensures var x := RotatedLeft(HalfInnerLeft(F, p, s, l), p, l, false, F[s].bh, n);
      var y := RotatedLeft(RotateRight(F, s, l, true, F[s].bh - 1), p, l, false, F[s].bh, n);
      if n == s then y.red && x == y.(parent := p, red := false) && y.parent == l && y.bh == F[s].bh - 1 else x == y
  {
    InnerRedDistinctLeft(F, root, p, s, l);
    HalfInnerRecomputeLeft(F, root, p, s, l);
    hide Shape, Recompute;
  }

  lemma HalfInnerRecomputeLeft(F: Heap, root: Node?, p: Node, s: Node, l: Node)
    requires Shape(F, root) && p in F && F[p].right == s && s in F && F[s].left == l && l in F && F[s].bh > 0
    ensures Recompute(HalfInnerLeft(F, p, s, l), p.val, F[p].left, F[l].left) ==
        Recompute(RotateRight(F, s, l, true, F[s].bh - 1), p.val, F[p].left, F[l].left)
  {
    InnerRedDistinctLeft(F, root, p, s, l);
    var H, M := HalfInnerLeft(F, p, s, l), RotateRight(F, s, l, true, F[s].bh - 1);
    RotateRightKeys(F, s, l, true, F[s].bh - 1);
    hide Recompute, Shape;
    forall n | n in F ensures H[n].augmented == M[n].augmented {}
    RecomputeSame(M, H, p.val, F[p].left, F[l].left);
  }

  // ----- the child on the right is short

  lemma ReadyRight(F: Heap, root: Node?, x: Node, y: Node)
    requires Shape(F, root) && x in F && F[x].left == y
    ensures y in F && Rotatable(F, root, x, y, F[y].right)
    ensures F[x].right != null ==> F[x].right in F && F[x].right != x && F[x].right != y && F[x].right != F[x].parent
  {
    assert Linked(F, root, x) && Linked(F, root, y);
    if F[x].right != null { assert Linked(F, root, F[x].right); }
    if F[x].parent != null { assert Linked(F, root, F[x].parent); }
    if F[y].right != null { assert Linked(F, root, F[y].right); }
    assert root in F && F[root].parent == null;
    hide Shape;
  }

  /** The tree after case 3's own assignments: the links up from s and l, and both colours, are still to be set. */
  ghost function HalfInnerRight(F: Heap, p: Node, s: Node, l: Node): Heap
    requires p in F && s in F && l in F && F[s].bh > 0
  {
    map n | n in F :: HalvedInnerRight(F, p, s, l, n)
  }

  ghost function HalvedInnerRight(F: Heap, p: Node, s: Node, l: Node, n: Node): Fields
    requires p in F && s in F && l in F && n in F && F[s].bh > 0
  {
    if n == s then RotatedLeft(F, s, l, true, F[s].bh - 1, n).(parent := p, red := false)
    else if n == l then RotatedLeft(F, s, l, true, F[s].bh - 1, n).(parent := s, red := true)
    else if n == p then F[n].(left := l)
    else if n == F[l].left then F[n].(parent := s)
    else F[n]
  }

  lemma InnerRedDistinctRight(F: Heap, root: Node?, p: Node, s: Node, l: Node)
    requires Shape(F, root) && p in F && F[p].left == s && s in F && F[s].right == l && l in F
    ensures s != p && l != p && s != l && F[s].parent == p && F[l].parent == s
    ensures var a, t, u, r, q := F[l].right, F[l].left, F[p].parent, F[p].right, F[s].left;
      && (a != null ==> a in F && a != l && a != s && a != p && a != t && a != u && a != q)
      && (t != null ==> t in F && t != l && t != s && t != p && t != u && t != r && t != q)
      && (u != null ==>
            u in F && u != l && u != s && u != p && u != r && root != p && (F[u].right == p) != (F[u].left == p))
      && (r != null ==> r in F && r != l && r != s && r != p)
      && (q != null ==> q in F && q != l && q != s && q != p && q != u)
      && (u == null ==> root == p)
  {
    assert Linked(F, root, p) && Linked(F, root, s) && Linked(F, root, l);
    var a, t, u, r, q := F[l].right, F[l].left, F[p].parent, F[p].right, F[s].left;
    if a != null { assert Linked(F, root, a); }
    if t != null { assert Linked(F, root, t); }
    if u != null { assert Linked(F, root, u); }
    if r != null { assert Linked(F, root, r); }
    if q != null { assert Linked(F, root, q); }
    assert root in F && F[root].parent == null;
    hide Shape;
  }

  lemma HalfInnerAtRight(F: Heap, p: Node, s: Node, l: Node, n: Node)
    requires p in F && s in F && l in F && F[s].bh > 0 && n in F && s != p && l != p && s != l
    ensures HalfInnerRight(F, p, s, l).Keys == F.Keys
    ensures var H := HalfInnerRight(F, p, s, l);
      && H[p] == F[p].(left := l) && H[l].right == F[l].right && H[l].bh == F[s].bh
      && (n != s && n != l && n != p && n != F[l].left ==> H[n] == F[n])
  {
  }

  lemma HalfInnerReadyRight(F: Heap, root: Node?, p: Node, s: Node, l: Node)
    requires Shape(F, root) && p in F && F[p].left == s && s in F && F[s].right == l && l in F && F[s].bh > 0
    ensures var H := HalfInnerRight(F, p, s, l);
      && H.Keys == F.Keys && Rotatable(H, root, p, l, F[l].right) && H[l].right == F[l].right
      && H[p].right == F[p].right && H[p].parent == F[p].parent
      && H[l].bh == F[s].bh
    ensures F[p].right != null ==> F[p].right in F && F[p].right != p && F[p].right != l && F[p].right != F[p].parent
  {
    hide *;
    InnerRedDistinctRight(F, root, p, s, l);
    var u, t, H := F[p].parent, F[l].right, HalfInnerRight(F, p, s, l);
    HalfInnerAtRight(F, p, s, l, p);
    if u != null { HalfInnerAtRight(F, p, s, l, u); }
    if t != null { HalfInnerAtRight(F, p, s, l, t); }
    MakeRotatable(H, root, p, l, t);
  }

  /** Case 4 sets what case 3 right open. */
  lemma HalfInnerRotateRight(F: Heap, root: Node?, p: Node, s: Node, l: Node, n: Node)
    requires
      && Shape(F, root) && p in F && F[p].left == s && s in F && F[s].right == l && l in F
      && F[s].bh > 0 && n in F && F[l].red
    ensures HalfInnerRight(F, p, s, l).Keys == F.Keys
    ensures RotateLeft(F, s, l, true, F[s].bh - 1).Keys == F.Keys
    ensures var x := RotatedRight(HalfInnerRight(F, p, s, l), p, l, false, F[s].bh, n);
      var y := RotatedRight(RotateLeft(F, s, l, true, F[s].bh - 1), p, l, false, F[s].bh, n);
      if n == s then y.red && x == y.(parent := p, red := false) && y.parent == l && y.bh == F[s].bh - 1 else x == y
  {
    InnerRedDistinctRight(F, root, p, s, l);
    HalfInnerRecomputeRight(F, root, p, s, l);
    hide Shape, Recompute;
  }

  lemma HalfInnerRecomputeRight(F: Heap, root: Node?, p: Node, s: Node, l: Node)
    requires Shape(F, root) && p in F && F[p].left == s && s in F && F[s].right == l && l in F && F[s].bh > 0
    ensures Recompute(HalfInnerRight(F, p, s, l), p.val, F[l].right, F[p].right) ==
        Recompute(RotateLeft(F, s, l, true, F[s].bh - 1), p.val, F[l].right, F[p].right)
  {
    InnerRedDistinctRight(F, root, p, s, l);
    var H, M := HalfInnerRight(F, p, s, l), RotateLeft(F, s, l, true, F[s].bh - 1);
    RotateLeftKeys(F, s, l, true, F[s].bh - 1);
    hide Recompute, Shape;
    forall n | n in F ensures H[n].augmented == M[n].augmented {}
    RecomputeSame(M, H, p.val, F[l].right, F[p].right);
  }

  lemma DarkenIs(F: Heap, n: Node, G: Heap)
    requires n in F && G.Keys == F.Keys && G[n] == F[n].(red := false, bh := F[n].bh + 1)
    requires forall m :: m in F && m != n ==> G[m] == F[m]
    ensures G == RbRepair.Darken(F, n)
  {
  }

  lemma DimIs(F: Heap, p: Node, s: Node, G: Heap)
    requires p in F && s in F && p != s && F[s].bh > 0 && F[p].bh > 0 && G.Keys == F.Keys
    requires G[s] == F[s].(red := true, bh := F[s].bh - 1)
    requires G[p] == if F[p].red then F[p].(red := false) else F[p].(bh := F[p].bh - 1)
    requires forall m :: m in F && m != p && m != s ==> G[m] == F[m]
    ensures G == RbRepair.Dim(F, p, s)
  {
  }

  lemma RedKids(F: Heap, n: Node)
    requires n in F && RedOk(F, n, null) && Red(F, n)
    ensures !Red(F, F[n].left) && !Red(F, F[n].right)
  {
  }

  lemma SnapSet(F: Heap, S: set<Node>, n: Node)
    requires F.Keys == S && n in S && forall m :: m in S && m != n ==> F[m] == m.Get()
    ensures Snap(S) == F[n := n.Get()]
  {
    forall m | m in S ensures m.Get() == F[n := n.Get()][m] {}
  }

  lemma SameLinksAt(F: Heap, G: Heap, n: Node)
    requires SameLinks(F, G) && n in F
    ensures n in G && G[n].left == F[n].left && G[n].right == F[n].right && G[n].parent == F[n].parent
  {
  }

  lemma ClimbOnce(F: Heap, root: Node?, n: Node, G: Heap)
    requires Shape(F, root) && n in F && F[n].parent != null && SameLinks(F, G)
    ensures F[n].parent in F && F[n].parent in G && Outside(G, F[n].parent) < Outside(F, n)
  {
    Climb(F, root, n);
    hide Shape;
  }

  lemma SnapHalfInnerLeft(F: Heap, S: set<Node>, p: Node, s: Node, l: Node)
    requires
      && F.Keys == S && p in S && s in S && l in S && s != p && l != p && s != l && F[s].parent == p
      && F[l].parent == s && !F[s].red && F[l].red && F[s].bh > 0
    requires F[l].right != null ==> F[l].right in S && F[l].right != p && F[l].right != s && F[l].right != l
    requires p.Get() == F[p].(right := l)
    requires s.Get() == RotatedRight(F, s, l, true, F[s].bh - 1, s).(parent := p, red := false)
    requires l.Get() == F[l].(right := s, lo := F[s].lo, hi := F[s].hi, bh := F[s].bh, augmented := F[s].augmented)
    requires F[l].right != null ==> F[l].right.Get() == F[F[l].right].(parent := s)
    requires forall n :: n in S && n != p && n != s && n != l && n != F[l].right ==> n.Get() == F[n]
    ensures Snap(S) == HalfInnerLeft(F, p, s, l)
  {
    hide Recompute;
    forall n | n in S ensures n.Get() == HalvedInnerLeft(F, p, s, l, n) {}
  }

  lemma OuterUntouchedLeft(F: Heap, root: Node?, p: Node, s: Node, b: nat, r: Node)
    requires Shape(F, root) && p in F && F[p].right == s && s in F && F[s].right == r && r in F
    ensures r in RotateLeft(F, p, s, false, b) && RotateLeft(F, p, s, false, b)[r].parent == s
  {
    RbRotate.RotateLeftAt(F, root, p, s, false, b, r);
    assert Linked(F, root, s) && Linked(F, root, r) && Linked(F, root, p);
    hide Shape, RotateLeft;
  }

  lemma SnapHalfInnerRight(F: Heap, S: set<Node>, p: Node, s: Node, l: Node)
    requires
      && F.Keys == S && p in S && s in S && l in S && s != p && l != p && s != l && F[s].parent == p
      && F[l].parent == s && !F[s].red && F[l].red && F[s].bh > 0
    requires F[l].left != null ==> F[l].left in S && F[l].left != p && F[l].left != s && F[l].left != l
    requires p.Get() == F[p].(left := l)
    requires s.Get() == RotatedLeft(F, s, l, true, F[s].bh - 1, s).(parent := p, red := false)
    requires l.Get() == F[l].(left := s, hi := F[s].hi, lo := F[s].lo, bh := F[s].bh, augmented := F[s].augmented)
    requires F[l].left != null ==> F[l].left.Get() == F[F[l].left].(parent := s)
    requires forall n :: n in S && n != p && n != s && n != l && n != F[l].left ==> n.Get() == F[n]
    ensures Snap(S) == HalfInnerRight(F, p, s, l)
  {
    hide Recompute;
    forall n | n in S ensures n.Get() == HalvedInnerRight(F, p, s, l, n) {}
  }

  lemma OuterUntouchedRight(F: Heap, root: Node?, p: Node, s: Node, b: nat, r: Node)
    requires Shape(F, root) && p in F && F[p].left == s && s in F && F[s].left == r && r in F
    ensures r in RotateRight(F, p, s, false, b) && RotateRight(F, p, s, false, b)[r].parent == s
  {
    RbRotate.RotateRightAt(F, root, p, s, false, b, r);
    assert Linked(F, root, s) && Linked(F, root, r) && Linked(F, root, p);
    hide Shape, RotateRight;
  }

  /** Case 3 followed by case 4 is what the two rotations give. */
  lemma Cases34Left(F: Heap, root: Node?, p: Node, s: Node, l: Node, G: Heap)
    requires
      && ShortRb(F, root, p, true) && F[p].right == s && s in F && !F[s].red && F[s].left == l
      && Red(F, l) && !Red(F, F[s].right)
    requires F[s].bh > 0 && l in F && s != p && l != p && HalfInnerLeft(F, p, s, l).Keys == F.Keys
    requires var K := RotateLeft(HalfInnerLeft(F, p, s, l), p, l, false, F[s].bh);
      K.Keys == F.Keys && G == K[s := K[s].(parent := l, red := false, bh := K[s].bh + 1)]
    ensures RbTree(G, Swapped(root, p, l)) && SamePlaces(F, G)
  {
    hide *;
    RbRepair.OpenShort(F, root, p, true);
    RbRepair.RedIs(F, l);
    RbRepair.InnerRed(F, root, p, s, l);
    var b, M := F[s].bh, RotateRight(F, s, l, true, F[s].bh - 1);
    RotateRightKeys(F, s, l, true, F[s].bh - 1);
    RbRepair.MirrorOuterRed(M, root, p, l, s);
    var N, K := RotateLeft(M, p, l, false, b), RotateLeft(HalfInnerLeft(F, p, s, l), p, l, false, b);
    forall n | n in F ensures K[n] == if n == s then N[n].(parent := p, red := false) else N[n] {
      HalfInnerRotateLeft(F, root, p, s, l, n);
      RotateLeftIs(HalfInnerLeft(F, p, s, l), p, l, false, b, n);
      RotateLeftIs(M, p, l, false, b, n);
    }
    HalfInnerRotateLeft(F, root, p, s, l, s);
    RotateLeftIs(M, p, l, false, b, s);
    DarkenIs(N, s, G);
    PlacesThrough(F, M, G);
  }

  lemma RotateLeftIs(F: Heap, x: Node, y: Node, red: bool, bh: nat, n: Node)
    requires x in F && y in F && n in F
    ensures n in RotateLeft(F, x, y, red, bh) && RotateLeft(F, x, y, red, bh)[n] == RotatedLeft(F, x, y, red, bh, n)
  {
  }

  /** Case 3 followed by case 4 is what the two rotations give. */
  lemma Cases34Right(F: Heap, root: Node?, p: Node, s: Node, l: Node, G: Heap)
    requires
      && ShortRb(F, root, p, false) && F[p].left == s && s in F && !F[s].red && F[s].right == l
      && Red(F, l) && !Red(F, F[s].left)
    requires F[s].bh > 0 && l in F && s != p && l != p && HalfInnerRight(F, p, s, l).Keys == F.Keys
    requires var K := RotateRight(HalfInnerRight(F, p, s, l), p, l, false, F[s].bh);
      K.Keys == F.Keys && G == K[s := K[s].(parent := l, red := false, bh := K[s].bh + 1)]
    ensures RbTree(G, Swapped(root, p, l)) && SamePlaces(F, G)
  {
    hide *;
    RbRepair.OpenShort(F, root, p, false);
    RbRepair.RedIs(F, l);
    RbRepair.MirrorInnerRed(F, root, p, s, l);
    var b, M := F[s].bh, RotateLeft(F, s, l, true, F[s].bh - 1);
    RotateLeftKeys(F, s, l, true, F[s].bh - 1);
    RbRepair.OuterRed(M, root, p, l, s);
    var N, K := RotateRight(M, p, l, false, b), RotateRight(HalfInnerRight(F, p, s, l), p, l, false, b);
    forall n | n in F ensures K[n] == if n == s then N[n].(parent := p, red := false) else N[n] {
      HalfInnerRotateRight(F, root, p, s, l, n);
      RotateRightIs(HalfInnerRight(F, p, s, l), p, l, false, b, n);
      RotateRightIs(M, p, l, false, b, n);
    }
    HalfInnerRotateRight(F, root, p, s, l, s);
    RotateRightIs(M, p, l, false, b, s);
    DarkenIs(N, s, G);
    PlacesThrough(F, M, G);
  }

  lemma RotateRightIs(F: Heap, x: Node, y: Node, red: bool, bh: nat, n: Node)
    requires x in F && y in F && n in F
    ensures n in RotateRight(F, x, y, red, bh) && RotateRight(F, x, y, red, bh)[n] == RotatedRight(F, x, y, red, bh, n)
  {
  }
}
