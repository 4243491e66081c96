/** The cases of ____rb_erase_color on values: each moves the missing black node up, or supplies it. */
module RbRepair {
  import opened RbHeap
  import opened RbRotate
  import opened RbInsert
  import opened RbErase

  lemma OpenShort(F: Heap, root: Node?, p: Node, left: bool)
    requires ShortRb(F, root, p, left)
    ensures Shape(F, root) && Augmented(F, {}) && !Red(F, root) && p in F && Short(F, p, left)
    ensures forall n :: n in F ==> (n != p ==> BhOk(F, n)) && RedOk(F, n, null)
  {
  }

  lemma MakeShortRb(F: Heap, root: Node?, p: Node, left: bool)
    requires Shape(F, root) && Augmented(F, {}) && !Red(F, root) && p in F && Short(F, p, left)
    requires forall n :: n in F ==> (n != p ==> BhOk(F, n)) && RedOk(F, n, null)
    ensures ShortRb(F, root, p, left)
  {
  }

  lemma MirrorNode(F: Heap, n: Node)
    requires n in F
    ensures n in Mirror(F) && Mirror(F).Keys == F.Keys
    ensures BhOk(F, n) ==> BhOk(Mirror(F), n)
    ensures RedOk(F, n, null) ==> RedOk(Mirror(F), n, null)
    ensures Short(F, n, true) ==> Short(Mirror(F), n, false)
    ensures Short(F, n, false) ==> Short(Mirror(F), n, true)
  {
  }

  lemma MirrorShort(F: Heap, root: Node?, p: Node, left: bool)
    requires ShortRb(F, root, p, left)
    ensures ShortRb(Mirror(F), root, p, !left)
  {
    hide *;
    OpenShort(F, root, p, left);
    var G := Mirror(F);
    MirrorShape(F, root);
    MirrorAugmented(F, {});
    MirrorRed(F, root);
    MirrorNode(F, p);
    forall n | n in G ensures (n != p ==> BhOk(G, n)) && RedOk(G, n, null) {
      MirrorNode(F, n);
    }
    MakeShortRb(G, root, p, !left);
  }

  /** The sibling of a short child exists and holds a black node on every path. */
  lemma SiblingIn(F: Heap, root: Node?, p: Node, left: bool)
    requires ShortRb(F, root, p, left)
    ensures p in F
    ensures var s := if left then F[p].right else F[p].left;
      && s != null && s in F && s != p && F[s].parent == p && F[s].bh > 0 && F[p].bh > 0
      && (if left then F[p].left != s else F[p].right != s)
      && (F[s].red ==> !F[p].red && F[s].left in F && F[s].right in F && !Red(F, F[s].left) && !Red(F, F[s].right))
      && BhOk(F, s) && RedOk(F, s, null)
  {
    assert Linked(F, root, p);
    var s := if left then F[p].right else F[p].left;
    assert Linked(F, root, s) && BhOk(F, s) && RedOk(F, s, null) && RedOk(F, p, null);
  }

  // ----- case 1: the sibling is red

  /** One rotation gives the short child a black sibling and a red parent. */
  lemma RedSibling(F: Heap, root: Node?, p: Node, s: Node)
    requires ShortRb(F, root, p, false) && F[p].left == s && Red(F, s)
    ensures F[p].bh > 0
    ensures var G, root' := RotateRight(F, p, s, true, F[p].bh - 1), Swapped(root, p, s);
      && ShortRb(G, root', p, false) && SamePlaces(F, G) && G[p].red && G[p].left == F[s].right
      && !Red(G, G[p].left) && G[p].parent == s
      && G[p].right == F[p].right
  {
    hide *;
    OpenShort(F, root, p, false);
    SiblingIn(F, root, p, false);
    RedIs(F, s);
    var bh: nat := F[p].bh - 1;
    var G, root' := RotateRight(F, p, s, true, bh), Swapped(root, p, s);
    RotateRightShape(F, root, p, s, true, bh);
    RotateRightKeys(F, p, s, true, bh);
    RotateRightAugmented(F, root, p, s, true, bh);
    RotateRightRootRed(F, root, p, s, true, bh);
    RotateRightEnds(F, root, p, s, true, bh);
    RedSiblingEnds(F, root, p, s);
    forall n | n in G ensures (n != p ==> BhOk(G, n)) && RedOk(G, n, null) {
      if n != p && n != s {
        RotateRightBhAt(F, root, p, s, true, bh, n);
        RotateRightRedAt(F, root, p, s, true, bh, n);
      }
    }
    MakeShortRb(G, root', p, false);
  }

  lemma RedIs(F: Heap, n: Node?)
    ensures Red(F, n) <==> n in F && F[n].red
  {
  }

  lemma RedSiblingEnds(F: Heap, root: Node?, p: Node, s: Node)
    requires ShortRb(F, root, p, false) && F[p].left == s && Red(F, s)
    ensures F[p].bh > 0 && s in F
    ensures var G := RotateRight(F, p, s, true, F[p].bh - 1);
      && p in G && s in G && Short(G, p, false) && RedOk(G, p, null) && BhOk(G, s) && RedOk(G, s, null)
      && !Red(G, G[p].left)
  {
    SiblingIn(F, root, p, false);
    assert RedOk(F, p, null);
    var bh: nat := F[p].bh - 1;
    var G := RotateRight(F, p, s, true, bh);
    RotateRightEnds(F, root, p, s, true, bh);
    RedSeen(F, F[s].left);
    RedSeen(F, F[s].right);
    RedSeen(F, F[p].right);
    RedSeen(G, F[s].left);
    RedSeen(G, F[s].right);
    RedSeen(G, F[p].right);
    hide RotateRight, See, Shape, Augmented, ShortTree, ShortRb;
  }

  // ----- case 2: the sibling and its children are black

  ghost function DimmedAt(F: Heap, p: Node, s: Node, n: Node): Fields
    requires n in F
  {
    var f := F[n];
    if n == s then f.(red := true, bh := if f.bh > 0 then f.bh - 1 else 0)
    else if n == p then (if f.red then f.(red := false) else f.(bh := if f.bh > 0 then f.bh - 1 else 0))
    else f
  }

  /** The sibling turns red; a red parent turns black, a black one becomes short itself. */
  ghost function Dim(F: Heap, p: Node, s: Node): Heap {
    map n | n in F :: DimmedAt(F, p, s, n)
  }

  lemma DimSame(F: Heap, p: Node, s: Node)
    ensures SameLinks(F, Dim(F, p, s))
  {
  }

  lemma DimEnds(F: Heap, root: Node?, p: Node, s: Node)
    requires
      ShortRb(F, root, p, false) && F[p].left == s && s in F && !F[s].red && !Red(F, F[s].left) && !Red(F, F[s].right)
    ensures p in F
    ensures
      BhOk(Dim(F, p, s), p) && RedOk(Dim(F, p, s), p, null) && BhOk(Dim(F, p, s), s) && RedOk(Dim(F, p, s), s, null)
  {
    SiblingIn(F, root, p, false);
    assert Linked(F, root, p) && Linked(F, root, s) && RedOk(F, p, null);
    hide Shape, Augmented, ShortRb, ShortTree;
  }

  lemma DimOther(F: Heap, p: Node, s: Node, n: Node)
    requires n in F && n != p && n != s && F[n].left != p && F[n].right != p && F[n].left != s && F[n].right != s
    ensures BhOk(F, n) ==> BhOk(Dim(F, p, s), n)
    ensures RedOk(F, n, null) ==> RedOk(Dim(F, p, s), n, null)
  {
  }

  lemma DimAt(F: Heap, root: Node?, p: Node, s: Node, n: Node)
    requires
      ShortRb(F, root, p, false) && F[p].left == s && s in F && !F[s].red && !Red(F, F[s].left) && !Red(F, F[s].right)
    requires n in F && F[n].left != p && F[n].right != p
    ensures BhOk(Dim(F, p, s), n) && RedOk(Dim(F, p, s), n, null)
  {
    hide *;
    OpenShort(F, root, p, false);
    SiblingIn(F, root, p, false);
    DimEnds(F, root, p, s);
    if n != p && n != s {
      if F[n].left == s || F[n].right == s {
        ParentIs(F, root, n, s);
        assert false;
      } else {
        DimOther(F, p, s, n);
      }
    }
  }

  lemma DimParent(F: Heap, root: Node?, p: Node, s: Node, n: Node)
    requires
      ShortRb(F, root, p, false) && F[p].left == s && s in F && !F[s].red && !Red(F, F[s].left) && !Red(F, F[s].right)
    requires n in F && (F[n].left == p || F[n].right == p)
    ensures RedOk(Dim(F, p, s), n, null) && (F[n].left == p) == (F[n].right != p) && n != p && n != s
    ensures if F[p].red then BhOk(Dim(F, p, s), n) else Short(Dim(F, p, s), n, F[n].left == p)
  {
    SiblingIn(F, root, p, false);
    assert Linked(F, root, n) && Linked(F, root, p) && Linked(F, root, s) && RedOk(F, n, null);
    assert n != p;
    assert BhOk(F, n);
    hide Shape, Augmented, ShortRb, ShortTree;
  }

  /** A recoloured sibling finishes the tree, or leaves the parent short. */
  lemma BlackSibling(F: Heap, root: Node?, p: Node, s: Node)
    requires
      ShortRb(F, root, p, false) && F[p].left == s && s in F && !F[s].red && !Red(F, F[s].left) && !Red(F, F[s].right)
    ensures var G, q := Dim(F, p, s), F[p].parent;
      && SamePlaces(F, G) && SameLinks(F, G)
      && (F[p].red || q == null ==> RbTree(G, root))
      && (!F[p].red && q != null ==> q in F && ShortRb(G, root, q, F[q].left == p))
  {
    hide *;
    OpenShort(F, root, p, false);
    SiblingIn(F, root, p, false);
    var G, q := Dim(F, p, s), F[p].parent;
    DimSame(F, p, s);
    SameKeys(F, G);
    SameLinksShape(F, G, root);
    SameLinksAugmented(F, G, {});
    DimRootBlack(F, root, p, s);
    forall n | n in G
      ensures RedOk(G, n, null)
      ensures n != q || F[p].red ==> BhOk(G, n)
    {
      if F[n].left == p || F[n].right == p {
        DimParent(F, root, p, s, n);
        ParentIs(F, root, n, p);
      } else {
        DimAt(F, root, p, s, n);
      }
    }
    if F[p].red || q == null {
      MakeRbTree(G, root);
    } else {
      ChildOfParent(F, root, p);
      DimParent(F, root, p, s, q);
      MakeShortRb(G, root, q, F[q].left == p);
    }
  }

  lemma SameKeys(F: Heap, G: Heap)
    requires SameLinks(F, G)
    ensures G.Keys == F.Keys
  {
  }

  lemma ParentIs(F: Heap, root: Node?, n: Node, c: Node)
    requires Shape(F, root) && n in F && (F[n].left == c || F[n].right == c)
    ensures c in F && F[c].parent == n
  {
    assert Linked(F, root, n);
  }

  lemma ChildOfParent(F: Heap, root: Node?, c: Node)
    requires Shape(F, root) && c in F && F[c].parent != null
    ensures F[c].parent in F && (F[F[c].parent].left == c || F[F[c].parent].right == c)
  {
    assert Linked(F, root, c);
  }

  lemma DimRootBlack(F: Heap, root: Node?, p: Node, s: Node)
    requires ShortRb(F, root, p, false) && F[p].left == s
    ensures !Red(Dim(F, p, s), root)
  {
    assert Linked(F, root, p) && root in F && Linked(F, root, root);
  }

  // ----- case 4: the outer child of the black sibling is red

  ghost function Darken(F: Heap, n: Node): Heap
    requires n in F
  {
    F[n := F[n].(red := false, bh := F[n].bh + 1)]
  }

  lemma OuterRedEnds(F: Heap, root: Node?, p: Node, s: Node, l: Node)
    requires ShortRb(F, root, p, false) && F[p].left == s && s in F && !F[s].red && F[s].left == l && Red(F, l)
    ensures RotateRight(F, p, s, false, F[s].bh).Keys == F.Keys && l in F
    ensures var G := Darken(RotateRight(F, p, s, false, F[s].bh), l);
      && l != p && l != s && p in G && s in G && l in G
      && BhOk(G, p) && RedOk(G, p, null) && BhOk(G, s) && RedOk(G, s, null) && BhOk(G, l) && RedOk(G, l, null)
  {
    SiblingIn(F, root, p, false);
    ParentIs(F, root, s, l);
    assert RedOk(F, p, null) && Linked(F, root, l) && Linked(F, root, s) && Linked(F, root, p);
    var H := RotateRight(F, p, s, false, F[s].bh);
    RotateRightKeys(F, p, s, false, F[s].bh);
    RotateRightEnds(F, root, p, s, false, F[s].bh);
    RotateRightSeen(F, root, p, s, false, F[s].bh, l);
    assert BhOk(F, l);
    RedSeen(F, F[s].left);
    RedSeen(F, F[s].right);
    RedSeen(F, F[p].right);
    RedSeen(F, F[l].left);
    RedSeen(F, F[l].right);
    RedSeen(H, F[s].left);
    RedSeen(H, F[s].right);
    RedSeen(H, F[p].right);
    RedSeen(H, H[l].left);
    RedSeen(H, H[l].right);
    hide RotateRight, See, Shape, Augmented, ShortTree, ShortRb;
  }

  lemma OuterRedOther(F: Heap, root: Node?, p: Node, s: Node, l: Node, n: Node)
    requires ShortRb(F, root, p, false) && F[p].left == s && s in F && !F[s].red && F[s].left == l && Red(F, l)
    requires n in F && n != p && n != s && n != l
    ensures RotateRight(F, p, s, false, F[s].bh).Keys == F.Keys && l in F
    ensures var G := Darken(RotateRight(F, p, s, false, F[s].bh), l);
      BhOk(G, n) && RedOk(G, n, null)
  {
    hide *;
    OpenShort(F, root, p, false);
    SiblingIn(F, root, p, false);
    ParentIs(F, root, s, l);
    var H := RotateRight(F, p, s, false, F[s].bh);
    RotateRightKeys(F, p, s, false, F[s].bh);
    RotateRightBhAt(F, root, p, s, false, F[s].bh, n);
    RotateRightRedAt(F, root, p, s, false, F[s].bh, n);
    RotateRightSeen(F, root, p, s, false, F[s].bh, n);
    SwappedIs(F[n].left, p, s);
    SwappedIs(F[n].right, p, s);
    if F[n].left == l || F[n].right == l {
      ParentIs(F, root, n, l);
      assert false;
    } else {
      DarkenOther(H, l, n);
    }
  }

  lemma SwappedIs(c: Node?, x: Node, y: Node)
    ensures Swapped(c, x, y) == if c == x then y else c
  {
  }

  lemma DarkenOther(F: Heap, l: Node, n: Node)
    requires l in F && n in F && n != l && F[n].left != l && F[n].right != l
    ensures BhOk(F, n) ==> BhOk(Darken(F, l), n)
    ensures RedOk(F, n, null) ==> RedOk(Darken(F, l), n, null)
  {
  }

  lemma DarkenSame(F: Heap, l: Node)
    requires l in F
    ensures SameLinks(F, Darken(F, l)) && Darken(F, l).Keys == F.Keys
    ensures forall r: Node? :: !Red(F, r) ==> !Red(Darken(F, l), r)
  {
  }

  /** The rotation that supplies the missing black node. */
  lemma OuterRed(F: Heap, root: Node?, p: Node, s: Node, l: Node)
    requires ShortRb(F, root, p, false) && F[p].left == s && s in F && !F[s].red && F[s].left == l && Red(F, l)
    ensures RotateRight(F, p, s, false, F[s].bh).Keys == F.Keys && l in F
    ensures var G := Darken(RotateRight(F, p, s, false, F[s].bh), l);
      RbTree(G, Swapped(root, p, s)) && SamePlaces(F, G)
  {
    hide *;
    OpenShort(F, root, p, false);
    SiblingIn(F, root, p, false);
    OuterRedEnds(F, root, p, s, l);
    var H, root' := RotateRight(F, p, s, false, F[s].bh), Swapped(root, p, s);
    var G := Darken(H, l);
    RotateRightShape(F, root, p, s, false, F[s].bh);
    RotateRightAugmented(F, root, p, s, false, F[s].bh);
    RotateRightRootRed(F, root, p, s, false, F[s].bh);
    DarkenSame(H, l);
    SameLinksShape(H, G, root');
    SameLinksAugmented(H, G, {});
    forall n | n in G ensures BhOk(G, n) && RedOk(G, n, null) {
      if n != p && n != s && n != l { OuterRedOther(F, root, p, s, l, n); }
    }
    MakeRbTree(G, root');
    PlacesThrough(F, H, G);
  }

  lemma PlacesThrough(F: Heap, G: Heap, H: Heap)
    requires SamePlaces(F, G) && SamePlaces(G, H)
    ensures SamePlaces(F, H)
  {
  }

  // ----- case 3: only the inner child of the black sibling is red

  lemma InnerRedEnds(F: Heap, root: Node?, p: Node, s: Node, l: Node)
    requires
      && ShortRb(F, root, p, true) && F[p].right == s && s in F && !F[s].red && F[s].left == l
      && Red(F, l) && !Red(F, F[s].right)
    ensures F[s].bh > 0 && l in F && l != p && s != p
    ensures var G := RotateRight(F, s, l, true, F[s].bh - 1);
      && s in G && l in G && p in G && BhOk(G, s) && RedOk(G, s, null) && BhOk(G, l) && RedOk(G, l, null)
      && Short(G, p, true) && RedOk(G, p, null) && G[p].right == l && !G[l].red && G[l].right == s
      && G[s].red && G[p].left == F[p].left && G[l].bh == F[s].bh
  {
    SiblingIn(F, root, p, true);
    ParentIs(F, root, s, l);
    assert RedOk(F, p, null) && RedOk(F, l, null) && Linked(F, root, l) && Linked(F, root, s) && Linked(F, root, p);
    var bh: nat := F[s].bh - 1;
    var G := RotateRight(F, s, l, true, bh);
    RotateRightEnds(F, root, s, l, true, bh);
    RotateRightSeen(F, root, s, l, true, bh, p);
    assert BhOk(F, l);
    RedSeen(F, F[s].right);
    RedSeen(F, F[l].left);
    RedSeen(F, F[l].right);
    RedSeen(F, F[p].left);
    RedSeen(F, F[p].right);
    RedSeen(G, F[s].right);
    RedSeen(G, F[l].left);
    RedSeen(G, F[l].right);
    RedSeen(G, G[p].left);
    RedSeen(G, G[p].right);
    hide RotateRight, See, Shape, Augmented, ShortTree, ShortRb;
  }

  /** A rotation at the sibling leaves case 4 to be done. */
  lemma InnerRed(F: Heap, root: Node?, p: Node, s: Node, l: Node)
    requires
      && ShortRb(F, root, p, true) && F[p].right == s && s in F && !F[s].red && F[s].left == l
      && Red(F, l) && !Red(F, F[s].right)
    ensures F[s].bh > 0 && l in F && l != p && s != p
    ensures var G := RotateRight(F, s, l, true, F[s].bh - 1);
      && ShortRb(G, root, p, true) && SamePlaces(F, G)
      && G[p].right == l && l in G && !G[l].red && G[l].right == s && Red(G, s)
      && G[p].left == F[p].left && G[l].bh == F[s].bh
  {
    hide *;
    OpenShort(F, root, p, true);
    SiblingIn(F, root, p, true);
    InnerRedEnds(F, root, p, s, l);
    var bh: nat := F[s].bh - 1;
    var G := RotateRight(F, s, l, true, bh);
    RotateRightShape(F, root, s, l, true, bh);
    RotateRightKeys(F, s, l, true, bh);
    RotateRightAugmented(F, root, s, l, true, bh);
    RotateRightRootRed(F, root, s, l, true, bh);
    RootHasNoParent(F, root);
    SwappedIs(root, s, l);
    forall n | n in G ensures (n != p ==> BhOk(G, n)) && RedOk(G, n, null) {
      if n != p && n != s && n != l {
        RotateRightBhAt(F, root, s, l, true, bh, n);
        RotateRightRedAt(F, root, s, l, true, bh, n);
      }
    }
    RedIs(G, s);
    MakeShortRb(G, root, p, true);
  }

  lemma RootHasNoParent(F: Heap, root: Node?)
    requires Shape(F, root)
    ensures root != null ==> root in F && F[root].parent == null
  {
  }

  // ----- the mirror images of the four cases

  lemma MirrorRedSibling(F: Heap, root: Node?, p: Node, s: Node)
    requires ShortRb(F, root, p, true) && F[p].right == s && Red(F, s)
    ensures F[p].bh > 0
    ensures var G, root' := RotateLeft(F, p, s, true, F[p].bh - 1), Swapped(root, p, s);
      && ShortRb(G, root', p, true) && SamePlaces(F, G) && G[p].red && G[p].right == F[s].left
      && !Red(G, G[p].right) && G[p].parent == s
      && G[p].left == F[p].left
  {
    hide *;
    OpenShort(F, root, p, true);
    SiblingIn(F, root, p, true);
    MirrorShort(F, root, p, true);
    MirrorParts(F, p);
    MirrorParts(F, s);
    MirrorRed(F, s);
    var M := Mirror(F);
    RedSibling(M, root, p, s);
    var G, root' := RotateLeft(F, p, s, true, F[p].bh - 1), Swapped(root, p, s);
    MirrorRotate(F, root, p, s, true, F[p].bh - 1);
    MirrorShort(Mirror(G), root', p, false);
    MirrorMirror(G);
    MirrorPlaces(F, G);
    RotateLeftKeys(F, p, s, true, F[p].bh - 1);
    MirrorParts(G, p);
    MirrorRed(G, p);
    RedIs(Mirror(G), p);
    RedIs(G, p);
    MirrorRed(G, G[p].right);
  }

  lemma MirrorDim(F: Heap, p: Node, s: Node)
    ensures Mirror(Dim(F, p, s)) == Dim(Mirror(F), p, s)
  {
    forall n | n in F ensures Flip(DimmedAt(F, p, s, n)) == DimmedAt(Mirror(F), p, s, n) {}
  }

  lemma MirrorBlackSibling(F: Heap, root: Node?, p: Node, s: Node)
    requires
      ShortRb(F, root, p, true) && F[p].right == s && s in F && !F[s].red && !Red(F, F[s].left) && !Red(F, F[s].right)
    ensures var G, q := Dim(F, p, s), F[p].parent;
      && SamePlaces(F, G) && SameLinks(F, G)
      && (F[p].red || q == null ==> RbTree(G, root))
      && (!F[p].red && q != null ==> q in F && ShortRb(G, root, q, F[q].left == p))
  {
    hide *;
    OpenShort(F, root, p, true);
    MirrorShort(F, root, p, true);
    MirrorParts(F, p);
    MirrorParts(F, s);
    MirrorRed(F, s);
    MirrorRed(F, p);
    RedIs(F, s);
    RedIs(Mirror(F), s);
    RedIs(F, p);
    RedIs(Mirror(F), p);
    MirrorRed(F, F[s].left);
    MirrorRed(F, F[s].right);
    var M, G, q := Mirror(F), Dim(F, p, s), F[p].parent;
    BlackSibling(M, root, p, s);
    MirrorDim(F, p, s);
    MirrorMirror(G);
    MirrorPlaces(F, G);
    DimSame(F, p, s);
    if F[p].red || q == null {
      MirrorRbTree(Mirror(G), root);
    } else {
      ChildOfParent(F, root, p);
      OneSide(F, root, p);
      MirrorParts(F, q);
      MirrorShort(Mirror(G), root, q, M[q].left == p);
    }
  }

  lemma OneSide(F: Heap, root: Node?, c: Node)
    requires Shape(F, root) && c in F && F[c].parent != null
    ensures F[c].parent in F && (F[F[c].parent].left == c) == (F[F[c].parent].right != c)
  {
    assert Linked(F, root, c) && Linked(F, root, F[c].parent);
  }

  lemma MirrorDarken(F: Heap, l: Node)
    requires l in F
    ensures l in Mirror(F) && Mirror(Darken(F, l)) == Darken(Mirror(F), l)
  {
  }

  lemma MirrorOuterRed(F: Heap, root: Node?, p: Node, s: Node, l: Node)
    requires ShortRb(F, root, p, true) && F[p].right == s && s in F && !F[s].red && F[s].right == l && Red(F, l)
    ensures RotateLeft(F, p, s, false, F[s].bh).Keys == F.Keys && l in F
    ensures var G := Darken(RotateLeft(F, p, s, false, F[s].bh), l);
      RbTree(G, Swapped(root, p, s)) && SamePlaces(F, G)
  {
    hide *;
    OpenShort(F, root, p, true);
    MirrorShort(F, root, p, true);
    MirrorParts(F, p);
    MirrorParts(F, s);
    MirrorRed(F, s);
    RedIs(F, s);
    RedIs(Mirror(F), s);
    MirrorRed(F, l);
    RedIs(F, l);
    OuterRed(Mirror(F), root, p, s, l);
    RotateLeftKeys(F, p, s, false, F[s].bh);
    var H := RotateLeft(F, p, s, false, F[s].bh);
    MirrorRotate(F, root, p, s, false, F[s].bh);
    MirrorDarken(H, l);
    var G := Darken(H, l);
    MirrorRbTree(Mirror(G), Swapped(root, p, s));
    MirrorMirror(G);
    MirrorPlaces(F, G);
  }

  lemma MirrorInnerRed(F: Heap, root: Node?, p: Node, s: Node, l: Node)
    requires
      && ShortRb(F, root, p, false) && F[p].left == s && s in F && !F[s].red && F[s].right == l
      && Red(F, l) && !Red(F, F[s].left)
    ensures F[s].bh > 0 && l in F && l != p && s != p
    ensures var G := RotateLeft(F, s, l, true, F[s].bh - 1);
      && ShortRb(G, root, p, false) && SamePlaces(F, G)
      && G[p].left == l && l in G && !G[l].red && G[l].left == s && Red(G, s)
      && G[p].right == F[p].right && G[l].bh == F[s].bh
  {
    hide *;
    OpenShort(F, root, p, false);
    MirrorShort(F, root, p, false);
    MirrorParts(F, p);
    MirrorParts(F, s);
    MirrorRed(F, s);
    RedIs(F, s);
    RedIs(Mirror(F), s);
    MirrorRed(F, l);
    RedIs(F, l);
    MirrorRed(F, F[s].left);
    InnerRed(Mirror(F), root, p, s, l);
    var bh: nat := F[s].bh - 1;
    RotateLeftKeys(F, s, l, true, bh);
    var G := RotateLeft(F, s, l, true, bh);
    MirrorRotate(F, root, s, l, true, bh);
    MirrorShort(Mirror(G), root, p, true);
    MirrorMirror(G);
    MirrorPlaces(F, G);
    MirrorParts(G, p);
    MirrorParts(G, l);
    MirrorRed(G, l);
    RedIs(G, l);
    RedIs(Mirror(G), l);
    MirrorRed(G, s);
  }
}
