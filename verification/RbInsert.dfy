/** The cases of __rb_insert on values: each keeps the loop's invariant or finishes the tree. */
module RbInsert {
  import opened RbHeap
  import opened RbRotate

  /** All red-black properties except that the red node x may have a red parent, or be the root. */
  ghost predicate AlmostRb(F: Heap, root: Node?, x: Node) {
    && Shape(F, root) && Balanced(F) && Coloured(F, x) && Augmented(F, {})
    && Red(F, x) && (Red(F, root) ==> root == x)
  }

  /** A red-black tree with correct augmented values. */
  ghost predicate RbTree(F: Heap, root: Node?) {
    Shape(F, root) && Balanced(F) && Coloured(F, null) && Augmented(F, {}) && !Red(F, root)
  }

  lemma MakeRbTree(F: Heap, root: Node?)
    requires Shape(F, root) && Augmented(F, {}) && !Red(F, root)
    requires forall n :: n in F ==> BhOk(F, n) && RedOk(F, n, null)
    ensures RbTree(F, root)
  {
  }

  lemma OpenRbTree(F: Heap, root: Node?)
    requires RbTree(F, root)
    ensures Shape(F, root) && Balanced(F) && Coloured(F, null) && Augmented(F, {}) && !Red(F, root)
    ensures root != null ==> root in F && F[root].lo == 0.0 && F[root].hi == 1.0 && F[root].parent == null
    ensures root == null ==> F == map[]
    ensures forall n :: n in F ==> BhOk(F, n) && RedOk(F, n, null)
  {
  }

  lemma AugmentedAt(F: Heap, E: set<Node>, n: Node)
    requires Augmented(F, E) && n in F && n !in E
    ensures F[n].augmented == AugOf(F, n)
  {
  }

  lemma MakeAugmented(F: Heap, E: set<Node>)
    requires forall n :: n in F && n !in E ==> F[n].augmented == AugOf(F, n)
    ensures Augmented(F, E)
  {
  }

  lemma MakeColoured(F: Heap)
    requires forall n :: n in F ==> RedOk(F, n, null)
    ensures Coloured(F, null)
  {
  }

  lemma MakeBalanced(F: Heap)
    requires forall n :: n in F ==> BhOk(F, n)
    ensures Balanced(F)
  {
  }

  lemma OpenAlmostRb(F: Heap, root: Node?, x: Node)
    requires AlmostRb(F, root, x)
    ensures Shape(F, root) && Augmented(F, {}) && Red(F, x) && x in F && (Red(F, root) ==> root == x)
    ensures forall n :: n in F ==> BhOk(F, n) && RedOk(F, n, x)
  {
  }

  lemma MirrorAlmostRb(F: Heap, root: Node?, x: Node)
    requires AlmostRb(F, root, x)
    ensures AlmostRb(Mirror(F), root, x)
  {
    MirrorShape(F, root);
    MirrorColours(F, x);
    MirrorAugmented(F, {});
    hide Shape, Balanced, Coloured, Augmented;
  }

  lemma MirrorRbTree(F: Heap, root: Node?)
    requires RbTree(F, root)
    ensures RbTree(Mirror(F), root)
  {
    MirrorShape(F, root);
    MirrorColours(F, null);
    MirrorAugmented(F, {});
    hide Shape, Balanced, Coloured, Augmented;
  }

  // ----- no parent, or a black parent

  ghost function Blacken(F: Heap, n: Node): Heap
    requires n in F
  {
    F[n := F[n].(red := false, bh := F[n].bh + 1)]
  }

  lemma BlackenAt(F: Heap, root: Node?, x: Node, n: Node)
    requires Shape(F, root) && x in F && F[x].parent == null && F[x].red
    requires n in F && BhOk(F, n) && RedOk(F, n, x)
    ensures BhOk(Blacken(F, x), n) && RedOk(Blacken(F, x), n, null)
  {
    assert Linked(F, root, n);
    hide Shape;
  }

  lemma BlackenSame(F: Heap, x: Node)
    requires x in F
    ensures SameLinks(F, Blacken(F, x))
  {
  }

  lemma BlackenRoot(F: Heap, root: Node?, x: Node)
    requires AlmostRb(F, root, x) && F[x].parent == null
    ensures RbTree(Blacken(F, x), root) && SamePlaces(F, Blacken(F, x))
  {
    var G := Blacken(F, x);
    assert root == x by { assert Linked(F, root, x); }
    BlackenSame(F, x);
    SameLinksShape(F, G, root);
    SameLinksAugmented(F, G, {});
    hide Shape, Augmented, BhOk, RedOk;
    forall n | n in G ensures BhOk(G, n) && RedOk(G, n, null) {
      BlackenAt(F, root, x, n);
    }
  }

  lemma BlackParent(F: Heap, root: Node?, x: Node)
    requires AlmostRb(F, root, x) && F[x].parent != null && !Red(F, F[x].parent)
    ensures RbTree(F, root)
  {
    assert Linked(F, root, x);
    forall n | n in F ensures RedOk(F, n, null) {
      assert RedOk(F, n, x) && Linked(F, root, n);
    }
  }

  /** A red parent has a black parent of its own. */
  lemma RedParent(F: Heap, root: Node?, x: Node)
    requires AlmostRb(F, root, x) && Red(F, F[x].parent)
    ensures x in F
    ensures F[x].parent in F
    ensures F[F[x].parent].parent in F
    ensures var p := F[x].parent; var g := F[p].parent;
      && F[x].red && F[p].red && !F[g].red && p != x && g != x && g != p
      && (F[g].left == p || F[g].right == p) && !(F[g].left == p && F[g].right == p)
      && (F[p].left == x || F[p].right == x) && !(F[p].left == x && F[p].right == x)
      && p != root && g != null && p != null
  {
    var p := F[x].parent;
    assert Linked(F, root, x) && Linked(F, root, p);
    var g := F[p].parent;
    assert Linked(F, root, g) && RedOk(F, g, x);
  }

  // ----- case 1: the uncle is red

  ghost function Flipped(F: Heap, g: Node, p: Node, u: Node, n: Node): Fields
    requires n in F
  {
    if n == p || n == u then F[n].(red := false, bh := F[n].bh + 1)
    else if n == g then F[n].(red := true)
    else F[n]
  }

  ghost function FlipColours(F: Heap, g: Node, p: Node, u: Node): Heap {
    map n | n in F :: Flipped(F, g, p, u, n)
  }

  ghost predicate Siblings(F: Heap, g: Node, p: Node, u: Node) {
    && g in F && p in F && u in F && p != u && g != p && g != u
    && ((F[g].left == p && F[g].right == u) || (F[g].left == u && F[g].right == p))
  }

  /** Only g sees p and u. */
  lemma OnlyParentSees(F: Heap, root: Node?, g: Node, p: Node, u: Node, n: Node)
    requires Shape(F, root) && Siblings(F, g, p, u) && n in F && n != g
    ensures F[n].left != p && F[n].left != u && F[n].right != p && F[n].right != u
  {
    assert Linked(F, root, g) && Linked(F, root, n);
  }

  lemma FlipBhAt(F: Heap, root: Node?, g: Node, p: Node, u: Node, n: Node)
    requires Shape(F, root) && Siblings(F, g, p, u) && F[p].red && F[u].red && !F[g].red
    requires n in F && BhOk(F, n)
    ensures BhOk(FlipColours(F, g, p, u), n)
  {
    if n != g { OnlyParentSees(F, root, g, p, u, n); }
    hide Shape, Siblings;
  }

  lemma FlipRedAt(F: Heap, root: Node?, x: Node, g: Node, p: Node, u: Node, n: Node)
    requires Shape(F, root) && Siblings(F, g, p, u) && F[p].red && F[u].red && !F[g].red
    requires x in F && F[x].parent == p && n in F && RedOk(F, n, x)
    ensures RedOk(FlipColours(F, g, p, u), n, g)
  {
    if n != g { OnlyParentSees(F, root, g, p, u, n); }
    assert n != p ==> F[n].left != x && F[n].right != x by { assert Linked(F, root, x) && Linked(F, root, n); }
    hide Shape;
  }

  lemma FlipSame(F: Heap, g: Node, p: Node, u: Node)
    ensures SameLinks(F, FlipColours(F, g, p, u))
  {
  }

  /** Case 1 keeps the invariant, now with the grandparent as the offending node. */
  lemma RedUncle(F: Heap, root: Node?, x: Node, g: Node, p: Node, u: Node)
    requires AlmostRb(F, root, x) && F[x].parent == p && Red(F, p) && F[p].parent == g
    requires Siblings(F, g, p, u) && Red(F, u)
    ensures AlmostRb(FlipColours(F, g, p, u), root, g) && SamePlaces(F, FlipColours(F, g, p, u))
  {
    var G := FlipColours(F, g, p, u);
    RedParent(F, root, x);
    FlipSame(F, g, p, u);
    SameLinksShape(F, G, root);
    SameLinksAugmented(F, G, {});
    hide Shape, Augmented, BhOk, RedOk, SameLinks, SamePlaces;
    forall n | n in G ensures BhOk(G, n) && RedOk(G, n, g) {
      FlipBhAt(F, root, g, p, u, n);
      FlipRedAt(F, root, x, g, p, u, n);
    }
    RootOrChild(F, root, g, u);
  }

  lemma RootOrChild(F: Heap, root: Node?, g: Node, u: Node)
    requires Shape(F, root) && g in F && (F[g].left == u || F[g].right == u) && u in F
    ensures root != u && root in F
  {
    assert Linked(F, root, g) && Linked(F, root, u);
  }

  // ----- case 2: an inner grandchild is rotated outwards

  /** What BhOk and RedOk say, through the children as seen. */
  ghost predicate FineAs(f: Fields, l: Seen, r: Seen) {
    && SeenBh(l) == SeenBh(r) && f.bh == SeenBh(l) + (if f.red then 0 else 1)
  }

  lemma BhFine(F: Heap, n: Node)
    requires n in F
    ensures BhOk(F, n) <==> FineAs(F[n], See(F, F[n].left), See(F, F[n].right))
  {
  }

  ghost predicate SeenRed(s: Seen) {
    s.Child? && s.red
  }

  lemma RedSeen(F: Heap, c: Node?)
    ensures Red(F, c) == SeenRed(See(F, c)) && Bh(F, c) == SeenBh(See(F, c))
  {
  }

  lemma RotateRightBhAt(F: Heap, root: Node?, x: Node, y: Node, red: bool, bh: nat, n: Node)
    requires Shape(F, root) && x in F && F[x].left == y && y in F && n in F
    requires n != x && n != y && BhOk(F, n)
    ensures BhOk(RotateRight(F, x, y, red, bh), n)
  {
    RotateRightSeen(F, root, x, y, red, bh, n);
    BhFine(F, n);
    BhFine(RotateRight(F, x, y, red, bh), n);
    hide *;
    hide RotateRight, See;
  }

  /** Below any node but the parent of x there are no two red nodes in a row. */
  lemma NotParent(F: Heap, root: Node?, x: Node, n: Node)
    requires Shape(F, root) && x in F && n in F && RedOk(F, n, x) && F[x].parent != n
    ensures RedOk(F, n, null)
  {
    assert Linked(F, root, n);
  }

  lemma RotateRightRedAt(F: Heap, root: Node?, x: Node, y: Node, red: bool, bh: nat, n: Node)
    requires Shape(F, root) && x in F && F[x].left == y && y in F && n in F
    requires n != x && n != y && RedOk(F, n, null)
    ensures RedOk(RotateRight(F, x, y, red, bh), n, null)
  {
    var G := RotateRight(F, x, y, red, bh);
    RotateRightSeen(F, root, x, y, red, bh, n);
    RedSeen(F, F[n].left);
    RedSeen(F, F[n].right);
    RedSeen(G, G[n].left);
    RedSeen(G, G[n].right);
    hide RotateRight, See, Shape, Red;
  }

  lemma RedOkAny(F: Heap, n: Node, x: Node?)
    requires n in F && RedOk(F, n, null)
    ensures RedOk(F, n, x)
  {
  }

  lemma InnerChildEnds(F: Heap, root: Node?, p: Node, x: Node)
    requires AlmostRb(F, root, x) && F[x].parent == p && p in F && F[p].left == x && Red(F, p)
    ensures var G := RotateRight(F, p, x, true, F[p].bh);
      p in G && x in G && BhOk(G, p) && RedOk(G, p, p) && BhOk(G, x) && RedOk(G, x, p) && G[p].red
  {
    var G := RotateRight(F, p, x, true, F[p].bh);
    RotateRightEnds(F, root, p, x, true, F[p].bh);
    assert Linked(F, root, p) && BhOk(F, p) && BhOk(F, x) && RedOk(F, p, x) && RedOk(F, x, x);
    RedSeen(F, F[x].left);
    RedSeen(F, F[x].right);
    RedSeen(F, F[p].right);
    RedSeen(G, F[x].left);
    RedSeen(G, F[x].right);
    RedSeen(G, F[p].right);
    hide RotateRight, See, Shape, Balanced, Coloured, Augmented;
  }

  /** With x the left child of p: after the rotation p is the offending node below x. */
  lemma InnerChild(F: Heap, root: Node?, p: Node, x: Node)
    requires AlmostRb(F, root, x) && F[x].parent == p && p in F && F[p].left == x && Red(F, p)
    ensures AlmostRb(RotateRight(F, p, x, true, F[p].bh), root, p)
    ensures SamePlaces(F, RotateRight(F, p, x, true, F[p].bh))
  {
    var G := RotateRight(F, p, x, true, F[p].bh);
    RedParent(F, root, x);
    InnerChildEnds(F, root, p, x);
    RotateRightShape(F, root, p, x, true, F[p].bh);
    RotateRightAugmented(F, root, p, x, true, F[p].bh);
    hide RotateRight, Shape, BhOk, RedOk, Augmented;
    forall n | n in G ensures BhOk(G, n) && RedOk(G, n, p) {
      if n != p && n != x {
        RotateRightBhAt(F, root, p, x, true, F[p].bh, n);
        NotParent(F, root, x, n);
        RotateRightRedAt(F, root, p, x, true, F[p].bh, n);
        RedOkAny(G, n, p);
      }
    }
    RotateRightRootRed(F, root, p, x, true, F[p].bh);
  }

  lemma RotateRightRootRed(F: Heap, root: Node?, x: Node, y: Node, red: bool, bh: nat)
    requires Shape(F, root) && x in F && F[x].left == y && y in F
    ensures Red(RotateRight(F, x, y, red, bh), Swapped(root, x, y)) == Red(F, root)
  {
    RotateRightEnds(F, root, x, y, red, bh);
    if root != x {
      assert Linked(F, root, root) && Linked(F, root, y);
      RotateRightSeen(F, root, x, y, red, bh, root);
      hide RotateRight, Shape, See;
    }
  }

  // ----- case 3: an outer grandchild, one rotation at the grandparent

  lemma OuterChildEnds(F: Heap, root: Node?, g: Node, p: Node, x: Node)
    requires AlmostRb(F, root, x) && F[x].parent == p && p in F && Red(F, p) && F[p].parent == g && g in F
    requires F[g].left == p && F[p].left == x && !Red(F, F[g].right)
    ensures F[g].bh > 0
    ensures var G := RotateRight(F, g, p, true, F[g].bh - 1);
      p in G && g in G && BhOk(G, p) && RedOk(G, p, null) && BhOk(G, g) && RedOk(G, g, null)
  {
    RedParent(F, root, x);
    assert Linked(F, root, p) && BhOk(F, p) && BhOk(F, g) && RedOk(F, p, x);
    assert F[g].bh > 0;
    var G := RotateRight(F, g, p, true, F[g].bh - 1);
    RotateRightEnds(F, root, g, p, true, F[g].bh - 1);
    RedSeen(F, F[g].right);
    RedSeen(F, F[p].left);
    RedSeen(F, F[p].right);
    RedSeen(G, F[g].right);
    RedSeen(G, F[p].left);
    RedSeen(G, F[p].right);
    hide RotateRight, See, Shape, Balanced, Coloured, Augmented;
  }

  /** With x the left child of p and p that of g, and no red uncle: one rotation finishes the tree. */
  lemma OuterChild(F: Heap, root: Node?, g: Node, p: Node, x: Node)
    requires AlmostRb(F, root, x) && F[x].parent == p && p in F && Red(F, p) && F[p].parent == g && g in F
    requires F[g].left == p && F[p].left == x && !Red(F, F[g].right)
    ensures F[g].bh > 0
    ensures RbTree(RotateRight(F, g, p, true, F[g].bh - 1), Swapped(root, g, p))
    ensures SamePlaces(F, RotateRight(F, g, p, true, F[g].bh - 1))
  {
    hide *;
    OpenAlmostRb(F, root, x);
    RedParent(F, root, x);
    RootNotOffender(F, root, x);
    OuterChildEnds(F, root, g, p, x);
    var bh := F[g].bh - 1;
    var G := RotateRight(F, g, p, true, bh);
    RotateRightShape(F, root, g, p, true, bh);
    RotateRightKeys(F, g, p, true, bh);
    RotateRightAugmented(F, root, g, p, true, bh);
    forall n | n in G ensures BhOk(G, n) && RedOk(G, n, null) {
      if n != g && n != p {
        RotateRightBhAt(F, root, g, p, true, bh, n);
        NotParent(F, root, x, n);
        RotateRightRedAt(F, root, g, p, true, bh, n);
      }
    }
    RotateRightRootRed(F, root, g, p, true, bh);
    MakeRbTree(G, Swapped(root, g, p));
  }

  lemma RootNotOffender(F: Heap, root: Node?, x: Node)
    requires AlmostRb(F, root, x) && F[x].parent != null
    ensures !Red(F, root)
  {
    assert Linked(F, root, x);
  }

  // ----- the mirror images of cases 2 and 3

  lemma MirrorPlaces(F: Heap, G: Heap)
    ensures SamePlaces(Mirror(F), Mirror(G)) ==> SamePlaces(F, G)
  {
    if SamePlaces(Mirror(F), Mirror(G)) {
      assert Mirror(F).Keys == F.Keys && Mirror(G).Keys == G.Keys;
      forall n | n in F ensures n in G && G[n].pos == F[n].pos {
        assert Mirror(G)[n].pos == Mirror(F)[n].pos;
      }
    }
  }

  lemma MirrorParts(F: Heap, n: Node)
    requires n in F
    ensures n in Mirror(F) && Mirror(F)[n].parent == F[n].parent && Mirror(F)[n].bh == F[n].bh
    ensures Mirror(F)[n].left == F[n].right && Mirror(F)[n].right == F[n].left && Mirror(F)[n].red == F[n].red
  {
  }

  lemma MirrorRed(F: Heap, n: Node?)
    ensures Red(Mirror(F), n) == Red(F, n)
  {
  }

  lemma MirrorInnerChild(F: Heap, root: Node?, p: Node, x: Node)
    requires AlmostRb(F, root, x) && F[x].parent == p && p in F && F[p].right == x && Red(F, p)
    ensures AlmostRb(RotateLeft(F, p, x, true, F[p].bh), root, p)
    ensures SamePlaces(F, RotateLeft(F, p, x, true, F[p].bh))
  {
    hide *;
    OpenAlmostRb(F, root, x);
    var M, G := Mirror(F), RotateLeft(F, p, x, true, F[p].bh);
    MirrorAlmostRb(F, root, x);
    MirrorRed(F, p);
    MirrorParts(F, x);
    MirrorParts(F, p);
    InnerChild(M, root, p, x);
    MirrorRotate(F, root, p, x, true, F[p].bh);
    MirrorAlmostRb(Mirror(G), root, p);
    MirrorMirror(G);
    MirrorPlaces(F, G);
  }

  lemma MirrorOuterChild(F: Heap, root: Node?, g: Node, p: Node, x: Node)
    requires AlmostRb(F, root, x) && F[x].parent == p && p in F && Red(F, p) && F[p].parent == g && g in F
    requires F[g].right == p && F[p].right == x && !Red(F, F[g].left)
    ensures F[g].bh > 0
    ensures RbTree(RotateLeft(F, g, p, true, F[g].bh - 1), Swapped(root, g, p))
    ensures SamePlaces(F, RotateLeft(F, g, p, true, F[g].bh - 1))
  {
    hide *;
    OpenAlmostRb(F, root, x);
    var M := Mirror(F);
    MirrorAlmostRb(F, root, x);
    MirrorRed(F, p);
    MirrorRed(F, F[g].left);
    MirrorParts(F, x);
    MirrorParts(F, p);
    MirrorParts(F, g);
    OuterChild(M, root, g, p, x);
    var bh := F[g].bh - 1;
    var G := RotateLeft(F, g, p, true, bh);
    MirrorRotate(F, root, g, p, true, bh);
    MirrorRbTree(Mirror(G), Swapped(root, g, p));
    MirrorMirror(G);
    MirrorPlaces(F, G);
  }
}
