/** Unlinking a node and repairing the colours afterwards, on values. */
module RbErase {
  import opened RbHeap
  import opened RbRotate
  import opened RbInsert
  import RbOrder

  // ----- one child missing: the other takes the place of the node

  ghost function UnlinkedAt(F: Heap, s: Node, m: Node): Fields
    requires s in F && m in F
  {
    var p, c, f := F[s].parent, F[s].right, F[m];
    if m == c then f.(parent := p, red := F[s].red, lo := F[s].lo, bh := F[s].bh)
    else if m == p then f.(left := Swapped(f.left, s, c), right := Swapped(f.right, s, c))
    else f
  }

  /** s, which has no left child, is replaced by its right child; a child takes over the colour of s. */
  ghost function Unlink(F: Heap, s: Node): Heap
    requires s in F
  {
    map m | m in F.Keys - {s} :: UnlinkedAt(F, s, m)
  }

  lemma UnlinkAt(F: Heap, s: Node, m: Node)
    requires s in F && m in F && m != s
    ensures Unlink(F, s).Keys == F.Keys - {s} && Unlink(F, s)[m] == UnlinkedAt(F, s, m)
  {
  }

  lemma BlackCounts(F: Heap, n: Node?)
    requires Balanced(F)
    ensures n in F && !Red(F, n) ==> Bh(F, n) > 0
  {
    assert n in F ==> BhOk(F, n);
  }

  /** An only child is a red leaf, and its parent is black. */
  lemma OnlyChildRed(F: Heap, root: Node?, s: Node)
    requires Shape(F, root) && Balanced(F) && Coloured(F, null) && s in F && F[s].left == null
    ensures var c := F[s].right;
      if c == null then F[s].bh == (if F[s].red then 0 else 1)
      else
        && c in F && F[c].red && F[c].left == null && F[c].right == null && !F[s].red && F[s].bh == 1
        && F[c].parent == s && c != s
    ensures F[s].right in F ==> F[F[s].right].lo == F[s].pos && F[F[s].right].hi == F[s].hi && F[F[s].right].bh == 0
  {
    var c := F[s].right;
    assert Linked(F, root, s) && BhOk(F, s) && RedOk(F, s, null);
    if c != null {
      assert Linked(F, root, c) && BhOk(F, c) && RedOk(F, c, null);
      BlackCounts(F, F[c].left);
      BlackCounts(F, F[c].right);
    }
  }

  /** The same on the other side: a node with a left child only is black, and the child is a red leaf. */
  lemma OnlyLeftChildRed(F: Heap, root: Node?, s: Node)
    requires Shape(F, root) && Balanced(F) && Coloured(F, null) && s in F && F[s].right == null && F[s].left != null
    ensures var c := F[s].left;
      && c in F && F[c].red && F[c].left == null && F[c].right == null && !F[s].red && F[s].bh == 1
      && F[c].parent == s && c != s
  {
    var c := F[s].left;
    assert Linked(F, root, s) && BhOk(F, s) && RedOk(F, s, null);
    assert Linked(F, root, c) && BhOk(F, c) && RedOk(F, c, null);
    BlackCounts(F, F[c].left);
    BlackCounts(F, F[c].right);
  }

  lemma UnlinkLeftOk(F: Heap, root: Node?, s: Node, m: Node)
    requires Shape(F, root) && Balanced(F) && Coloured(F, null) && s in F && F[s].left == null && m in F && m != s
    ensures m in Unlink(F, s) && LeftOk(Unlink(F, s), m)
  {
    OnlyChildRed(F, root, s);
    assert Linked(F, root, s) && Linked(F, root, m);
    UnlinkAt(F, s, m);
    if F[m].left != null && F[m].left != s { UnlinkAt(F, s, F[m].left); }
    if F[s].right != null { UnlinkAt(F, s, F[s].right); }
    hide Shape, Unlink, Balanced, Coloured;
  }

  lemma UnlinkRightOk(F: Heap, root: Node?, s: Node, m: Node)
    requires Shape(F, root) && Balanced(F) && Coloured(F, null) && s in F && F[s].left == null && m in F && m != s
    ensures m in Unlink(F, s) && RightOk(Unlink(F, s), m)
  {
    OnlyChildRed(F, root, s);
    assert Linked(F, root, s) && Linked(F, root, m);
    UnlinkAt(F, s, m);
    if F[m].right != null && F[m].right != s { UnlinkAt(F, s, F[m].right); }
    if F[s].right != null { UnlinkAt(F, s, F[s].right); }
    hide Shape, Unlink, Balanced, Coloured;
  }

  lemma ParentNotSelf(F: Heap, root: Node?, s: Node, m: Node)
    requires Shape(F, root) && s in F && m in F
    ensures F[s].parent != s && (F[m].parent == s ==> F[s].left == m || F[s].right == m)
  {
    assert Linked(F, root, s) && Linked(F, root, m);
  }

  lemma UpFacts(F: Heap, root: Node?, m: Node)
    requires Shape(F, root) && m in F
    ensures F[m].lo < F[m].pos < F[m].hi && (F[m].parent == null <==> m == root) && root in F
    ensures F[m].parent != null ==> F[m].parent in F && (F[F[m].parent].left == m || F[F[m].parent].right == m)
    ensures F[m].right != null ==> F[m].right in F && F[F[m].right].parent == m && F[F[m].right].lo == F[m].pos
  {
    assert Linked(F, root, m) && root in F;
  }

  /** The upward link of m after unlinking s, from the facts about m and s alone. */
  lemma UnlinkUp(F: Heap, root: Node?, s: Node, m: Node)
    requires
      && s in F && m in F && m != s && root in F && F[s].left == null && F[m].lo < F[m].pos < F[m].hi
      && F[s].lo < F[s].pos
    requires (F[m].parent == null <==> m == root) && (F[s].parent == null <==> s == root) && F[s].parent != s
    requires F[m].parent != null ==> F[m].parent in F && (F[F[m].parent].left == m || F[F[m].parent].right == m)
    requires F[s].parent != null ==> F[s].parent in F && (F[F[s].parent].left == s || F[F[s].parent].right == s)
    requires F[m].parent == s <==> F[s].right == m
    requires F[s].right == m ==> F[m].lo == F[s].pos
    requires F[s].parent != null ==> F[s].parent != F[s].right
    ensures m in Unlink(F, s) && UpOk(Unlink(F, s), Swapped(root, s, F[s].right), m)
  {
  }

  lemma UnlinkUpOk(F: Heap, root: Node?, s: Node, m: Node)
    requires Shape(F, root) && Balanced(F) && Coloured(F, null) && s in F && F[s].left == null && m in F && m != s
    ensures m in Unlink(F, s) && UpOk(Unlink(F, s), Swapped(root, s, F[s].right), m)
  {
    hide *;
    OnlyChildRed(F, root, s);
    UpFacts(F, root, s);
    UpFacts(F, root, m);
    ParentNotSelf(F, root, s, m);
    UnlinkAt(F, s, m);
    if F[m].parent != null && F[m].parent != s { UnlinkAt(F, s, F[m].parent); }
    if F[s].parent != null { UnlinkAt(F, s, F[s].parent); }
    UnlinkUp(F, root, s, m);
  }

  lemma UnlinkRoot(F: Heap, root: Node?, s: Node)
    requires Shape(F, root) && Balanced(F) && Coloured(F, null) && s in F && F[s].left == null
    ensures RootOk(Unlink(F, s), Swapped(root, s, F[s].right))
  {
    OnlyChildRed(F, root, s);
    assert Linked(F, root, s);
    if s == root {
      if F[s].right == null {
        forall m | m in F ensures m == s {
          AloneOrNot(F, root, s, m);
        }
      }
    } else {
      assert Linked(F, root, root);
    }
    hide Balanced, Coloured, Linked;
  }

  /** A root without children is the only node. */
  lemma AloneOrNot(F: Heap, root: Node?, s: Node, m: Node)
    requires Shape(F, root) && s == root && m in F && F[s].left == null && F[s].right == null
    ensures m == s
  {
    RbOrder.UnderRoot(F, root, m);
    if m != s { RbOrder.UnderChild(F, root, s, m); }
  }

  lemma UnlinkShape(F: Heap, root: Node?, s: Node)
    requires Shape(F, root) && Balanced(F) && Coloured(F, null) && s in F && F[s].left == null
    ensures Shape(Unlink(F, s), Swapped(root, s, F[s].right))
    ensures Unlink(F, s).Keys == F.Keys - {s} && forall m :: m in F && m != s ==> Unlink(F, s)[m].pos == F[m].pos
  {
    var G := Unlink(F, s);
    UnlinkRoot(F, root, s);
    hide LeftOk, RightOk, UpOk, Balanced, Coloured, RootOk;
    forall m | m in G ensures Linked(G, Swapped(root, s, F[s].right), m) {
      UnlinkLeftOk(F, root, s, m);
      UnlinkRightOk(F, root, s, m);
      UnlinkUpOk(F, root, s, m);
    }
  }

  /** Only the parent of s sees a difference. */
  lemma UnlinkSeen(F: Heap, root: Node?, s: Node, m: Node)
    requires
      && Shape(F, root) && Balanced(F) && Coloured(F, null) && s in F && F[s].left == null && m in F
      && m != s && m != F[s].parent
    ensures var G := Unlink(F, s);
      && m in G && G[m].left == F[m].left && G[m].right == F[m].right && G[m].augmented == F[m].augmented
      && (m != F[s].right ==>
            G[m] == F[m] && See(G, G[m].left) == See(F, F[m].left) && See(G, G[m].right) == See(F, F[m].right))
      && (m == F[s].right ==> G[m].left == null && G[m].right == null && G[m].bh == 1 && !G[m].red)
  {
    OnlyChildRed(F, root, s);
    assert Linked(F, root, s) && Linked(F, root, m);
    UnlinkAt(F, s, m);
    if F[m].left != null { UnlinkAt(F, s, F[m].left); }
    if F[m].right != null { UnlinkAt(F, s, F[m].right); }
    hide Shape, Unlink, Balanced, Coloured;
  }

  // ----- what unlinking leaves to repair

  /** The child of p on the given side has one black node too few below it; p counts as if it had not. */
  ghost predicate Short(F: Heap, p: Node, left: bool)
    requires p in F
  {
    var a, b := if left then F[p].left else F[p].right, if left then F[p].right else F[p].left;
    Bh(F, a) + 1 == Bh(F, b) && F[p].bh == Bh(F, b) + (if F[p].red then 0 else 1) && !Red(F, a)
  }

  /** A red-black tree but for that one child of p. */
  ghost predicate ShortTree(F: Heap, root: Node?, p: Node, left: bool) {
    && Shape(F, root) && !Red(F, root) && p in F && Short(F, p, left)
    && forall n :: n in F ==> (n != p ==> BhOk(F, n)) && RedOk(F, n, null)
  }

  /** The invariant of ____rb_erase_color, for the child of p on the given side. */
  ghost predicate ShortRb(F: Heap, root: Node?, p: Node, left: bool) {
    ShortTree(F, root, p, left) && Augmented(F, {})
  }

  lemma UnlinkParentColours(F: Heap, root: Node?, s: Node)
    requires Shape(F, root) && Balanced(F) && Coloured(F, null) && s in F && F[s].left == null && F[s].parent != null
    ensures var G, p := Unlink(F, s), F[s].parent;
      && p in G && RedOk(G, p, null) && (F[p].left == s) == (F[p].right != s)
      && if F[s].right == null && !F[s].red then Short(G, p, F[p].left == s) else BhOk(G, p)
  {
    OnlyChildRed(F, root, s);
    var p, c := F[s].parent, F[s].right;
    assert Linked(F, root, s) && Linked(F, root, p) && BhOk(F, p) && RedOk(F, p, null);
    UnlinkAt(F, s, p);
    if c != null { UnlinkAt(F, s, c); }
    if F[p].left != null && F[p].left != s { UnlinkAt(F, s, F[p].left); }
    if F[p].right != null && F[p].right != s { UnlinkAt(F, s, F[p].right); }
    hide Shape, Unlink, Balanced, Coloured;
  }

  lemma UnlinkColours(F: Heap, root: Node?, s: Node, m: Node)
    requires
      && Shape(F, root) && Balanced(F) && Coloured(F, null) && s in F && F[s].left == null && m in F
      && m != s && m != F[s].parent
    ensures m in Unlink(F, s) && BhOk(Unlink(F, s), m) && RedOk(Unlink(F, s), m, null)
  {
    var G := Unlink(F, s);
    assert BhOk(F, m) && RedOk(F, m, null);
    UnlinkSeen(F, root, s, m);
    RedSeen(F, F[m].left);
    RedSeen(F, F[m].right);
    RedSeen(G, G[m].left);
    RedSeen(G, G[m].right);
    hide Unlink, See, Shape, Balanced, Coloured, Red, Bh;
  }

  lemma UnlinkRootBlack(F: Heap, root: Node?, s: Node)
    requires Shape(F, root) && Balanced(F) && Coloured(F, null) && s in F && F[s].left == null && !Red(F, root)
    ensures !Red(Unlink(F, s), Swapped(root, s, F[s].right))
  {
    OnlyChildRed(F, root, s);
    assert Linked(F, root, s);
    if root == s {
      if F[s].right != null { UnlinkAt(F, s, F[s].right); }
    } else {
      assert Linked(F, root, root);
      UnlinkAt(F, s, root);
    }
    hide Shape, Unlink, Balanced, Coloured;
  }

  /** Only the parent's augmented value may be out of date. */
  lemma UnlinkAugmented(F: Heap, root: Node?, s: Node, m: Node)
    requires
      && Shape(F, root) && Balanced(F) && Coloured(F, null) && s in F && F[s].left == null && m in F
      && m != s && m != F[s].parent
    requires F[m].augmented == AugOf(F, m)
    ensures m in Unlink(F, s) && Unlink(F, s)[m].augmented == AugOf(Unlink(F, s), m)
  {
    var G := Unlink(F, s);
    OnlyChildRed(F, root, s);
    UnlinkSeen(F, root, s, m);
    AugSeen(F, m);
    AugSeen(G, m);
    if m == F[s].right {
      NoChildren(F, m);
      NoChildren(G, m);
    }
    hide Unlink, See, Shape, Balanced, Coloured, Recompute, AugOf;
  }

  lemma NoChildren(F: Heap, n: Node)
    requires n in F && F[n].left == null && F[n].right == null
    ensures AugOf(F, n) == n.val
  {
  }

  lemma MakeShort(F: Heap, root: Node?, p: Node, left: bool)
    requires Shape(F, root) && !Red(F, root) && p in F && Short(F, p, left)
    requires forall n :: n in F ==> (n != p ==> BhOk(F, n)) && RedOk(F, n, null)
    ensures ShortTree(F, root, p, left)
  {
  }

  /** Unlinking leaves a red-black tree, or one short of a black node on the side where s was. */
  lemma UnlinkRb(F: Heap, root: Node?, s: Node)
    requires RbTree(F, root) && s in F && F[s].left == null
    ensures var G, root', p := Unlink(F, s), Swapped(root, s, F[s].right), F[s].parent;
      && G.Keys == F.Keys - {s} && (forall m :: m in G ==> G[m].pos == F[m].pos)
      && Shape(G, root') && !Red(G, root') && Coloured(G, null)
      && Augmented(G, if p == null then {} else {p})
      && (p != null ==> p in F && p in G)
      && if p != null && F[s].right == null && !F[s].red then ShortTree(G, root', p, F[p].left == s) else Balanced(G)
  {
    hide *;
    OpenRbTree(F, root);
    var G, root', p := Unlink(F, s), Swapped(root, s, F[s].right), F[s].parent;
    UnlinkShape(F, root, s);
    UnlinkRootBlack(F, root, s);
    if p != null { UnlinkParentColours(F, root, s); }
    forall m | m in G
      ensures RedOk(G, m, null) && (m != p ==> BhOk(G, m) && G[m].augmented == AugOf(G, m))
    {
      if m != p {
        UnlinkColours(F, root, s, m);
        AugmentedAt(F, {}, m);
        UnlinkAugmented(F, root, s, m);
      }
    }
    MakeAugmented(G, if p == null then {} else {p});
    MakeColoured(G);
    if p != null && F[s].right == null && !F[s].red { MakeShort(G, root', p, F[p].left == s); }
    else { MakeBalanced(G); }
  }

  // ----- another node takes over the place of n

  ghost function Renamed(f: Fields, n: Node, s: Node): Fields {
    f.(left := Swapped(f.left, n, s), right := Swapped(f.right, n, s), parent := Swapped(f.parent, n, s))
  }

  function Origin(n: Node, s: Node, m: Node): Node {
    if m == s then n else m
  }

  /** The tree with s, which is not part of it, in the place of n. */
  ghost function Rename(F: Heap, n: Node, s: Node): Heap
    requires n in F && s !in F
  {
    map m | m in F.Keys - {n} + {s} :: Renamed(F[Origin(n, s, m)], n, s)
  }

  lemma RenameAt(F: Heap, n: Node, s: Node, m: Node)
    requires n in F && s !in F && m in F
    ensures var m', G := Swapped(m, n, s), Rename(F, n, s);
      && G.Keys == F.Keys - {n} + {s} && m' in G && G[m'] == Renamed(F[m], n, s)
  {
  }

  lemma RenameSee(F: Heap, root: Node?, n: Node, s: Node, c: Node?)
    requires Shape(F, root) && n in F && s !in F && c != s
    ensures See(Rename(F, n, s), Swapped(c, n, s)) == See(F, c)
  {
    if c in F { RenameAt(F, n, s, c); }
    hide Shape;
  }

  lemma RenameLinked(F: Heap, root: Node?, n: Node, s: Node, m: Node)
    requires Shape(F, root) && n in F && s !in F && m in F
    ensures Swapped(m, n, s) in Rename(F, n, s)
    ensures Linked(Rename(F, n, s), Swapped(root, n, s), Swapped(m, n, s))
  {
    assert Linked(F, root, m);
    RenameAt(F, n, s, m);
    if F[m].left != null { RenameAt(F, n, s, F[m].left); }
    if F[m].right != null { RenameAt(F, n, s, F[m].right); }
    if F[m].parent != null { RenameAt(F, n, s, F[m].parent); }
    assert root in F;
    hide Shape, Rename;
  }

  lemma RenameShape(F: Heap, root: Node?, n: Node, s: Node)
    requires Shape(F, root) && n in F && s !in F
    ensures Shape(Rename(F, n, s), Swapped(root, n, s))
  {
    var G := Rename(F, n, s);
    assert root in F;
    RenameAt(F, n, s, root);
    assert RootOk(G, Swapped(root, n, s));
    hide LeftOk, RightOk, UpOk, Linked, RootOk;
    forall m | m in G ensures Linked(G, Swapped(root, n, s), m) {
      RenameLinked(F, root, n, s, Origin(n, s, m));
    }
  }

  /** Links of a tree never lead outside. */
  lemma LinksInside(F: Heap, root: Node?, m: Node, s: Node)
    requires Shape(F, root) && m in F && s !in F
    ensures F[m].left != s && F[m].right != s && F[m].parent != s && root != s
  {
    assert Linked(F, root, m);
  }

  lemma RenameColours(F: Heap, root: Node?, n: Node, s: Node, m: Node)
    requires Shape(F, root) && n in F && s !in F && m in F
    ensures var G, m' := Rename(F, n, s), Swapped(m, n, s);
      && m' in G
      && (BhOk(F, m) ==> BhOk(G, m'))
      && (RedOk(F, m, null) ==> RedOk(G, m', null))
      && (Short(F, m, true) ==> Short(G, m', true))
      && (Short(F, m, false) ==> Short(G, m', false))
  {
    var G, m', l, r := Rename(F, n, s), Swapped(m, n, s), F[m].left, F[m].right;
    RenameAt(F, n, s, m);
    LinksInside(F, root, m, s);
    RenameSee(F, root, n, s, l);
    RenameSee(F, root, n, s, r);
    RedSeen(F, l);
    RedSeen(F, r);
    RedSeen(G, Swapped(l, n, s));
    RedSeen(G, Swapped(r, n, s));
    hide Shape, Rename, See, Red, Bh;
  }

  /** Every node but s keeps seeing right augmented values. */
  lemma RenameAugmented(F: Heap, root: Node?, n: Node, s: Node, m: Node)
    requires Shape(F, root) && n in F && s !in F && m in F && m != n && F[m].augmented == AugOf(F, m)
    ensures m in Rename(F, n, s) && Rename(F, n, s)[m].augmented == AugOf(Rename(F, n, s), m)
  {
    var G := Rename(F, n, s);
    RenameAt(F, n, s, m);
    LinksInside(F, root, m, s);
    RenameSee(F, root, n, s, F[m].left);
    RenameSee(F, root, n, s, F[m].right);
    AugSeen(F, m);
    AugSeen(G, m);
    hide Shape, Rename, See, Recompute, AugOf;
  }

  // ----- the mirror image of unlinking: no right child

  ghost function UnlinkedLeftAt(F: Heap, s: Node, m: Node): Fields
    requires s in F && m in F
  {
    var p, c, f := F[s].parent, F[s].left, F[m];
    if m == c then f.(parent := p, red := F[s].red, hi := F[s].hi, bh := F[s].bh)
    else if m == p then f.(left := Swapped(f.left, s, c), right := Swapped(f.right, s, c))
    else f
  }

  /** s, which has no right child, is replaced by its left child. */
  ghost function UnlinkLeft(F: Heap, s: Node): Heap
    requires s in F
  {
    map m | m in F.Keys - {s} :: UnlinkedLeftAt(F, s, m)
  }

  lemma MirrorUnlinkAt(F: Heap, s: Node, m: Node)
    requires s in F && m in F
    ensures Mirror(F).Keys == F.Keys && Flip(UnlinkedLeftAt(F, s, m)) == UnlinkedAt(Mirror(F), s, m)
  {
  }

  lemma MirrorUnlink(F: Heap, s: Node)
    requires s in F
    ensures
      && Mirror(F).Keys == F.Keys && Mirror(UnlinkLeft(F, s)) == Unlink(Mirror(F), s)
      && UnlinkLeft(F, s).Keys == F.Keys - {s}
  {
    hide UnlinkedLeftAt, UnlinkedAt, Flip;
    MirrorUnlinkAt(F, s, s);
    forall m | m in F ensures Flip(UnlinkedLeftAt(F, s, m)) == UnlinkedAt(Mirror(F), s, m) {
      MirrorUnlinkAt(F, s, m);
    }
  }

  lemma MirrorBack(F: Heap, root: Node?, p: Node?, left: bool, E: set<Node>)
    requires Shape(Mirror(F), root)
    ensures Shape(F, root)
    ensures !Red(Mirror(F), root) ==> !Red(F, root)
    ensures Coloured(Mirror(F), null) ==> Coloured(F, null)
    ensures Balanced(Mirror(F)) ==> Balanced(F)
    ensures Augmented(Mirror(F), E) ==> Augmented(F, E)
    ensures p != null && ShortTree(Mirror(F), root, p, !left) ==> ShortTree(F, root, p, left)
  {
    hide *;
    MirrorShape(Mirror(F), root);
    MirrorMirror(F);
    MirrorRed(F, root);
    MirrorColours(Mirror(F), null);
    if Augmented(Mirror(F), E) { MirrorAugmented(Mirror(F), E); }
    if p != null && ShortTree(Mirror(F), root, p, !left) { MirrorShortTree(Mirror(F), root, p, !left); }
  }

  lemma MirrorShortNode(F: Heap, n: Node)
    requires n in F
    ensures n in Mirror(F) && Mirror(F).Keys == F.Keys
    ensures BhOk(F, n) ==> BhOk(Mirror(F), n)
    ensures RedOk(F, n, null) ==> RedOk(Mirror(F), n, null)
    ensures Short(F, n, true) ==> Short(Mirror(F), n, false)
    ensures Short(F, n, false) ==> Short(Mirror(F), n, true)
  {
  }

  lemma OpenShortTree(F: Heap, root: Node?, p: Node, left: bool)
    requires ShortTree(F, root, p, left)
    ensures Shape(F, root) && !Red(F, root) && p in F && Short(F, p, left)
    ensures forall n :: n in F ==> (n != p ==> BhOk(F, n)) && RedOk(F, n, null)
  {
  }

  lemma MirrorShortTree(F: Heap, root: Node?, p: Node, left: bool)
    requires ShortTree(F, root, p, left)
    ensures ShortTree(Mirror(F), root, p, !left)
  {
    hide *;
    OpenShortTree(F, root, p, left);
    var G := Mirror(F);
    MirrorShape(F, root);
    MirrorRed(F, root);
    MirrorShortNode(F, p);
    forall n | n in G ensures (n != p ==> BhOk(G, n)) && RedOk(G, n, null) {
      MirrorShortNode(F, n);
    }
    MakeShort(G, root, p, !left);
  }

  lemma MirrorPos(F: Heap, m: Node)
    requires m in F
    ensures m in Mirror(F) && Mirror(F)[m].pos == 1.0 - F[m].pos
  {
  }

  /** A left child is red, so that nothing is short after it moved up. */
  lemma UnlinkLeftRb(F: Heap, root: Node?, s: Node)
    requires RbTree(F, root) && s in F && F[s].right == null && F[s].left != null
    ensures var G, root', p := UnlinkLeft(F, s), Swapped(root, s, F[s].left), F[s].parent;
      && G.Keys == F.Keys - {s} && (forall m :: m in G ==> G[m].pos == F[m].pos)
      && Shape(G, root') && !Red(G, root') && Coloured(G, null) && Balanced(G)
      && Augmented(G, if p == null then {} else {p})
      && (p != null ==> p in F && p in G)
  {
    hide *;
    MirrorRbTree(F, root);
    MirrorParts(F, s);
    UnlinkRb(Mirror(F), root, s);
    MirrorUnlink(F, s);
    var G, root', p := UnlinkLeft(F, s), Swapped(root, s, F[s].left), F[s].parent;
    MirrorBack(G, root', null, true, if p == null then {} else {p});
    forall m | m in G ensures G[m].pos == F[m].pos {
      MirrorPos(G, m);
      MirrorPos(F, m);
    }
  }

  // ----- two children: the successor is unlinked and takes over the place

  /** Erasing n, whose successor is s: the whole change but for the augmented values of s and above. */
  lemma EraseTwo(F: Heap, root: Node?, n: Node, s: Node)
    requires RbTree(F, root) && n in F && s in F && s != n && F[s].left == null && F[s].parent != null
    ensures Unlink(F, s).Keys == F.Keys - {s}
    ensures F[s].parent in F
    ensures var G, root', q := Rename(Unlink(F, s), n, s), Swapped(root, n, s), Swapped(F[s].parent, n, s);
      && G.Keys == F.Keys - {n} && (forall m :: m in G && m != s ==> G[m].pos == F[m].pos) && G[s].pos == F[n].pos
      && Shape(G, root') && !Red(G, root') && Coloured(G, null)
      && q != null && q in G && Augmented(G, {q, s})
      && if F[s].right == null && !F[s].red then ShortTree(G, root', q, F[F[s].parent].left == s) else Balanced(G)
  {
    hide *;
    OpenRbTree(F, root);
    UnlinkRb(F, root, s);
    NotRoot(F, root, s);
    SwappedCases(root, s, F[s].right);
    SwappedCases(root, n, s);
    SwappedCases(F[s].parent, n, s);
    var U, p := Unlink(F, s), F[s].parent;
    var G, root', q := Rename(U, n, s), Swapped(root, n, s), Swapped(p, n, s);
    RenameShape(U, root, n, s);
    RenameRed(U, root, n, s);
    RenameAt(U, n, s, n);
    RenameAt(U, n, s, p);
    SwappedCases(n, n, s);
    SwappedCases(p, n, s);
    RenamedPlace(U, n, s, n);
    var short := F[s].right == null && !F[s].red;
    if short { OpenShortTree(U, root, p, F[p].left == s); }
    OpenBalanced(U);
    forall m | m in G
      ensures RedOk(G, m, null) && (!short || m != q ==> BhOk(G, m))
      ensures m != q && m != s ==> G[m].augmented == AugOf(G, m)
      ensures m != s ==> G[m].pos == F[m].pos
    {
      var o := Origin(n, s, m);
      OriginIs(n, s, m);
      RenameColours(U, root, n, s, o);
      SwappedCases(o, n, s);
      RenameAt(U, n, s, o);
      RenamedPlace(U, n, s, o);
      if m != q && m != s {
        AugmentedAt(U, {p}, m);
        RenameAugmented(U, root, n, s, m);
      }
    }
    MakeAugmented(G, {q, s});
    MakeColoured(G);
    if short {
      RenameColours(U, root, n, s, p);
      MakeShort(G, root', q, F[p].left == s);
    } else {
      MakeBalanced(G);
    }
  }

  lemma OpenBalanced(F: Heap)
    ensures Balanced(F) ==> forall n :: n in F ==> BhOk(F, n)
    ensures Coloured(F, null) ==> forall n :: n in F ==> RedOk(F, n, null)
  {
  }

  lemma NotRoot(F: Heap, root: Node?, s: Node)
    requires Shape(F, root) && s in F && F[s].parent != null
    ensures root != s && root in F && F[s].parent != s && F[s].parent in F
  {
    assert Linked(F, root, s);
    ParentNotSelf(F, root, s, s);
  }

  lemma SwappedCases(c: Node?, x: Node, y: Node?)
    ensures Swapped(c, x, y) == if c == x then y else c
  {
  }

  lemma OriginIs(n: Node, s: Node, m: Node)
    ensures Origin(n, s, m) == if m == s then n else m
  {
  }

  lemma RenamedPlace(F: Heap, n: Node, s: Node, m: Node)
    requires m in F
    ensures Renamed(F[m], n, s).pos == F[m].pos
  {
  }

  lemma RenameRed(F: Heap, root: Node?, n: Node, s: Node)
    requires Shape(F, root) && n in F && s !in F && !Red(F, root)
    ensures !Red(Rename(F, n, s), Swapped(root, n, s))
  {
    RenameSee(F, root, n, s, root);
    RedSeen(F, root);
    RedSeen(Rename(F, n, s), Swapped(root, n, s));
    hide Rename, See, Red;
  }
}
