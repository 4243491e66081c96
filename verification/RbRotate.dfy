/** The two rotations, and what they keep. */
module RbRotate {
  import opened RbHeap

  // ----- rotation to the right at x, whose left child is y

  function Swapped(c: Node?, x: Node?, y: Node?): Node? {
    if c == x then y else c
  }

  /**
   * y takes the place, colour, count and augmented value of x; x becomes its right child with the given
   * colour and count, and its augmented value is recomputed.
   */
  ghost function RotateRight(F: Heap, x: Node, y: Node, red: bool, bh: nat): Heap
    requires x in F && y in F
  {
    map n | n in F :: RotatedRight(F, x, y, red, bh, n)
  }

  ghost function RotatedRight(F: Heap, x: Node, y: Node, red: bool, bh: nat, n: Node): Fields
    requires x in F && y in F && n in F
  {
    var p, t, f := F[x].parent, F[y].right, F[n];
    if n == x then
      f.(left := t, parent := y, lo := F[y].pos, red := red, bh := bh, augmented := Recompute(F, x.val, t, F[x].right))
    else if n == y then
      f.(right := x, parent := p, lo := F[x].lo, hi := F[x].hi, red := F[x].red, bh := F[x].bh,
        augmented := F[x].augmented)
    else if n == p then
      f.(left := Swapped(f.left, x, y), right := Swapped(f.right, x, y))
    else if n == t then
      f.(parent := x)
    else
      f
  }

  /** The rotated heap node by node. */
  lemma RotateRightAt(F: Heap, root: Node?, x: Node, y: Node, red: bool, bh: nat, n: Node)
    requires Shape(F, root) && x in F && F[x].left == y && y in F && n in F
    ensures var G := RotateRight(F, x, y, red, bh); var p, t := F[x].parent, F[y].right;
      && G.Keys == F.Keys
      && (n == x ==>
            G[n] ==
              F[x].(left := t, parent := y, lo := F[y].pos, red := red, bh := bh,
                augmented := Recompute(F, x.val, t, F[x].right)))
      && (n == y ==>
            G[n] ==
              F[y].(right := x, parent := p, lo := F[x].lo, hi := F[x].hi, red := F[x].red, bh := F[x].bh,
                augmented := F[x].augmented))
      && (n == p ==> G[n] == F[p].(left := Swapped(F[p].left, x, y), right := Swapped(F[p].right, x, y)))
      && (n == t ==> G[n] == F[t].(parent := x))
      && (n != x && n != y && n != p && n != t ==> G[n] == F[n])
      && x != y && x != p && x != t && y != p && y != t && (p == null || p != t)
  {
    hide Recompute;
    assert Linked(F, root, x) && Linked(F, root, y);
  }

  lemma RotateRightKeys(F: Heap, x: Node, y: Node, red: bool, bh: nat)
    requires x in F && y in F
    ensures RotateRight(F, x, y, red, bh).Keys == F.Keys
  {
  }

  lemma RotateRightLeftOk(F: Heap, root: Node?, x: Node, y: Node, red: bool, bh: nat, n: Node)
    requires Shape(F, root) && x in F && F[x].left == y && y in F && n in F
    ensures LeftOk(RotateRight(F, x, y, red, bh), n)
  {
    var G := RotateRight(F, x, y, red, bh);
    assert Linked(F, root, x) && Linked(F, root, y) && Linked(F, root, n);
    RotateRightAt(F, root, x, y, red, bh, n);
    var c := G[n].left;
    if c != null {
      RotateRightAt(F, root, x, y, red, bh, c);
      hide RotateRight, Recompute, Shape;
    }
  }

  lemma RotateRightRightOk(F: Heap, root: Node?, x: Node, y: Node, red: bool, bh: nat, n: Node)
    requires Shape(F, root) && x in F && F[x].left == y && y in F && n in F
    ensures RightOk(RotateRight(F, x, y, red, bh), n)
  {
    var G := RotateRight(F, x, y, red, bh);
    assert Linked(F, root, x) && Linked(F, root, y) && Linked(F, root, n);
    RotateRightAt(F, root, x, y, red, bh, n);
    var c := G[n].right;
    if c != null {
      RotateRightAt(F, root, x, y, red, bh, c);
      hide RotateRight, Recompute, Shape;
    }
  }

  lemma RotateRightUpOk(F: Heap, root: Node?, x: Node, y: Node, red: bool, bh: nat, n: Node)
    requires Shape(F, root) && x in F && F[x].left == y && y in F && n in F
    ensures UpOk(RotateRight(F, x, y, red, bh), Swapped(root, x, y), n)
  {
    var G := RotateRight(F, x, y, red, bh);
    assert Linked(F, root, x) && Linked(F, root, y) && Linked(F, root, n);
    RotateRightAt(F, root, x, y, red, bh, n);
    var c := G[n].parent;
    if c != null {
      RotateRightAt(F, root, x, y, red, bh, c);
      hide RotateRight, Recompute, Shape;
    }
  }

  lemma RotateRightShape(F: Heap, root: Node?, x: Node, y: Node, red: bool, bh: nat)
    requires Shape(F, root) && x in F && F[x].left == y && y in F
    ensures Shape(RotateRight(F, x, y, red, bh), Swapped(root, x, y))
    ensures SamePlaces(F, RotateRight(F, x, y, red, bh))
  {
    var G := RotateRight(F, x, y, red, bh);
    RotateRightRoot(F, root, x, y, red, bh);
    hide LeftOk, RightOk, UpOk, Recompute, RotateRight, RootOk;
    RotateRightAt(F, root, x, y, red, bh, x);
    forall n | n in F ensures Linked(G, Swapped(root, x, y), n) && G[n].pos == F[n].pos {
      RotateRightAt(F, root, x, y, red, bh, n);
      RotateRightLeftOk(F, root, x, y, red, bh, n);
      RotateRightRightOk(F, root, x, y, red, bh, n);
      RotateRightUpOk(F, root, x, y, red, bh, n);
    }
  }

  lemma RotateRightRoot(F: Heap, root: Node?, x: Node, y: Node, red: bool, bh: nat)
    requires Shape(F, root) && x in F && F[x].left == y && y in F
    ensures RootOk(RotateRight(F, x, y, red, bh), Swapped(root, x, y))
  {
    assert Linked(F, root, x) && Linked(F, root, y) && Linked(F, root, root);
  }

  /** Every node but x and y sees the same children as before, and is itself unchanged. */
  lemma RotateRightSeen(F: Heap, root: Node?, x: Node, y: Node, red: bool, bh: nat, n: Node)
    requires Shape(F, root) && x in F && F[x].left == y && y in F && n in F && n != x && n != y
    ensures var G := RotateRight(F, x, y, red, bh);
      && n in G && G[n].red == F[n].red && G[n].bh == F[n].bh && G[n].augmented == F[n].augmented
      && See(G, G[n].left) == See(F, F[n].left) && See(G, G[n].right) == See(F, F[n].right)
      && G[n].left == Swapped(F[n].left, x, y) && G[n].right == Swapped(F[n].right, x, y)
  {
    assert Linked(F, root, x) && Linked(F, root, y) && Linked(F, root, n);
    RotateRightAt(F, root, x, y, red, bh, n);
    RotateRightAt(F, root, x, y, red, bh, y);
    hide RotateRight, Recompute, Shape;
    if F[n].left != null { RotateRightAt(F, root, x, y, red, bh, F[n].left); }
    if F[n].right != null { RotateRightAt(F, root, x, y, red, bh, F[n].right); }
  }

  /** The three subtrees are seen by x and y as they were. */
  lemma RotateRightEnds(F: Heap, root: Node?, x: Node, y: Node, red: bool, bh: nat)
    requires Shape(F, root) && x in F && F[x].left == y && y in F
    ensures var G := RotateRight(F, x, y, red, bh);
      && x in G && y in G && x != y
      && G[y].left == F[y].left && G[y].right == x && G[x].left == F[y].right && G[x].right == F[x].right
      && G[y].parent == F[x].parent && G[x].parent == y
      && See(G, G[y].left) == See(F, F[y].left) && See(G, G[x].left) == See(F, F[y].right)
      && See(G, G[x].right) == See(F, F[x].right)
      && G[y].red == F[x].red && G[y].bh == F[x].bh && G[y].augmented == F[x].augmented
      && G[x].red == red && G[x].bh == bh && G[x].augmented == AugOf(G, x)
      && F[y].left != x && F[y].left != y
  {
    assert Linked(F, root, x) && Linked(F, root, y);
    var G := RotateRight(F, x, y, red, bh);
    RotateRightAt(F, root, x, y, red, bh, x);
    RotateRightAt(F, root, x, y, red, bh, y);
    if F[y].left != null { RotateRightAt(F, root, x, y, red, bh, F[y].left); }
    if F[y].right != null { RotateRightAt(F, root, x, y, red, bh, F[y].right); }
    if F[x].right != null { RotateRightAt(F, root, x, y, red, bh, F[x].right); }
    assert G[x].augmented == AugOf(G, x) by { RecomputeSame(F, G, x.val, F[y].right, F[x].right); }
    hide RotateRight, Recompute, Shape;
  }

  /** The maximum over the three subtrees and the two nodes does not depend on their grouping. */
  lemma MaxRegroup(a: int, b: int, s: Seen, t: Seen, u: Seen)
    ensures SeenAug(u, Max(a, SeenAug(t, SeenAug(s, b)))) == Max(SeenAug(s, b), SeenAug(u, SeenAug(t, a)))
  {
  }

  /** A rotation keeps the augmented values right, the recomputation at x being the only one needed. */
  lemma RotateRightAugmented(F: Heap, root: Node?, x: Node, y: Node, red: bool, bh: nat)
    requires Shape(F, root) && x in F && F[x].left == y && y in F && Augmented(F, {})
    ensures Augmented(RotateRight(F, x, y, red, bh), {})
  {
    var G := RotateRight(F, x, y, red, bh);
    RotateRightEnds(F, root, x, y, red, bh);
    RotateRightShape(F, root, x, y, red, bh);
    hide RotateRight, Shape, Linked, See, Recompute, Max, SeenAug;
    forall n | n in G ensures G[n].augmented == AugOf(G, n) {
      AugSeen(G, n);
      AugSeen(F, n);
      if n == y {
        assert F[y].augmented == AugOf(F, y) && F[x].augmented == AugOf(F, x);
        AugSeen(F, x);
        AugSeen(G, x);
        MaxRegroup(x.val, y.val, See(F, F[y].left), See(F, F[y].right), See(F, F[x].right));
        SeeInside(F, y);
        SeeInside(G, x);
        SeenChild(F, y, x.val);
        SeenChild(G, x, SeenAug(See(G, G[y].left), y.val));
      } else if n != x {
        RotateRightSeen(F, root, x, y, red, bh, n);
      }
    }
  }

  // ----- rotation to the left, the mirror image

  /** As RotateRight, for the right child y of x. */
  ghost function RotateLeft(F: Heap, x: Node, y: Node, red: bool, bh: nat): Heap
    requires x in F && y in F
  {
    map n | n in F :: RotatedLeft(F, x, y, red, bh, n)
  }

  ghost function RotatedLeft(F: Heap, x: Node, y: Node, red: bool, bh: nat, n: Node): Fields
    requires x in F && y in F && n in F
  {
    var p, t, f := F[x].parent, F[y].left, F[n];
    if n == x then
      f.(right := t, parent := y, hi := F[y].pos, red := red, bh := bh, augmented := Recompute(F, x.val, F[x].left, t))
    else if n == y then
      f.(left := x, parent := p, lo := F[x].lo, hi := F[x].hi, red := F[x].red, bh := F[x].bh,
        augmented := F[x].augmented)
    else if n == p then
      f.(left := Swapped(f.left, x, y), right := Swapped(f.right, x, y))
    else if n == t then
      f.(parent := x)
    else
      f
  }

  lemma RecomputeMirror(F: Heap, val: int, left: Node?, right: Node?)
    ensures Recompute(Mirror(F), val, right, left) == Recompute(F, val, left, right)
  {
  }

  lemma RotateLeftAt(F: Heap, root: Node?, x: Node, y: Node, red: bool, bh: nat, n: Node)
    requires Shape(F, root) && x in F && F[x].right == y && y in F && n in F
    ensures var G := RotateLeft(F, x, y, red, bh); var p, t := F[x].parent, F[y].left;
      && G.Keys == F.Keys
      && (n == x ==>
            G[n] ==
              F[x].(right := t, parent := y, hi := F[y].pos, red := red, bh := bh,
                augmented := Recompute(F, x.val, F[x].left, t)))
      && (n == y ==>
            G[n] ==
              F[y].(left := x, parent := p, lo := F[x].lo, hi := F[x].hi, red := F[x].red, bh := F[x].bh,
                augmented := F[x].augmented))
      && (n == p ==> G[n] == F[p].(left := Swapped(F[p].left, x, y), right := Swapped(F[p].right, x, y)))
      && (n == t ==> G[n] == F[t].(parent := x))
      && (n != x && n != y && n != p && n != t ==> G[n] == F[n])
      && x != y && x != p && x != t && y != p && y != t && (p == null || p != t)
  {
    hide Recompute;
    assert Linked(F, root, x) && Linked(F, root, y);
  }

  lemma MirrorAt(F: Heap, n: Node)
    requires n in F
    ensures n in Mirror(F) && Mirror(F)[n] == Flip(F[n])
  {
  }

  lemma MirrorRotateAt(F: Heap, x: Node, y: Node, red: bool, bh: nat, n: Node)
    requires x in F && y in F && n in F
    ensures Mirror(F).Keys == F.Keys
    ensures Flip(RotatedLeft(F, x, y, red, bh, n)) == RotatedRight(Mirror(F), x, y, red, bh, n)
  {
    RecomputeMirror(F, x.val, F[x].left, F[y].left);
    MirrorAt(F, n);
    MirrorAt(F, x);
    MirrorAt(F, y);
    assert Mirror(F).Keys == F.Keys;
    hide Recompute, Mirror;
  }

  lemma RotateLeftKeys(F: Heap, x: Node, y: Node, red: bool, bh: nat)
    requires x in F && y in F
    ensures RotateLeft(F, x, y, red, bh).Keys == F.Keys
  {
  }

  /** The left rotation is the right rotation seen in a mirror. */
  lemma MirrorRotate(F: Heap, root: Node?, x: Node, y: Node, red: bool, bh: nat)
    requires Shape(F, root) && x in F && F[x].right == y && y in F
    ensures Mirror(F).Keys == F.Keys
    ensures Mirror(RotateLeft(F, x, y, red, bh)) == RotateRight(Mirror(F), x, y, red, bh)
  {
    hide Recompute, Shape, RotatedLeft, RotatedRight, Flip;
    forall n | n in F
      ensures
        && Mirror(F).Keys == F.Keys
        && Flip(RotatedLeft(F, x, y, red, bh, n)) == RotatedRight(Mirror(F), x, y, red, bh, n)
    {
      MirrorRotateAt(F, x, y, red, bh, n);
    }
  }
}
