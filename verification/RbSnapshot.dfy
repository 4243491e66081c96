/** The heap seen as a value, and the changes of a rotation on it. */
module RbSnapshot {
  import opened RbHeap
  import opened RbRotate

  // ----- the heap and its snapshot

  lemma SnapKeys(S: set<Node>)
    ensures Snap(S).Keys == S
  {
  }

  lemma SnapAt(S: set<Node>, n: Node)
    requires n in S
    ensures n in Snap(S) && Snap(S)[n] == n.Get()
    ensures n.Get() == Fields(n.left, n.right, n.parent, n.red, n.augmented, n.at.pos, n.at.lo, n.at.hi, n.at.bh)
  {
  }

  lemma SnapRed(F: Heap, n: Node)
    requires n in F
    ensures Red(F, n) == F[n].red
  {
  }

  /** What a rotation at x reads and writes is laid out as in a tree; the link from x down to y may be stale. */
  ghost predicate Rotatable(F: Heap, root: Node?, x: Node, y: Node, t: Node?) {
    && x in F && y in F && x != y && t != x && t != y
    && (t != null ==> t in F && t != F[x].parent)
    && (F[x].parent == null ==> root == x)
    && (F[x].parent == null || (root != x && F[x].parent in F && F[x].parent != x && F[x].parent != y
      && (F[F[x].parent].left == x) != (F[F[x].parent].right == x)))
  }

  lemma RotatableFacts(F: Heap, root: Node?, x: Node, y: Node, t: Node?)
    requires Rotatable(F, root, x, y, t)
    ensures x in F && y in F && x != y && t != x && t != y && (t != null ==> t in F && t != F[x].parent)
    ensures F[x].parent == null ==> root == x
    ensures F[x].parent != null ==> F[x].parent in F
    ensures F[x].parent != null ==>
        root != x && F[x].parent != x && F[x].parent != y && (F[F[x].parent].left == x) != (F[F[x].parent].right == x)
  {
  }

  /** augment_recompute */
  function AugmentRecompute(n: Node): int
    reads n, n.left, n.right
  {
    var m := if n.left != null && n.val < n.left.augmented then n.left.augmented else n.val;
    if n.right != null && m < n.right.augmented then n.right.augmented else m
  }

  lemma RecomputeIs(F: Heap, n: Node, left: Node?, right: Node?)
    requires n.Get().left == left && n.Get().right == right
    requires left != null ==> left in F && left.Get().augmented == F[left].augmented
    requires right != null ==> right in F && right.Get().augmented == F[right].augmented
    ensures AugmentRecompute(n) == Recompute(F, n.val, left, right)
  {
  }

  /** The link of a parent to oldChild now points to newChild. */
  ghost function ChildSet(f: Fields, oldChild: Node, newChild: Node?): Fields {
    if f.left == oldChild then f.(left := newChild) else f.(right := newChild)
  }

  /** Four nodes changed as a rotation changes them, and no others, make the rotated snapshot. */
  lemma SnapRotatedRight(F: Heap, S: set<Node>, root: Node?, x: Node, y: Node, red: bool, bh: nat)
    requires F.Keys == S && x in S && y in S && Rotatable(F, root, x, y, F[y].right)
    requires x.Get() == RotatedRight(F, x, y, red, bh, x)
    requires y.Get() ==
        F[y].(right := x, parent := F[x].parent, lo := F[x].lo, hi := F[x].hi, red := F[x].red, bh := F[x].bh,
          augmented := F[x].augmented)
    requires F[y].right != null ==> F[y].right.Get() == F[F[y].right].(parent := x)
    requires F[x].parent != null ==> F[x].parent.Get() == ChildSet(F[F[x].parent], x, y)
    requires forall n :: n in S && n != x && n != y && n != F[x].parent && n != F[y].right ==> n.Get() == F[n]
    ensures Snap(S) == RotateRight(F, x, y, red, bh)
  {
    RotatableFacts(F, root, x, y, F[y].right);
    hide Rotatable, Recompute;
  }

  /** Four nodes changed as a rotation changes them, and no others, make the rotated snapshot. */
  lemma SnapRotatedLeft(F: Heap, S: set<Node>, root: Node?, x: Node, y: Node, red: bool, bh: nat)
    requires F.Keys == S && x in S && y in S && Rotatable(F, root, x, y, F[y].left)
    requires x.Get() == RotatedLeft(F, x, y, red, bh, x)
    requires y.Get() ==
        F[y].(left := x, parent := F[x].parent, hi := F[x].hi, lo := F[x].lo, red := F[x].red, bh := F[x].bh,
          augmented := F[x].augmented)
    requires F[y].left != null ==> F[y].left.Get() == F[F[y].left].(parent := x)
    requires F[x].parent != null ==> F[x].parent.Get() == ChildSet(F[F[x].parent], x, y)
    requires forall n :: n in S && n != x && n != y && n != F[x].parent && n != F[y].left ==> n.Get() == F[n]
    ensures Snap(S) == RotateLeft(F, x, y, red, bh)
  {
    RotatableFacts(F, root, x, y, F[y].left);
    hide Rotatable, Recompute;
  }

  lemma RotatedRightTop(F: Heap, x: Node, y: Node, red: bool, bh: nat)
    requires x in F && y in F
    ensures RotatedRight(F, x, y, red, bh, x) ==
      F[x].(left := F[y].right, parent := y, lo := F[y].pos, red := red, bh := bh,
        augmented := Recompute(F, x.val, F[y].right, F[x].right))
  {
  }

  lemma RotatedLeftTop(F: Heap, x: Node, y: Node, red: bool, bh: nat)
    requires x in F && y in F
    ensures RotatedLeft(F, x, y, red, bh, x) ==
      F[x].(right := F[y].left, parent := y, hi := F[y].pos, red := red, bh := bh,
        augmented := Recompute(F, x.val, F[x].left, F[y].left))
  {
  }

  lemma MakeRotatable(F: Heap, root: Node?, x: Node, y: Node, t: Node?)
    requires x in F && y in F && x != y && t != x && t != y && (t != null ==> t in F && t != F[x].parent)
    requires F[x].parent == null ==> root == x
    requires F[x].parent != null ==> F[x].parent in F
    requires F[x].parent != null ==>
        root != x && F[x].parent != x && F[x].parent != y && (F[F[x].parent].left == x) != (F[F[x].parent].right == x)
    ensures Rotatable(F, root, x, y, t)
  {
  }

  lemma RedSame(F: Heap, H: Heap, n: Node?)
    requires H.Keys == F.Keys && (n in F ==> H[n].red == F[n].red)
    ensures Red(H, n) == Red(F, n)
  {
  }
}
