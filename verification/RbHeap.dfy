/** Nodes of the kernel's red-black tree, and a set of them seen as a value. */
module RbHeap {

  /**
   * Where a node is: its place pos in the in-order sequence, the interval that holds its subtree, and the
   * number of black nodes on every path from it down to a null child.
   */
  datatype Place = Place(pos: real, lo: real, hi: real, bh: nat)

  class Node {
    const key: int
    const val: int
    var left: Node?
    var right: Node?
    var parent: Node?
    var red: bool
    var augmented: int
    ghost var at: Place

    constructor (key: int, val: int)
      ensures this.key == key && this.val == val
    {
      this.key, this.val := key, val;
      left, right, parent, red, augmented := null, null, null, false, val;
      at := Place(0.0, 0.0, 0.0, 0);
    }

    ghost function Get(): Fields
      reads this
    {
      Fields(left, right, parent, red, augmented, at.pos, at.lo, at.hi, at.bh)
    }
  }

  datatype Fields = Fields(left: Node?, right: Node?, parent: Node?, red: bool, augmented: int,
    pos: real, lo: real, hi: real, bh: nat)

  type Heap = map<Node, Fields>

  ghost function Snap(S: set<Node>): Heap
    reads S
  {
    map n | n in S :: n.Get()
  }

  // ----- links

  ghost predicate LeftOk(F: Heap, n: Node)
    requires n in F
  {
    var f := F[n];
    f.left != null ==> f.left in F && F[f.left].parent == n && F[f.left].lo == f.lo && F[f.left].hi == f.pos
  }

  ghost predicate RightOk(F: Heap, n: Node)
    requires n in F
  {
    var f := F[n];
    f.right != null ==> f.right in F && F[f.right].parent == n && F[f.right].lo == f.pos && F[f.right].hi == f.hi
  }

  ghost predicate UpOk(F: Heap, root: Node?, n: Node)
    requires n in F
  {
    var f := F[n];
    && f.lo < f.pos < f.hi
    && (f.parent == null ==> n == root)
    && (f.parent != null ==> f.parent in F && (F[f.parent].left == n || F[f.parent].right == n))
  }

  /** Node n is linked consistently with its children and its parent. */
  ghost predicate Linked(F: Heap, root: Node?, n: Node)
    requires n in F
  {
    LeftOk(F, n) && RightOk(F, n) && UpOk(F, root, n)
  }

  ghost predicate RootOk(F: Heap, root: Node?) {
    && (root == null ==> F == map[])
    && (root != null ==> root in F && F[root].parent == null && F[root].lo == 0.0 && F[root].hi == 1.0)
  }

  /** The nodes form one binary tree with consistent parent links, in the order of their positions. */
  ghost predicate Shape(F: Heap, root: Node?) {
    RootOk(F, root) && forall n :: n in F ==> Linked(F, root, n)
  }

  // ----- colours

  ghost function Bh(F: Heap, n: Node?): nat {
    if n in F then F[n].bh else 0
  }

  ghost predicate Red(F: Heap, n: Node?) {
    n in F && F[n].red
  }

  /** Equal black counts below node n, and its own count. */
  ghost predicate BhOk(F: Heap, n: Node)
    requires n in F
  {
    && Bh(F, F[n].left) == Bh(F, F[n].right)
    && F[n].bh == Bh(F, F[n].left) + (if F[n].red then 0 else 1)
  }

  /** No red child of a red node, except that x may be one. */
  ghost predicate RedOk(F: Heap, n: Node, x: Node?)
    requires n in F
  {
    F[n].red ==> (Red(F, F[n].left) ==> F[n].left == x) && (Red(F, F[n].right) ==> F[n].right == x)
  }

  ghost predicate Coloured(F: Heap, x: Node?) {
    forall n :: n in F ==> RedOk(F, n, x)
  }

  ghost predicate Balanced(F: Heap) {
    forall n :: n in F ==> BhOk(F, n)
  }

  // ----- augmented values: the maximum over the subtree

  function Max(a: int, b: int): int {
    if a < b then b else a
  }

  /** augment_recompute for a node with the given value and children. */
  ghost function Recompute(F: Heap, val: int, left: Node?, right: Node?): int {
    var m := if left in F then Max(val, F[left].augmented) else val;
    if right in F then Max(m, F[right].augmented) else m
  }

  ghost function AugOf(F: Heap, n: Node): int
    requires n in F
  {
    Recompute(F, n.val, F[n].left, F[n].right)
  }

  ghost predicate Augmented(F: Heap, E: set<Node>) {
    forall n :: n in F && n !in E ==> F[n].augmented == AugOf(F, n)
  }

  /** The same nodes, in the same order. */
  ghost predicate SamePlaces(F: Heap, G: Heap) {
    G.Keys == F.Keys && forall n :: n in F ==> G[n].pos == F[n].pos
  }

  // ----- symmetry

  ghost function Flip(f: Fields): Fields {
    Fields(f.right, f.left, f.parent, f.red, f.augmented, 1.0 - f.pos, 1.0 - f.hi, 1.0 - f.lo, f.bh)
  }

  /** The mirror image of a heap. */
  ghost function Mirror(F: Heap): Heap {
    map n | n in F :: Flip(F[n])
  }

  lemma MirrorMirror(F: Heap)
    ensures Mirror(Mirror(F)) == F
  {
    forall n | n in F ensures Flip(Flip(F[n])) == F[n] {}
  }

  lemma MirrorShape(F: Heap, root: Node?)
    requires Shape(F, root)
    ensures Shape(Mirror(F), root)
  {
    forall n | n in Mirror(F) ensures Linked(Mirror(F), root, n) {
      assert Linked(F, root, n);
    }
  }

  lemma MirrorColours(F: Heap, x: Node?)
    ensures Balanced(F) ==> Balanced(Mirror(F))
    ensures Coloured(F, x) ==> Coloured(Mirror(F), x)
  {
    var G := Mirror(F);
    if Balanced(F) {
      forall n | n in G ensures BhOk(G, n) { assert BhOk(F, n); }
    }
    if Coloured(F, x) {
      forall n | n in G ensures RedOk(G, n, x) { assert RedOk(F, n, x); }
    }
  }

  lemma MirrorAugmented(F: Heap, E: set<Node>)
    requires Augmented(F, E)
    ensures Augmented(Mirror(F), E)
  {
    var G := Mirror(F);
    forall n | n in G && n !in E ensures G[n].augmented == AugOf(G, n) {
      assert F[n].augmented == AugOf(F, n);
    }
  }

  // ----- the invariants through what a node sees of its children

  /** What a node sees of one of its child links. */
  datatype Seen = Nothing | Child(red: bool, bh: nat, augmented: int)

  ghost function See(F: Heap, c: Node?): Seen {
    if c in F then Child(F[c].red, F[c].bh, F[c].augmented) else Nothing
  }

  ghost function SeenBh(s: Seen): nat {
    if s.Child? then s.bh else 0
  }

  ghost function SeenAug(s: Seen, m: int): int {
    if s.Child? then Max(m, s.augmented) else m
  }

  lemma AugSeen(F: Heap, n: Node)
    requires n in F
    ensures AugOf(F, n) == SeenAug(See(F, F[n].right), SeenAug(See(F, F[n].left), n.val))
  {
  }

  lemma SeeInside(F: Heap, n: Node)
    requires n in F
    ensures See(F, n) == Child(F[n].red, F[n].bh, F[n].augmented)
  {
  }

  lemma RecomputeSame(F: Heap, G: Heap, val: int, left: Node?, right: Node?)
    requires G.Keys == F.Keys
    requires left in F ==> G[left].augmented == F[left].augmented
    requires right in F ==> G[right].augmented == F[right].augmented
    ensures Recompute(G, val, left, right) == Recompute(F, val, left, right)
  {
  }

  lemma SeenChild(F: Heap, c: Node, m: int)
    requires c in F
    ensures SeenAug(See(F, c), m) == Max(m, F[c].augmented)
  {
  }

  // ----- changes of colours, counts and augmented values

  /** Only colours and black counts differ. */
  ghost predicate SameLinks(F: Heap, G: Heap) {
    G.Keys == F.Keys && forall n :: n in F ==> G[n] == F[n].(red := G[n].red, bh := G[n].bh)
  }

  lemma SameLinksShape(F: Heap, G: Heap, root: Node?)
    requires SameLinks(F, G) && Shape(F, root)
    ensures Shape(G, root) && SamePlaces(F, G)
  {
    forall n | n in G ensures Linked(G, root, n) {
      assert Linked(F, root, n);
    }
  }

  lemma SameLinksAugmented(F: Heap, G: Heap, E: set<Node>)
    requires SameLinks(F, G) && Augmented(F, E)
    ensures Augmented(G, E)
  {
    forall n | n in G && n !in E ensures G[n].augmented == AugOf(G, n) {
      RecomputeSame(F, G, n.val, F[n].left, F[n].right);
    }
  }

  /** Only augmented values differ. */
  ghost predicate SameButAugmented(F: Heap, G: Heap) {
    G.Keys == F.Keys && forall n :: n in F ==> G[n] == F[n].(augmented := G[n].augmented)
  }

  lemma SameButAugmentedShape(F: Heap, G: Heap, root: Node?)
    requires SameButAugmented(F, G) && Shape(F, root)
    ensures Shape(G, root) && SamePlaces(F, G)
  {
    forall n | n in G ensures Linked(G, root, n) {
      assert Linked(F, root, n);
    }
  }

  lemma SameButAugmentedColours(F: Heap, G: Heap, x: Node?)
    requires SameButAugmented(F, G)
    ensures Balanced(F) ==> Balanced(G)
    ensures Coloured(F, x) ==> Coloured(G, x)
  {
    if Balanced(F) {
      forall n | n in G ensures BhOk(G, n) { assert BhOk(F, n); }
    }
    if Coloured(F, x) {
      forall n | n in G ensures RedOk(G, n, x) { assert RedOk(F, n, x); }
    }
  }
}
