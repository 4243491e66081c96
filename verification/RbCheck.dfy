/** The conditions that the tree's own test module checks, as theorems about every good tree. */
module RbCheck {
  import Bits
  import opened RbHeap
  import opened RbOrder
  import opened RbInsert
  import opened RbLink
  import opened RbClient

  /** black_path_count: the black nodes from n up to the root. */
  ghost function BlackPathCount(F: Heap, root: Node?, n: Node): nat
    requires Shape(F, root) && n in F
    decreases Outside(F, n)
  {
    (if F[n].red then 0 else 1) +
      if F[n].parent == null then 0 else (Climb(F, root, n); BlackPathCount(F, root, F[n].parent))
  }

  /** All nodes from n up to the root. */
  ghost function PathCount(F: Heap, root: Node?, n: Node): nat
    requires Shape(F, root) && n in F
    decreases Outside(F, n)
  {
    1 + if F[n].parent == null then 0 else (Climb(F, root, n); PathCount(F, root, F[n].parent))
  }

  /** The black nodes above n and those below it add up to the root's count. */
  lemma {:induction false} BlackPath(F: Heap, root: Node?, n: Node)
    requires Shape(F, root) && Balanced(F) && n in F && root in F
    ensures BlackPathCount(F, root, n) + Bh(F, F[n].left) == F[root].bh
    decreases Outside(F, n)
  {
    assert Linked(F, root, n) && BhOk(F, n);
    if F[n].parent != null {
      Climb(F, root, n);
      BlackPath(F, root, F[n].parent);
      assert BhOk(F, F[n].parent);
    }
  }

  /** Every path to the root is at most half red. */
  lemma {:induction false} HalfBlack(F: Heap, root: Node?, n: Node)
    requires Shape(F, root) && Coloured(F, null) && !Red(F, root) && n in F
    ensures PathCount(F, root, n) <= 2 * BlackPathCount(F, root, n)
    ensures !F[n].red ==> PathCount(F, root, n) < 2 * BlackPathCount(F, root, n)
    decreases Outside(F, n)
  {
    assert Linked(F, root, n);
    if F[n].parent != null {
      Climb(F, root, n);
      HalfBlack(F, root, F[n].parent);
      assert RedOk(F, F[n].parent, null);
    }
  }

  /** A subtree holds at least as many nodes as its black count demands. */
  lemma {:induction false} Crowded(F: Heap, root: Node?, n: Node?)
    requires Shape(F, root) && Balanced(F) && (n != null ==> n in F)
    ensures |Traverse(F, root, n)| + 1 >= Bits.Pow2(Bh(F, n))
    decreases if n == null then {} else Below(F, n), n != null
  {
    if n != null {
      Descend(F, root, n);
      Crowded(F, root, F[n].left);
      Crowded(F, root, F[n].right);
      assert BhOk(F, n);
    }
  }

  /** A stored value is the greatest one of the subtree. */
  lemma {:induction false} AugmentedIsMax(F: Heap, root: Node?, n: Node)
    requires Shape(F, root) && Augmented(F, {}) && n in F
    ensures forall m :: m in Traverse(F, root, n) ==> m.val <= F[n].augmented
    ensures exists m :: m in Traverse(F, root, n) && m.val == F[n].augmented
    decreases Below(F, n)
  {
    Descend(F, root, n);
    var l, r := F[n].left, F[n].right;
    if l != null { AugmentedIsMax(F, root, l); }
    if r != null { AugmentedIsMax(F, root, r); }
    assert F[n].augmented == AugOf(F, n);
    assert Traverse(F, root, n) == Traverse(F, root, l) + [n] + Traverse(F, root, r);
  }

  /**
   * Nothing that check and check_augmented of the test module warn about can happen: keys never descend,
   * a red node has a black parent, nodes with a missing child have one black path count, that count
   * bounds the number of nodes from below, and every stored value is the recomputed one.
   */
  lemma CheckPasses(F: Heap, root: Node?, leftmost: Node?)
    requires Good(F, root, leftmost)
    ensures Shape(F, root) && (root != null ==> root in F)
    ensures var q := Traverse(F, root, root);
      && (forall n :: n in q <==> n in F)
      && (forall i, j :: 0 <= i < j < |q| ==> q[i] != q[j] && q[i].key <= q[j].key)
    ensures forall n :: n in F && F[n].red ==> F[n].parent in F && !F[F[n].parent].red
    ensures forall n :: n in F && (F[n].left == null || F[n].right == null) ==>
        root in F && BlackPathCount(F, root, n) == F[root].bh
    ensures forall n :: n in F ==> |Traverse(F, root, root)| + 1 >= Bits.Pow2(BlackPathCount(F, root, n))
    ensures forall n :: n in F ==> PathCount(F, root, n) <= 2 * BlackPathCount(F, root, n)
    ensures forall n :: n in F ==> F[n].augmented == AugOf(F, n)
    ensures if root == null then leftmost == null
      else Traverse(F, root, root) != [] && leftmost == Traverse(F, root, root)[0]
  {
    OpenGood(F, root, leftmost);
    var q := Traverse(F, root, root);
    TraverseIsOrder(F, root);
    FirstIndex(F, q, leftmost);
    forall i, j | 0 <= i < j < |q| ensures q[i] != q[j] && q[i].key <= q[j].key {
      assert F[q[i]].pos < F[q[j]].pos;
    }
    assert forall n :: n in F ==> F[n].augmented == AugOf(F, n);
    forall n | n in F && F[n].red ensures F[n].parent in F && !F[F[n].parent].red {
      RedBelowBlack(F, root, n);
    }
    forall n | n in F
      ensures (F[n].left == null || F[n].right == null) ==> root in F && BlackPathCount(F, root, n) == F[root].bh
      ensures |q| + 1 >= Bits.Pow2(BlackPathCount(F, root, n))
      ensures PathCount(F, root, n) <= 2 * BlackPathCount(F, root, n)
    {
      hide *;
      RootExists(F, root, n);
      BlackPath(F, root, n);
      HalfBlack(F, root, n);
      Crowded(F, root, root);
      NullBh(F, n);
      BhIs(F, root);
      Bits.Pow2Mono(BlackPathCount(F, root, n), F[root].bh);
    }
    if root != null { assert root in q; }
  }

  lemma RootExists(F: Heap, root: Node?, n: Node)
    requires Shape(F, root) && n in F
    ensures root != null && root in F
  {
    UnderRoot(F, root, n);
  }

  lemma BhIs(F: Heap, n: Node?)
    ensures n in F ==> Bh(F, n) == F[n].bh
  {
  }

  lemma NullBh(F: Heap, n: Node)
    requires n in F && Balanced(F)
    ensures (F[n].left == null || F[n].right == null) ==> Bh(F, F[n].left) == 0
  {
    assert BhOk(F, n);
  }

  lemma RedBelowBlack(F: Heap, root: Node?, n: Node)
    requires Shape(F, root) && Coloured(F, null) && !Red(F, root) && n in F && F[n].red
    ensures F[n].parent in F && !F[F[n].parent].red
  {
    assert Linked(F, root, n);
    if F[n].parent != null { assert RedOk(F, F[n].parent, null); }
  }
}
