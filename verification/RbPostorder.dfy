/** The postorder walk of rb_first_postorder and rb_next_postorder. */
module RbPostorder {
  import opened RbHeap
  import opened RbOrder

  /** Postorder traversal of the tree below n. */
  ghost function Postorder(F: Heap, root: Node?, n: Node?): seq<Node>
    requires Shape(F, root) && (n != null ==> n in F)
    decreases if n == null then {} else Below(F, n), n != null
  {
    if n == null then [] else
      Descend(F, root, n);
      Postorder(F, root, F[n].left) + Postorder(F, root, F[n].right) + [n]
  }

  /** It lists the same nodes as the in-order traversal, each as often, that is once. */
  lemma {:induction false} PostorderPermutes(F: Heap, root: Node?, n: Node?)
    requires Shape(F, root) && (n != null ==> n in F)
    ensures multiset(Postorder(F, root, n)) == multiset(Traverse(F, root, n))
    decreases if n == null then {} else Below(F, n), n != null
  {
    if n != null {
      Descend(F, root, n);
      PostorderPermutes(F, root, F[n].left);
      PostorderPermutes(F, root, F[n].right);
      MultisetJoin(Postorder(F, root, F[n].left), Postorder(F, root, F[n].right), Traverse(F, root, F[n].left),
        Traverse(F, root, F[n].right), n);
    }
  }

  lemma MultisetJoin(l: seq<Node>, r: seq<Node>, l': seq<Node>, r': seq<Node>, n: Node)
    requires multiset(l) == multiset(l') && multiset(r) == multiset(r')
    ensures multiset(l + r + [n]) == multiset(l' + [n] + r')
  {
  }

  lemma Regroup(a: seq<Node>, l: seq<Node>, r: seq<Node>, p: Node, b: seq<Node>)
    ensures a + (l + r + [p]) + b == a + l + (r + [p] + b)
    ensures a + (l + r + [p]) + b == (a + l) + r + ([p] + b)
    ensures r + [p] + b != [] && (r + [p] + b)[0] == if r == [] then p else r[0]
    ensures [p] + b != [] && ([p] + b)[0] == p
  {
  }

  lemma PostorderStep(F: Heap, root: Node?, n: Node)
    requires Shape(F, root) && n in F
    ensures (F[n].left != null ==> F[n].left in F) && (F[n].right != null ==> F[n].right in F)
    ensures Postorder(F, root, n) == Postorder(F, root, F[n].left) + Postorder(F, root, F[n].right) + [n]
    ensures F[n].left != null ==> Postorder(F, root, F[n].left) != [] && Below(F, F[n].left) < Below(F, n)
    ensures F[n].right != null ==> Postorder(F, root, F[n].right) != [] && Below(F, F[n].right) < Below(F, n)
    ensures F[n].left == null ==> Postorder(F, root, F[n].left) == []
    ensures F[n].right == null ==> Postorder(F, root, F[n].right) == []
  {
    Descend(F, root, n);
  }

  /** The first node of the traversal below n. */
  ghost function FirstBelow(F: Heap, root: Node?, n: Node): Node
    requires Shape(F, root) && n in F
  {
    PostorderStep(F, root, n);
    Postorder(F, root, n)[0]
  }

  lemma FirstBelowStep(F: Heap, root: Node?, n: Node)
    requires Shape(F, root) && n in F
    ensures (F[n].left != null ==> F[n].left in F) && (F[n].right != null ==> F[n].right in F)
    ensures FirstBelow(F, root, n) ==
      if F[n].left != null then FirstBelow(F, root, F[n].left)
      else if F[n].right != null then FirstBelow(F, root, F[n].right) else n
  {
    PostorderStep(F, root, n);
  }

  /** The node visited after the whole subtree of n. */
  ghost function After(F: Heap, root: Node?, n: Node): Node?
    requires Shape(F, root) && n in F
  {
    var p := F[n].parent;
    if p == null then null else
      Climb(F, root, n);
      PostorderStep(F, root, p);
      if F[p].left == n && F[p].right != null then FirstBelow(F, root, F[p].right) else p
  }

  /**
   * The walk visits the subtree of n in one piece that ends with n, so after all its descendants, and
   * goes on with the node that After names.
   */
  lemma {:induction false} PostorderContext(F: Heap, root: Node?, n: Node) returns (a: seq<Node>, b: seq<Node>)
    requires Shape(F, root) && n in F
    ensures root != null && root in F
    ensures Postorder(F, root, root) == a + Postorder(F, root, n) + b
    ensures if b == [] then After(F, root, n) == null else After(F, root, n) == b[0]
    decreases Outside(F, n)
  {
    AfterIs(F, root, n);
    Placed(F, root, n);
    var p := F[n].parent;
    if p == null {
      a, b := [], [];
    } else {
      Climb(F, root, n);
      var a', b' := PostorderContext(F, root, p);
      PostorderStep(F, root, p);
      var l, r := Postorder(F, root, F[p].left), Postorder(F, root, F[p].right);
      Regroup(a', l, r, p, b');
      FirstBelowIs(F, root, F[p].right);
      hide *;
      if F[p].left == n {
        a, b := a', r + [p] + b';
      } else {
        a, b := a' + l, [p] + b';
      }
    }
  }

  lemma Placed(F: Heap, root: Node?, n: Node)
    requires Shape(F, root) && n in F
    ensures root != null && root in F
    ensures F[n].parent == null ==> n == root
    ensures F[n].parent != null ==> F[n].parent in F && (F[F[n].parent].left == n) != (F[F[n].parent].right == n)
  {
    UnderRoot(F, root, n);
    assert Linked(F, root, n);
    if F[n].parent != null { assert Linked(F, root, F[n].parent); }
  }

  lemma FirstBelowIs(F: Heap, root: Node?, n: Node?)
    requires Shape(F, root) && (n != null ==> n in F)
    ensures if n == null then Postorder(F, root, n) == []
      else Postorder(F, root, n) != [] && FirstBelow(F, root, n) == Postorder(F, root, n)[0]
  {
    if n != null { PostorderStep(F, root, n); }
  }

  /** Position i of the traversal holds n; the next position holds r, or there is none and r is null. */
  ghost predicate FollowsInPostorder(F: Heap, root: Node?, n: Node, r: Node?)
    requires Shape(F, root) && (root != null ==> root in F)
  {
    exists i: nat :: i < |Postorder(F, root, root)| && Postorder(F, root, root)[i] == n &&
      r == (if i + 1 < |Postorder(F, root, root)| then Postorder(F, root, root)[i + 1] else null)
  }

  lemma SplitAt(q: seq<Node>, a: seq<Node>, m: seq<Node>, b: seq<Node>, n: Node) returns (i: nat)
    requires q == a + m + b && m != [] && m[|m| - 1] == n
    ensures i < |q| && q[i] == n && (if i + 1 < |q| then b != [] && q[i + 1] == b[0] else b == [])
  {
    i := |a| + |m| - 1;
  }

  lemma MakeFollows(F: Heap, root: Node?, n: Node, r: Node?, i: nat)
    requires Shape(F, root) && (root != null ==> root in F)
    requires var q := Postorder(F, root, root); i < |q| && q[i] == n && r == (if i + 1 < |q| then q[i + 1] else null)
    ensures FollowsInPostorder(F, root, n, r)
  {
  }

  lemma AfterFollows(F: Heap, root: Node?, n: Node)
    requires Shape(F, root) && n in F
    ensures root != null && root in F && FollowsInPostorder(F, root, n, After(F, root, n))
  {
    hide *;
    var a, b := PostorderContext(F, root, n);
    PostorderStep(F, root, n);
    var m := Postorder(F, root, n);
    var i := SplitAt(Postorder(F, root, root), a, m, b, n);
    MakeFollows(F, root, n, After(F, root, n), i);
  }

  lemma AfterIs(F: Heap, root: Node?, n: Node)
    requires Shape(F, root) && n in F
    ensures var p := F[n].parent;
      && (p != null ==> p in F && (F[p].right != null ==> F[p].right in F))
      && After(F, root, n) ==
           if p != null && n == F[p].left && F[p].right != null then FirstBelow(F, root, F[p].right) else p
  {
    if F[n].parent != null {
      Climb(F, root, n);
      PostorderStep(F, root, F[n].parent);
    }
  }
}
