/** The tree read from left to right: which nodes lie where, by following parent links. */
module RbOrder {
  import opened RbHeap

  ghost predicate Inside(F: Heap, n: Node, m: Node)
    requires n in F && m in F
  {
    F[n].lo < F[m].pos < F[n].hi
  }

  /** The nodes that are not below n; climbing makes this set smaller. */
  ghost function Outside(F: Heap, n: Node): set<Node>
    requires n in F
  {
    set m | m in F && !Inside(F, n, m)
  }

  lemma ParentWider(F: Heap, root: Node?, n: Node)
    requires Shape(F, root) && n in F && F[n].parent != null
    ensures F[n].parent in F && F[F[n].parent].lo <= F[n].lo && F[n].hi <= F[F[n].parent].hi
    ensures !Inside(F, n, F[n].parent) && Inside(F, n, n)
  {
    assert Linked(F, root, n) && Linked(F, root, F[n].parent);
  }

  lemma Climb(F: Heap, root: Node?, n: Node)
    requires Shape(F, root) && n in F && F[n].parent != null
    ensures F[n].parent in F
    ensures Outside(F, F[n].parent) < Outside(F, n)
  {
    ParentWider(F, root, n);
    HoldsItself(F, root, F[n].parent);
    hide Shape;
    assert F[n].parent in Outside(F, n);
  }

  lemma HoldsItself(F: Heap, root: Node?, n: Node)
    requires Shape(F, root) && n in F
    ensures Inside(F, n, n)
  {
    assert Linked(F, root, n);
  }

  /** d is a, or lies below it. */
  ghost predicate Under(F: Heap, root: Node?, a: Node, d: Node)
    requires Shape(F, root) && d in F
    decreases Outside(F, d)
  {
    d == a || (F[d].parent != null && (Climb(F, root, d); Under(F, root, a, F[d].parent)))
  }

  lemma {:induction false} UnderRange(F: Heap, root: Node?, a: Node, d: Node)
    requires Shape(F, root) && a in F && d in F && Under(F, root, a, d)
    ensures F[a].lo <= F[d].lo && F[d].hi <= F[a].hi
    decreases Outside(F, d)
  {
    if d != a {
      ParentWider(F, root, d);
      Climb(F, root, d);
      UnderRange(F, root, a, F[d].parent);
    }
  }

  lemma {:induction false} UnderRoot(F: Heap, root: Node?, d: Node)
    requires Shape(F, root) && d in F
    ensures root != null && root in F && Under(F, root, root, d)
    decreases Outside(F, d)
  {
    assert Linked(F, root, d);
    if F[d].parent != null {
      Climb(F, root, d);
      UnderRoot(F, root, F[d].parent);
    }
  }

  /** A node properly below a lies below one of its children. */
  lemma {:induction false} UnderChild(F: Heap, root: Node?, a: Node, d: Node)
    requires Shape(F, root) && a in F && d in F && Under(F, root, a, d) && d != a
    ensures (F[a].left in F && Under(F, root, F[a].left, d)) || (F[a].right in F && Under(F, root, F[a].right, d))
    decreases Outside(F, d)
  {
    assert Linked(F, root, d);
    Climb(F, root, d);
    if F[d].parent != a {
      UnderChild(F, root, a, F[d].parent);
    }
  }

  /** The intervals of two nodes are nested along the tree, or disjoint. */
  lemma {:induction false} Laminar(F: Heap, root: Node?, a: Node, b: Node)
    requires Shape(F, root) && a in F && b in F
    ensures Under(F, root, a, b) || Under(F, root, b, a) || F[a].hi <= F[b].lo || F[b].hi <= F[a].lo
    decreases Outside(F, a)
  {
    assert Linked(F, root, a);
    if F[a].parent == null {
      UnderRoot(F, root, b);
    } else {
      var p := F[a].parent;
      assert Linked(F, root, p);
      Climb(F, root, a);
      Laminar(F, root, p, b);
      ParentWider(F, root, a);
      if Under(F, root, p, b) && b != p {
        UnderChild(F, root, p, b);
        var c := if F[p].left in F && Under(F, root, F[p].left, b) then F[p].left else F[p].right;
        UnderRange(F, root, c, b);
      }
    }
  }

  /** A node in the interval of x is x or lies below one of its children. */
  lemma InsideUnder(F: Heap, root: Node?, x: Node, m: Node)
    requires Shape(F, root) && x in F && m in F && Inside(F, x, m)
    ensures Under(F, root, x, m)
  {
    Laminar(F, root, x, m);
    HoldsItself(F, root, m);
    if Under(F, root, m, x) && x != m {
      UnderChild(F, root, m, x);
      var c := if F[m].left in F && Under(F, root, F[m].left, x) then F[m].left else F[m].right;
      UnderRange(F, root, c, x);
      assert Linked(F, root, m);
    }
  }

  /** No node lies where a child is missing. */
  lemma LeftSlotEmpty(F: Heap, root: Node?, x: Node, m: Node)
    requires Shape(F, root) && x in F && m in F && F[x].left == null
    ensures !(F[x].lo < F[m].pos < F[x].pos)
  {
    assert Linked(F, root, x);
    if F[x].lo < F[m].pos < F[x].pos {
      InsideUnder(F, root, x, m);
      UnderChild(F, root, x, m);
      UnderRange(F, root, F[x].right, m);
      HoldsItself(F, root, m);
      assert false;
    }
  }

  lemma RightSlotEmpty(F: Heap, root: Node?, x: Node, m: Node)
    requires Shape(F, root) && x in F && m in F && F[x].right == null
    ensures !(F[x].pos < F[m].pos < F[x].hi)
  {
    assert Linked(F, root, x);
    if F[x].pos < F[m].pos < F[x].hi {
      InsideUnder(F, root, x, m);
      UnderChild(F, root, x, m);
      UnderRange(F, root, F[x].left, m);
      HoldsItself(F, root, m);
      assert false;
    }
  }

  /** Two nodes never share a place. */
  lemma PlacesDiffer(F: Heap, root: Node?, a: Node, b: Node)
    requires Shape(F, root) && a in F && b in F && a != b
    ensures F[a].pos != F[b].pos
  {
    if F[a].pos == F[b].pos {
      assert Linked(F, root, a) && Linked(F, root, b);
      InsideUnder(F, root, a, b);
      UnderChild(F, root, a, b);
      var c := if F[a].left in F && Under(F, root, F[a].left, b) then F[a].left else F[a].right;
      UnderRange(F, root, c, b);
      assert false;
    }
  }

  lemma AllInside(F: Heap, root: Node?, m: Node)
    requires Shape(F, root) && m in F
    ensures 0.0 <= F[m].lo < F[m].pos < F[m].hi <= 1.0
  {
    UnderRoot(F, root, m);
    UnderRange(F, root, root, m);
    assert Linked(F, root, m);
  }

  // ----- the in-order sequence

  ghost predicate Ascending(F: Heap, q: seq<Node>) {
    && (forall i :: 0 <= i < |q| ==> q[i] in F)
    && (forall i, j :: 0 <= i < j < |q| ==> F[q[i]].pos < F[q[j]].pos)
  }

  /** q lists exactly the nodes of F, from left to right. */
  ghost predicate IsOrder(F: Heap, q: seq<Node>) {
    Ascending(F, q) && forall n :: n in F ==> n in q
  }

  /** The nodes below n. */
  ghost function Below(F: Heap, n: Node): set<Node>
    requires n in F
  {
    set m | m in F && Inside(F, n, m)
  }

  lemma Descend(F: Heap, root: Node?, n: Node)
    requires Shape(F, root) && n in F
    ensures F[n].left != null ==> F[n].left in F && Below(F, F[n].left) < Below(F, n)
    ensures F[n].right != null ==> F[n].right in F && Below(F, F[n].right) < Below(F, n)
  {
    assert Linked(F, root, n);
    assert n in Below(F, n);
    if F[n].left != null { assert n !in Below(F, F[n].left); }
    if F[n].right != null { assert n !in Below(F, F[n].right); }
  }

  /** In-order traversal of the tree below n. */
  ghost function Traverse(F: Heap, root: Node?, n: Node?): seq<Node>
    requires Shape(F, root) && (n != null ==> n in F)
    decreases if n == null then {} else Below(F, n), n != null
  {
    if n == null then [] else
      Descend(F, root, n);
      Traverse(F, root, F[n].left) + [n] + Traverse(F, root, F[n].right)
  }

  lemma Join(F: Heap, p: seq<Node>, n: Node, q: seq<Node>)
    requires Ascending(F, p) && Ascending(F, q) && n in F
    requires forall m :: m in p ==> F[m].pos < F[n].pos
    requires forall m :: m in q ==> F[n].pos < F[m].pos
    ensures Ascending(F, p + [n] + q)
  {
  }

  lemma InsideSplit(F: Heap, root: Node?, n: Node, m: Node)
    requires Shape(F, root) && n in F && m in F
    ensures var f := F[n];
      Inside(F, n, m) <==>
        || m == n
        || (f.left != null && f.left in F && Inside(F, f.left, m))
        || (f.right != null && f.right in F && Inside(F, f.right, m))
    ensures F[n].left != null && F[n].left in F && Inside(F, F[n].left, m) ==> F[m].pos < F[n].pos
    ensures F[n].right != null && F[n].right in F && Inside(F, F[n].right, m) ==> F[n].pos < F[m].pos
  {
    assert Linked(F, root, n);
    if F[n].left == null { LeftSlotEmpty(F, root, n, m); }
    if F[n].right == null { RightSlotEmpty(F, root, n, m); }
    if m != n { PlacesDiffer(F, root, m, n); }
  }

  lemma {:induction false} TraverseBelow(F: Heap, root: Node?, n: Node?)
    requires Shape(F, root) && (n != null ==> n in F)
    ensures Ascending(F, Traverse(F, root, n))
    ensures forall m :: m in Traverse(F, root, n) <==> n != null && m in F && Inside(F, n, m)
    decreases if n == null then {} else Below(F, n), n != null
  {
    if n != null {
      Descend(F, root, n);
      TraverseBelow(F, root, F[n].left);
      TraverseBelow(F, root, F[n].right);
      TraverseStep(F, root, n);
    }
  }

  lemma TraverseStep(F: Heap, root: Node?, n: Node)
    requires Shape(F, root) && n in F
    requires F[n].left != null ==> F[n].left in F
    requires F[n].right != null ==> F[n].right in F
    requires Ascending(F, Traverse(F, root, F[n].left)) && Ascending(F, Traverse(F, root, F[n].right))
    requires forall m :: m in Traverse(F, root, F[n].left) <==> F[n].left != null && m in F && Inside(F, F[n].left, m)
    requires
      forall m :: m in Traverse(F, root, F[n].right) <==> F[n].right != null && m in F && Inside(F, F[n].right, m)
    ensures Ascending(F, Traverse(F, root, n))
    ensures forall m :: m in Traverse(F, root, n) <==> m in F && Inside(F, n, m)
  {
    var p, q := Traverse(F, root, F[n].left), Traverse(F, root, F[n].right);
    assert Traverse(F, root, n) == p + [n] + q;
    hide Shape, Inside, Traverse;
    forall m | m in F
      ensures m in p + [n] + q <==> Inside(F, n, m)
      ensures m in p ==> F[m].pos < F[n].pos
      ensures m in q ==> F[n].pos < F[m].pos
    {
      InsideSplit(F, root, n, m);
    }
    Join(F, p, n, q);
  }

  /** The in-order traversal from the root lists every node once, from left to right. */
  lemma TraverseIsOrder(F: Heap, root: Node?)
    requires Shape(F, root)
    ensures IsOrder(F, Traverse(F, root, root))
  {
    TraverseBelow(F, root, root);
    forall m | m in F ensures root != null && Inside(F, root, m) {
      UnderRoot(F, root, m);
      AllInside(F, root, m);
    }
  }

  /** There is only one way to list the nodes from left to right. */
  lemma {:induction false} OrderUnique(F: Heap, q: seq<Node>, r: seq<Node>)
    requires Ascending(F, q) && Ascending(F, r) && (forall n :: n in q <==> n in r)
    ensures q == r
  {
    if q == [] {
      assert forall i :: 0 <= i < |r| ==> r[i] in q;
    } else {
      assert q[0] in r;
      var k :| 0 <= k < |r| && r[k] == q[0];
      assert r[0] in q;
      var l :| 0 <= l < |q| && q[l] == r[0];
      assert k == 0;
      forall n ensures n in q[1..] <==> n in r[1..] {
        assert n in q[1..] ==> n in r && n != r[0] by {
          if n in q[1..] {
            var i :| 0 <= i < |q| - 1 && q[1..][i] == n;
            assert q[i + 1] == n && F[q[0]].pos < F[n].pos;
          }
        }
        assert n in r[1..] ==> n in q && n != q[0] by {
          if n in r[1..] {
            var i :| 0 <= i < |r| - 1 && r[1..][i] == n;
            assert r[i + 1] == n && F[r[0]].pos < F[n].pos;
          }
        }
      }
      OrderUnique(F, q[1..], r[1..]);
    }
  }

  /** Rebalancing that leaves the places alone leaves the in-order sequence alone. */
  lemma SameOrder(F: Heap, root: Node?, G: Heap, root': Node?)
    requires Shape(F, root) && Shape(G, root') && SamePlaces(F, G)
    ensures Traverse(F, root, root) == Traverse(G, root', root')
  {
    TraverseIsOrder(F, root);
    TraverseIsOrder(G, root');
    hide Shape, Traverse;
    OrderUnique(F, Traverse(F, root, root), Traverse(G, root', root'));
  }

  // ----- first, last and neighbours

  ghost predicate IsFirst(F: Heap, r: Node?) {
    if r == null then F == map[] else r in F && forall m :: m in F ==> F[r].pos <= F[m].pos
  }

  ghost predicate IsLast(F: Heap, r: Node?) {
    if r == null then F == map[] else r in F && forall m :: m in F ==> F[m].pos <= F[r].pos
  }

  /** r is the node right after n, or null when there is none. */
  ghost predicate IsNext(F: Heap, n: Node, r: Node?)
    requires n in F
  {
    if r == null then forall m :: m in F ==> F[m].pos <= F[n].pos
    else r in F && F[n].pos < F[r].pos && forall m :: m in F ==> F[m].pos <= F[n].pos || F[r].pos <= F[m].pos
  }

  ghost predicate IsPrevious(F: Heap, n: Node, r: Node?)
    requires n in F
  {
    if r == null then forall m :: m in F ==> F[n].pos <= F[m].pos
    else r in F && F[r].pos < F[n].pos && forall m :: m in F ==> F[m].pos <= F[r].pos || F[n].pos <= F[m].pos
  }

  /** Stepping forward and stepping back undo each other. */
  lemma NextPrevious(F: Heap, n: Node, r: Node)
    requires n in F && r in F
    ensures IsNext(F, n, r) <==> IsPrevious(F, r, n)
  {
  }

  /** Stepping forward moves one place along the in-order sequence. */
  lemma NextIndex(F: Heap, q: seq<Node>, i: nat, r: Node?)
    requires IsOrder(F, q) && i < |q| && q[i] in F && IsNext(F, q[i], r)
    ensures if r == null then i + 1 == |q| else i + 1 < |q| && q[i + 1] == r
  {
    if r == null {
    } else {
      var j :| 0 <= j < |q| && q[j] == r;
    }
  }

  lemma FirstIndex(F: Heap, q: seq<Node>, r: Node?)
    requires IsOrder(F, q) && IsFirst(F, r)
    ensures if r == null then q == [] else q != [] && q[0] == r
  {
    if r == null {
    } else {
      var j :| 0 <= j < |q| && q[j] == r;
    }
  }

  /** A node whose interval starts where the search started, with nothing on its left, is the one searched for. */
  lemma LeftmostNext(F: Heap, root: Node?, n: Node, r: Node)
    requires Shape(F, root) && n in F && r in F && F[r].left == null && F[r].lo == F[n].pos
    ensures IsNext(F, n, r)
  {
    assert Linked(F, root, r);
    forall m | m in F ensures F[m].pos <= F[n].pos || F[r].pos <= F[m].pos {
      LeftSlotEmpty(F, root, r, m);
    }
  }

  lemma LeftmostFirst(F: Heap, root: Node?, r: Node)
    requires Shape(F, root) && r in F && F[r].left == null && F[r].lo == F[root].lo && root in F
    ensures IsFirst(F, r)
  {
    assert Linked(F, root, r);
    forall m | m in F ensures F[r].pos <= F[m].pos {
      LeftSlotEmpty(F, root, r, m);
      AllInside(F, root, m);
    }
  }

  /** The nearest ancestor of which n is on the left comes next. */
  lemma AncestorNext(F: Heap, root: Node?, n: Node, c: Node)
    requires Shape(F, root) && n in F && c in F && F[n].right == null && F[c].hi == F[n].hi
    requires F[c].parent == null || (F[c].parent in F && F[F[c].parent].right != c)
    ensures IsNext(F, n, F[c].parent)
  {
    assert Linked(F, root, c) && Linked(F, root, n);
    var p := F[c].parent;
    forall m | m in F ensures F[m].pos <= F[n].pos || F[n].hi <= F[m].pos {
      RightSlotEmpty(F, root, n, m);
    }
    if p == null {
      forall m | m in F ensures F[m].pos <= F[n].pos {
        AllInside(F, root, m);
      }
    } else {
      assert Linked(F, root, p);
    }
  }

  lemma LeftChild(F: Heap, root: Node?, n: Node)
    requires Shape(F, root) && n in F && F[n].left != null
    ensures F[n].left in F && F[F[n].left].lo == F[n].lo && Below(F, F[n].left) < Below(F, n)
  {
    Descend(F, root, n);
    assert Linked(F, root, n);
  }

  lemma RightChild(F: Heap, root: Node?, n: Node)
    requires Shape(F, root) && n in F && F[n].right != null
    ensures F[n].right in F && F[F[n].right].lo == F[n].pos
  {
    assert Linked(F, root, n);
  }

  lemma RightParent(F: Heap, root: Node?, n: Node)
    requires Shape(F, root) && n in F && F[n].parent != null
    ensures F[n].parent in F && Outside(F, F[n].parent) < Outside(F, n)
    ensures F[F[n].parent].right == n ==> F[F[n].parent].hi == F[n].hi
  {
    Climb(F, root, n);
    assert Linked(F, root, F[n].parent);
  }

  lemma RightmostPrevious(F: Heap, root: Node?, n: Node, r: Node)
    requires Shape(F, root) && n in F && r in F && F[r].right == null && F[r].hi == F[n].pos
    ensures IsPrevious(F, n, r)
  {
    assert Linked(F, root, r);
    forall m | m in F ensures F[m].pos <= F[r].pos || F[n].pos <= F[m].pos {
      RightSlotEmpty(F, root, r, m);
    }
  }

  lemma RightmostLast(F: Heap, root: Node?, r: Node)
    requires Shape(F, root) && r in F && F[r].right == null && F[r].hi == F[root].hi && root in F
    ensures IsLast(F, r)
  {
    assert Linked(F, root, r);
    forall m | m in F ensures F[m].pos <= F[r].pos {
      RightSlotEmpty(F, root, r, m);
      AllInside(F, root, m);
    }
  }

  lemma AncestorPrevious(F: Heap, root: Node?, n: Node, c: Node)
    requires Shape(F, root) && n in F && c in F && F[n].left == null && F[c].lo == F[n].lo
    requires F[c].parent == null || (F[c].parent in F && F[F[c].parent].left != c)
    ensures IsPrevious(F, n, F[c].parent)
  {
    assert Linked(F, root, c) && Linked(F, root, n);
    var p := F[c].parent;
    forall m | m in F ensures F[m].pos <= F[n].lo || F[n].pos <= F[m].pos {
      LeftSlotEmpty(F, root, n, m);
    }
    if p == null {
      forall m | m in F ensures F[n].pos <= F[m].pos {
        AllInside(F, root, m);
      }
    } else {
      assert Linked(F, root, p);
    }
  }

  lemma RightDown(F: Heap, root: Node?, n: Node)
    requires Shape(F, root) && n in F && F[n].right != null
    ensures F[n].right in F && F[F[n].right].hi == F[n].hi && Below(F, F[n].right) < Below(F, n)
  {
    Descend(F, root, n);
    assert Linked(F, root, n);
  }

  lemma LeftEnd(F: Heap, root: Node?, n: Node)
    requires Shape(F, root) && n in F && F[n].left != null
    ensures F[n].left in F && F[F[n].left].hi == F[n].pos
  {
    assert Linked(F, root, n);
  }

  lemma LeftParent(F: Heap, root: Node?, n: Node)
    requires Shape(F, root) && n in F && F[n].parent != null
    ensures F[n].parent in F && Outside(F, F[n].parent) < Outside(F, n)
    ensures F[F[n].parent].left == n ==> F[F[n].parent].lo == F[n].lo
  {
    Climb(F, root, n);
    assert Linked(F, root, F[n].parent);
  }
}
