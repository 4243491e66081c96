/** What erasing a node does to the order, the keys and the augmented values. */
module RbErased {
  import opened RbHeap
  import opened RbOrder
  import opened RbRotate
  import opened RbLink
  import opened RbErase

  // ----- the order

  /** n is gone; its successor s has taken over its place when there is one. */
  ghost predicate Vacated(F: Heap, G: Heap, n: Node, s: Node?) {
    && n in F && G.Keys == F.Keys - {n}
    && (forall m :: m in G && m != s ==> G[m].pos == F[m].pos)
    && (s != null ==> s in G && IsNext(F, n, s) && G[s].pos == F[n].pos)
  }

  function Removed(q: seq<Node>, i: nat): seq<Node>
    requires i < |q|
  {
    q[..i] + q[i + 1..]
  }

  /** r is q without n. */
  ghost predicate ErasedFrom(q: seq<Node>, r: seq<Node>, n: Node) {
    exists i: nat :: i < |q| && q[i] == n && r == Removed(q, i)
  }

  lemma RemovedIndex(q: seq<Node>, i: nat, k: nat)
    requires i < |q| && k + 1 < |q|
    ensures |Removed(q, i)| == |q| - 1 && Removed(q, i)[k] == q[if k < i then k else k + 1]
  {
  }

  lemma RemovedLength(q: seq<Node>, i: nat)
    requires i < |q|
    ensures |Removed(q, i)| == |q| - 1
  {
  }

  lemma RemovedMember(q: seq<Node>, i: nat, m: Node)
    requires i < |q| && m in q && m != q[i]
    ensures m in Removed(q, i)
  {
    var j :| 0 <= j < |q| && q[j] == m;
    RemovedIndex(q, i, if j < i then j else j - 1);
  }

  lemma PlaceLeft(F: Heap, G: Heap, n: Node, s: Node?, q: seq<Node>, i: nat, k: nat)
    requires IsOrder(F, q) && Vacated(F, G, n, s) && i < |q| && q[i] == n && k < |q| && k != i
    ensures q[k] in F && q[k] in G
    ensures G[q[k]].pos == if q[k] == s then F[q[i]].pos else F[q[k]].pos
    ensures q[k] == s ==> k == i + 1
  {
    if k < i { assert F[q[k]].pos < F[q[i]].pos; } else { assert F[q[i]].pos < F[q[k]].pos; }
    if s != null {
      NextIndex(F, q, i, s);
      OnceOnly(F, q, k, i + 1);
    }
  }

  lemma OnceOnly(F: Heap, q: seq<Node>, k: nat, l: nat)
    requires IsOrder(F, q) && k < |q| && l < |q|
    ensures q[k] == q[l] ==> k == l
  {
    if k < l {
      assert F[q[k]].pos < F[q[l]].pos;
    } else if l < k {
      assert F[q[l]].pos < F[q[k]].pos;
    }
  }

  lemma ErasedAscends(F: Heap, G: Heap, n: Node, s: Node?, q: seq<Node>, i: nat)
    requires IsOrder(F, q) && Vacated(F, G, n, s) && i < |q| && q[i] == n
    ensures IsOrder(G, Removed(q, i))
  {
    var r := Removed(q, i);
    RemovedLength(q, i);
    assert forall m :: m in F ==> m in q;
    assert forall m :: m in G ==> m in F && m != n;
    hide Removed, IsNext;
    forall m | m in G ensures m in r { RemovedMember(q, i, m); }
    forall k | 0 <= k < |r| ensures r[k] in G {
      RemovedIndex(q, i, k);
      PlaceLeft(F, G, n, s, q, i, if k < i then k else k + 1);
    }
    forall k, l | 0 <= k < l < |r| ensures G[r[k]].pos < G[r[l]].pos {
      RemovedIndex(q, i, k);
      RemovedIndex(q, i, l);
      var k', l' := if k < i then k else k + 1, if l < i then l else l + 1;
      PlaceLeft(F, G, n, s, q, i, k');
      PlaceLeft(F, G, n, s, q, i, l');
      assert F[q[k']].pos < F[q[l']].pos;
      assert l' > i ==> F[q[i]].pos < F[q[l']].pos;
      assert k' < i ==> F[q[k']].pos < F[q[i]].pos;
    }
    MakeOrder(G, r);
  }

  /** The in-order sequence loses exactly n. */
  lemma EraseOrder(F: Heap, root: Node?, G: Heap, root': Node?, n: Node, s: Node?)
    requires
      && Shape(F, root) && Shape(G, root') && Vacated(F, G, n, s) && (root != null ==> root in F)
      && (root' != null ==> root' in G)
    ensures ErasedFrom(Traverse(F, root, root), Traverse(G, root', root'), n)
  {
    var q := Traverse(F, root, root);
    TraverseIsOrder(F, root);
    assert n in q;
    var i: nat :| i < |q| && q[i] == n;
    hide *;
    ErasedAscends(F, G, n, s, q, i);
    TraverseUnique(G, root', Removed(q, i));
    MakeErased(q, i, n);
  }

  lemma MakeErased(q: seq<Node>, i: nat, n: Node)
    requires i < |q| && q[i] == n
    ensures ErasedFrom(q, Removed(q, i), n)
  {
  }

  lemma EraseKeys(F: Heap, G: Heap, root: Node?, n: Node, s: Node?)
    requires Shape(F, root) && Vacated(F, G, n, s) && KeysAscend(F)
    ensures KeysAscend(G)
  {
    forall a, b | a in G && b in G && G[a].pos < G[b].pos ensures a.key <= b.key {
      if a == s {
        assert F[n].pos < F[b].pos;
        if F[b].pos == F[s].pos { SamePlaceSame(F, root, b, s); }
      }
    }
  }

  lemma SamePlaceSame(F: Heap, root: Node?, a: Node, b: Node)
    requires Shape(F, root) && a in F && b in F
    ensures F[a].pos == F[b].pos ==> a == b
  {
    if a != b { PlacesDiffer(F, root, a, b); }
  }

  /** The cached leftmost node after an erase. */
  lemma EraseFirst(F: Heap, G: Heap, root: Node?, n: Node, s: Node?, l: Node?, r: Node?)
    requires Shape(F, root) && Vacated(F, G, n, s) && IsFirst(F, l) && l != null && (l == n ==> IsNext(F, n, r))
    ensures IsFirst(G, if l == n then r else l)
  {
    assert n in F;
    forall m | m in F ensures F[m].pos == F[n].pos ==> m == n { SamePlaceSame(F, root, m, n); }
    if s != null {
      forall m | m in F ensures F[m].pos == F[s].pos ==> m == s { SamePlaceSame(F, root, m, s); }
    }
    hide Shape;
    if l == n { EraseNextFirst(F, G, n, s, r); } else { EraseOtherFirst(F, G, n, s, l); }
  }

  lemma EraseNextFirst(F: Heap, G: Heap, n: Node, s: Node?, r: Node?)
    requires Vacated(F, G, n, s) && IsFirst(F, n) && IsNext(F, n, r)
    requires forall m :: m in F && F[m].pos == F[n].pos ==> m == n
    requires s != null ==> forall m :: m in F && F[m].pos == F[s].pos ==> m == s
    ensures IsFirst(G, r)
  {
    if r == null {
      assert forall m :: m in F ==> F[m].pos == F[n].pos;
      assert G.Keys == {};
      assert G == map[];
    } else {
      assert r in G && r != n;
    }
  }

  lemma EraseOtherFirst(F: Heap, G: Heap, n: Node, s: Node?, l: Node)
    requires Vacated(F, G, n, s) && IsFirst(F, l) && l != n
    requires forall m :: m in F && F[m].pos == F[n].pos ==> m == n
    ensures IsFirst(G, l)
  {
    assert l in F && l in G && l != s;
  }

  // ----- the augmented values

  ghost function SetAug(F: Heap, c: Node, v: int): Heap
    requires c in F
  {
    F[c := F[c].(augmented := v)]
  }

  function NextOn(path: seq<Node>, i: nat, stop: Node?): Node? {
    if i + 1 < |path| then path[i + 1] else stop
  }

  /** c hangs from p, and no other node outside E has it as a child. */
  ghost predicate Hangs(F: Heap, E: set<Node>, c: Node, p: Node?) {
    && c in F && F[c].left != c && F[c].right != c && F[c].parent == p
    && forall m :: m in F && (F[m].left == c || F[m].right == c) ==> m in E || m == p
  }

  /** path climbs by parent links to stop. */
  ghost predicate Chain(F: Heap, E: set<Node>, path: seq<Node>, stop: Node?) {
    forall i :: 0 <= i < |path| ==> Hangs(F, E, path[i], NextOn(path, i, stop))
  }

  ghost function One(n: Node?): set<Node> {
    if n == null then {} else {n}
  }

  lemma ChainAt(F: Heap, E: set<Node>, path: seq<Node>, stop: Node?, i: nat)
    requires Chain(F, E, path, stop) && i < |path|
    ensures Hangs(F, E, path[i], if i + 1 < |path| then path[i + 1] else stop)
  {
  }

  lemma ChainSame(F: Heap, G: Heap, E: set<Node>, path: seq<Node>, stop: Node?)
    requires Chain(F, E, path, stop) && SameButAugmented(F, G)
    ensures Chain(G, E, path, stop)
  {
    forall i | 0 <= i < |path| ensures Hangs(G, E, path[i], NextOn(path, i, stop)) {
      assert Hangs(F, E, path[i], NextOn(path, i, stop));
    }
  }

  /** Recomputing one node moves the discrepancy to its parent. */
  lemma SetAugStep(F: Heap, E: set<Node>, c: Node, p: Node?)
    requires Hangs(F, E, c, p) && Augmented(F, E + {c})
    ensures Augmented(SetAug(F, c, AugOf(F, c)), E + One(p))
    ensures SameButAugmented(F, SetAug(F, c, AugOf(F, c)))
  {
    var G := SetAug(F, c, AugOf(F, c));
    hide Recompute;
    forall m | m in G && m !in E + One(p) ensures G[m].augmented == AugOf(G, m) {
      RecomputeSame(F, G, m.val, F[m].left, F[m].right);
    }
  }

  lemma AugmentedDone(F: Heap, E: set<Node>, c: Node)
    requires c in F && Augmented(F, E + {c}) && F[c].augmented == AugOf(F, c)
    ensures Augmented(F, E)
  {
  }

  /** The way from a node up to the root. */
  ghost function PathUp(F: Heap, root: Node?, n: Node?): seq<Node>
    requires Shape(F, root) && (n != null ==> n in F)
    decreases if n == null then {} else Outside(F, n), n != null
  {
    if n == null then [] else if F[n].parent == null then [n] else
      Climb(F, root, n);
      [n] + PathUp(F, root, F[n].parent)
  }

  lemma {:induction false} PathUpChain(F: Heap, root: Node?, n: Node?)
    requires Shape(F, root) && (n != null ==> n in F)
    ensures Chain(F, {}, PathUp(F, root, n), null)
    ensures if n == null then PathUp(F, root, n) == [] else PathUp(F, root, n) != [] && PathUp(F, root, n)[0] == n
    decreases if n == null then {} else Outside(F, n), n != null
  {
    if n == null {
    } else if F[n].parent == null {
      OnlyParent(F, root, n);
      ChainOne(F, {}, n, null);
    } else {
      OnlyParent(F, root, n);
      Climb(F, root, n);
      PathUpChain(F, root, F[n].parent);
      ChainCons(F, {}, n, PathUp(F, root, F[n].parent), null);
    }
  }

  lemma OnlyParent(F: Heap, root: Node?, n: Node)
    requires Shape(F, root) && n in F
    ensures Hangs(F, {}, n, F[n].parent)
  {
    assert Linked(F, root, n);
    forall m | m in F && (F[m].left == n || F[m].right == n) ensures m == F[n].parent {
      assert Linked(F, root, m);
    }
  }

  lemma ChainOne(F: Heap, E: set<Node>, n: Node, stop: Node?)
    requires Hangs(F, E, n, stop)
    ensures Chain(F, E, [n], stop)
  {
  }

  lemma ChainCons(F: Heap, E: set<Node>, n: Node, rest: seq<Node>, stop: Node?)
    requires Chain(F, E, rest, stop) && rest != [] && Hangs(F, E, n, rest[0])
    ensures Chain(F, E, [n] + rest, stop)
  {
    var path := [n] + rest;
    forall i | 0 <= i < |path| ensures Hangs(F, E, path[i], NextOn(path, i, stop)) {
      if i > 0 {
        assert path[i] == rest[i - 1] && NextOn(path, i, stop) == NextOn(rest, i - 1, stop);
        assert Hangs(F, E, rest[i - 1], NextOn(rest, i - 1, stop));
      }
      hide Hangs;
    }
  }
}
