/** The two halves of erasing a node with two children, on values. */
module RbSplice {
  import opened RbHeap
  import opened RbOrder
  import opened RbRotate
  import opened RbInsert
  import opened RbErase
  import opened RbErased

  /** s is the successor of n, found below its right child. */
  ghost predicate Successor(F: Heap, n: Node, s: Node) {
    && n in F && s in F && s != n && F[s].left == null && F[n].left != null && F[n].right != null && F[s].lo == F[n].pos
    && F[s].parent != null && (F[s].parent == n <==> F[n].right == s)
  }

  ghost function MidAt(F: Heap, n: Node, s: Node, m: Node): Fields
    requires n in F && s in F && m in F
  {
    var f, p, c := F[m], F[s].parent, F[n].right;
    if m == s then f.(right := if p == n then f.right else c, augmented := F[n].augmented)
    else if p == n then f
    else
      var g := if m == p then f.(left := F[s].right) else f;
      if m == c then g.(parent := s) else g
  }

  /** The successor is taken out of its old place and has adopted the right child of n. */
  ghost function Mid(F: Heap, n: Node, s: Node): Heap
    requires n in F && s in F
  {
    map m | m in F :: MidAt(F, n, s, m)
  }

  ghost function FinalAt(M: Heap, n: Node, s: Node, q: Node, c2: Node?, m: Node): Fields
    requires n in M && s in M && m in M
  {
    var f, p, l := M[m], M[n].parent, M[n].left;
    if m == s then
      f.(left := l, parent := p, red := M[n].red, pos := M[n].pos, lo := M[n].lo, hi := M[n].hi, bh := M[n].bh)
    else if m == l then f.(parent := s)
    else if m == c2 then f.(parent := q, red := false, lo := M[s].lo, bh := 1)
    else if m == p then f.(left := Swapped(f.left, n, s), right := Swapped(f.right, n, s))
    else f
  }

  /** The successor has taken over the place of n. */
  ghost function Final(M: Heap, n: Node, s: Node, q: Node, c2: Node?): Heap
    requires n in M && s in M
  {
    map m | m in M.Keys - {n} :: FinalAt(M, n, s, q, c2, m)
  }

  lemma MidIs(F: Heap, n: Node, s: Node, m: Node)
    requires n in F && s in F && m in F
    ensures Mid(F, n, s).Keys == F.Keys && Mid(F, n, s)[m] == MidAt(F, n, s, m)
  {
  }

  lemma FinalIs(M: Heap, n: Node, s: Node, q: Node, c2: Node?, m: Node)
    requires n in M && s in M && m in M && m != n
    ensures Final(M, n, s, q, c2).Keys == M.Keys - {n} && Final(M, n, s, q, c2)[m] == FinalAt(M, n, s, q, c2, m)
  {
  }

  /** The nodes around n and s and how they hang together. */
  lemma SuccessorFacts(F: Heap, root: Node?, n: Node, s: Node)
    requires Shape(F, root) && Successor(F, n, s)
    ensures var p, c, c2, l, u := F[s].parent, F[n].right, F[s].right, F[n].left, F[n].parent;
      && p in F && c in F && l in F && F[c].parent == n && F[l].parent == n
      && l != s && l != n && l != p && l != c && c != n && p != s && l != c2
      && (c2 != null ==> c2 in F && c2 != s && c2 != n && c2 != p && c2 != c && c2 != u && F[c2].parent == s)
      && (u != null ==>
            u in F && u != n && u != s && u != p && u != c && u != l && (F[u].left == n) == (F[u].right != n))
      && (p != n ==> F[p].left == s && F[p].right != s && c != s)
      && (u == null <==> root == n) && root != s
  {
    var p, c, c2, l, u := F[s].parent, F[n].right, F[s].right, F[n].left, F[n].parent;
    assert Linked(F, root, n) && Linked(F, root, s) && root in F;
    assert Linked(F, root, p) && Linked(F, root, c) && Linked(F, root, l);
    if c2 != null { assert Linked(F, root, c2); }
    if u != null { assert Linked(F, root, u); }
    SuccessorBelow(F, root, n, s);
    hide Shape;
  }

  lemma SuccessorBelow(F: Heap, root: Node?, n: Node, s: Node)
    requires Shape(F, root) && Successor(F, n, s)
    ensures F[n].pos < F[s].pos && IsNext(F, n, s)
    ensures F[s].parent in F && F[n].pos <= F[F[s].parent].pos
    ensures
      F[s].parent != n ==> F[F[s].parent].left == s && F[n].pos < F[F[s].parent].pos && F[F[s].parent].lo == F[n].pos
    ensures F[n].parent != null ==> F[n].parent in F && !(F[n].lo < F[F[n].parent].pos < F[n].hi)
  {
    LeftmostNext(F, root, n, s);
    var p := F[s].parent;
    assert Linked(F, root, s) && Linked(F, root, p) && Linked(F, root, n);
    if p != n { PlacesDiffer(F, root, n, p); }
    if F[n].parent != null { ParentWider(F, root, n); }
  }

  // ----- the two halves amount to unlinking the successor and renaming

  lemma MatchAt(F: Heap, root: Node?, n: Node, s: Node, m: Node)
    requires RbTree(F, root) && Successor(F, n, s) && m in F && m != n
    ensures Unlink(F, s).Keys == F.Keys - {s} && Mid(F, n, s).Keys == F.Keys
    ensures Swapped(F[s].parent, n, s) != null
    ensures var x := FinalAt(Mid(F, n, s), n, s, Swapped(F[s].parent, n, s), F[s].right, m);
      x == Renamed(Unlink(F, s)[Origin(n, s, m)], n, s).(augmented := x.augmented)
  {
    OpenRbTree(F, root);
    SuccessorFacts(F, root, n, s);
    OnlyChildRed(F, root, s);
    LinksOf(F, root, n, s, m);
    UnlinkAt(F, s, n);
    MidIs(F, n, s, n);
    MidIs(F, n, s, s);
    MidIs(F, n, s, m);
    if m != s { UnlinkAt(F, s, m); }
    hide RbTree, Successor, Unlink, Mid;
  }

  /** Who links to n and s. */
  lemma LinksOf(F: Heap, root: Node?, n: Node, s: Node, m: Node)
    requires Shape(F, root) && Successor(F, n, s) && m in F
    ensures (F[m].left == n || F[m].right == n) ==> m == F[n].parent
    ensures (F[m].left == s || F[m].right == s) ==> m == F[s].parent
    ensures F[m].parent == n ==> m == F[n].left || m == F[n].right
    ensures F[m].parent == s ==> m == F[s].right
  {
    assert Linked(F, root, m) && Linked(F, root, n) && Linked(F, root, s);
  }

  lemma SameButAugmentedFinal(F: Heap, M: Heap, n: Node, s: Node, q: Node, c2: Node?, m: Node)
    requires SameButAugmented(F, M) && n in F && s in F && m in F && m != n
    ensures n in M && s in M && m in M
    ensures var x, y := FinalAt(F, n, s, q, c2, m), FinalAt(M, n, s, q, c2, m); y == x.(augmented := y.augmented)
  {
    assert
      && M[n] == F[n].(augmented := M[n].augmented) && M[s] == F[s].(augmented := M[s].augmented)
      && M[m] == F[m].(augmented := M[m].augmented);
    hide SameButAugmented;
  }

  /** Whatever the propagation in between does, the result differs from the renamed tree in augmented values only. */
  lemma Match(F: Heap, root: Node?, n: Node, s: Node, M: Heap)
    requires RbTree(F, root) && Successor(F, n, s) && SameButAugmented(Mid(F, n, s), M)
    ensures Unlink(F, s).Keys == F.Keys - {s} && n in M && s in M
    ensures Swapped(F[s].parent, n, s) != null
    ensures SameButAugmented(Rename(Unlink(F, s), n, s), Final(M, n, s, Swapped(F[s].parent, n, s), F[s].right))
  {
    hide *;
    OpenRbTree(F, root);
    OpenSuccessor(F, n, s);
    MatchAt(F, root, n, s, s);
    var q, c2, U := Swapped(F[s].parent, n, s), F[s].right, Unlink(F, s);
    SameButAugmentedFinal(Mid(F, n, s), M, n, s, q, c2, s);
    var G, H := Rename(U, n, s), Final(M, n, s, q, c2);
    FinalIs(M, n, s, q, c2, s);
    SameButAugmentedKeys(Mid(F, n, s), M);
    RenameAt(U, n, s, n);
    forall m | m in G ensures m in H && H[m] == G[m].(augmented := H[m].augmented) {
      MatchAt(F, root, n, s, m);
      SameButAugmentedFinal(Mid(F, n, s), M, n, s, q, c2, m);
      FinalIs(M, n, s, q, c2, m);
      RenameOrigin(U, n, s, m);
    }
    MakeSameButAugmented(G, H);
  }

  lemma OpenSuccessor(F: Heap, n: Node, s: Node)
    requires Successor(F, n, s)
    ensures
      && n in F && s in F && s != n && F[s].left == null && F[n].left != null && F[n].right != null
      && F[s].lo == F[n].pos && F[s].parent != null
    ensures F[s].parent == n <==> F[n].right == s
  {
  }

  lemma RenameOrigin(U: Heap, n: Node, s: Node, m: Node)
    requires n in U && s !in U && m in Rename(U, n, s)
    ensures Origin(n, s, m) in U && Rename(U, n, s)[m] == Renamed(U[Origin(n, s, m)], n, s)
    ensures Rename(U, n, s).Keys == U.Keys - {n} + {s}
  {
  }

  lemma SameButAugmentedKeys(F: Heap, G: Heap)
    requires SameButAugmented(F, G)
    ensures F.Keys == G.Keys
  {
  }

  lemma MakeSameButAugmented(F: Heap, G: Heap)
    requires F.Keys == G.Keys && forall n :: n in F ==> n in G && G[n] == F[n].(augmented := G[n].augmented)
    ensures SameButAugmented(F, G)
  {
  }

  // ----- augmented values through the two halves

  lemma MidAugmentedAt(F: Heap, root: Node?, n: Node, s: Node, m: Node)
    requires RbTree(F, root) && Successor(F, n, s) && m in F && m != n && m != s && m != F[s].parent
    ensures Mid(F, n, s).Keys == F.Keys && Mid(F, n, s)[m].augmented == AugOf(Mid(F, n, s), m)
  {
    hide *;
    OpenRbTree(F, root);
    OpenSuccessor(F, n, s);
    AugmentedAt(F, {}, m);
    LinksOf(F, root, n, s, m);
    MidOther(F, n, s, m);
    RecomputeMid(F, n, s, m);
  }

  lemma MidOther(F: Heap, n: Node, s: Node, m: Node)
    requires n in F && s in F && m in F && m != s
    ensures
      && Mid(F, n, s).Keys == F.Keys && Mid(F, n, s)[m].augmented == F[m].augmented
      && Mid(F, n, s)[m].right == F[m].right
    ensures m != F[s].parent || m == n ==> Mid(F, n, s)[m].left == F[m].left
    ensures m != F[n].right || F[s].parent == n ==> Mid(F, n, s)[m].parent == F[m].parent
    ensures F[s].parent != n && m == F[s].parent ==> Mid(F, n, s)[m].left == F[s].right
    ensures F[s].parent != n && m == F[n].right ==> Mid(F, n, s)[m].parent == s
    ensures m == n ==> Mid(F, n, s)[m].parent == F[m].parent || m == F[n].right
  {
  }

  lemma RecomputeMid(F: Heap, n: Node, s: Node, m: Node)
    requires
      && n in F && s in F && m in F && m != n && m != s && m != F[s].parent && F[m].left != s
      && F[m].right != s && F[m].augmented == AugOf(F, m)
    ensures Mid(F, n, s).Keys == F.Keys && Mid(F, n, s)[m].augmented == AugOf(Mid(F, n, s), m)
  {
    var M := Mid(F, n, s);
    MidOther(F, n, s, m);
    if F[m].left in F { MidOther(F, n, s, F[m].left); }
    if F[m].right in F { MidOther(F, n, s, F[m].right); }
    hide Mid;
    RecomputeSame(F, M, m.val, F[m].left, F[m].right);
  }

  lemma MidAugmented(F: Heap, root: Node?, n: Node, s: Node)
    requires RbTree(F, root) && Successor(F, n, s)
    ensures F[s].parent in F
    ensures Augmented(Mid(F, n, s), {n, s} + {F[s].parent})
  {
    hide *;
    OpenRbTree(F, root);
    OpenSuccessor(F, n, s);
    SuccessorFacts(F, root, n, s);
    MidIs(F, n, s, n);
    var M, p := Mid(F, n, s), F[s].parent;
    forall m | m in M && m !in {n, s} + {p} ensures M[m].augmented == AugOf(M, m) {
      MidAugmentedAt(F, root, n, s, m);
    }
    MakeAugmented(M, {n, s} + {p});
  }

  lemma FinalAugmentedAt(M: Heap, n: Node, s: Node, q: Node, c2: Node?, m: Node)
    requires
      && n in M && s in M && n != s && m in M && m != n && m != s && M[m].augmented == AugOf(M, m)
      && M[n].augmented == M[s].augmented
    requires (M[m].left == n || M[m].right == n) ==> m == M[n].parent
    requires M[m].left != s && M[m].right != s
    requires M[n].left != M[n].parent && (c2 == null || c2 != M[n].parent)
    ensures m in Final(M, n, s, q, c2) && Final(M, n, s, q, c2)[m].augmented == AugOf(Final(M, n, s, q, c2), m)
  {
    var H := Final(M, n, s, q, c2);
    FinalIs(M, n, s, q, c2, m);
    FinalIs(M, n, s, q, c2, s);
    if M[m].left in M && M[m].left != n { FinalIs(M, n, s, q, c2, M[m].left); }
    if M[m].right in M && M[m].right != n { FinalIs(M, n, s, q, c2, M[m].right); }
    hide Final;
  }

  lemma MidLinks(F: Heap, root: Node?, n: Node, s: Node, m: Node)
    requires RbTree(F, root) && Successor(F, n, s) && m in F && m != n && m != s
    ensures m in Mid(F, n, s) && n in Mid(F, n, s) && F[s].parent in F
    ensures var M := Mid(F, n, s);
      && ((M[m].left == n || M[m].right == n) ==> m == M[n].parent) && M[m].left != s && M[m].right != s
      && M[n].left != M[n].parent && (F[s].right == null || F[s].right != M[n].parent)
  {
    hide *;
    OpenRbTree(F, root);
    OpenSuccessor(F, n, s);
    SuccessorFacts(F, root, n, s);
    LinksOf(F, root, n, s, m);
    MidOther(F, n, s, m);
    MidOther(F, n, s, n);
  }

  /** After the second half only the successor's own augmented value may be out of date. */
  lemma FinalAugmented(F: Heap, root: Node?, n: Node, s: Node, M: Heap)
    requires RbTree(F, root) && Successor(F, n, s) && SameButAugmented(Mid(F, n, s), M) && Augmented(M, {n, s})
    requires n in M && s in M && M[n].augmented == M[s].augmented
    ensures Swapped(F[s].parent, n, s) != null
    ensures Augmented(Final(M, n, s, Swapped(F[s].parent, n, s), F[s].right), {s})
  {
    hide *;
    OpenRbTree(F, root);
    OpenSuccessor(F, n, s);
    SuccessorFacts(F, root, n, s);
    SwappedCases(F[s].parent, n, s);
    var q, c2 := Swapped(F[s].parent, n, s), F[s].right;
    var H := Final(M, n, s, q, c2);
    FinalIs(M, n, s, q, c2, s);
    SameButAugmentedKeys(Mid(F, n, s), M);
    MidIs(F, n, s, n);
    SameButAugmentedLinks(Mid(F, n, s), M, n);
    forall m | m in H && m !in {s} ensures H[m].augmented == AugOf(H, m) {
      MidLinks(F, root, n, s, m);
      SameButAugmentedLinks(Mid(F, n, s), M, m);
      AugmentedAt(M, {n, s}, m);
      FinalAugmentedAt(M, n, s, q, c2, m);
    }
    MakeAugmented(H, {s});
  }

  lemma SameButAugmentedLinks(F: Heap, G: Heap, m: Node)
    requires SameButAugmented(F, G) && m in F
    ensures m in G && G[m].left == F[m].left && G[m].right == F[m].right && G[m].parent == F[m].parent
  {
  }

  // ----- the way from the old place of the successor up to the right child of n

  /** path runs from the parent of c up to the right child of n, always along left links. */
  ghost predicate Spine(F: Heap, n: Node, c: Node, path: seq<Node>) {
    && n in F && c in F && |path| > 0 && path[|path| - 1] == F[n].right
    && (forall i :: 0 <= i < |path| ==>
          path[i] in F && F[path[i]].left == BelowOn(path, i, c) && F[path[i]].lo == F[n].pos)
    && F[c].lo == F[n].pos
  }

  function BelowOn(path: seq<Node>, i: nat, c: Node): Node
    requires i < |path|
  {
    if i == 0 then c else path[i - 1]
  }

  lemma SpineDown(F: Heap, root: Node?, n: Node, c: Node, path: seq<Node>)
    requires Shape(F, root) && Spine(F, n, c, path) && F[c].left != null
    ensures F[c].left in F && Spine(F, n, F[c].left, [c] + path)
  {
    assert Linked(F, root, c);
    var r, d := [c] + path, F[c].left;
    forall i | 0 <= i < |r| ensures r[i] in F && F[r[i]].left == BelowOn(r, i, d) && F[r[i]].lo == F[n].pos {
      if i > 0 { assert r[i] == path[i - 1] && F[path[i - 1]].left == BelowOn(path, i - 1, c); }
    }
  }

  lemma SpineStart(F: Heap, root: Node?, n: Node, r: Node)
    requires Shape(F, root) && n in F && F[n].right == r && r in F && F[r].left != null
    ensures F[r].left in F && Spine(F, n, F[r].left, [r])
  {
  }

  /** The end of the spine is the successor. */
  lemma SpineEnd(F: Heap, root: Node?, n: Node, s: Node, path: seq<Node>)
    requires Shape(F, root) && Spine(F, n, s, path) && F[s].left == null && F[n].left != null
    ensures Successor(F, n, s) && F[s].parent == path[0] && path[0] != n && n !in path && s !in path
  {
    assert Linked(F, root, n) && Linked(F, root, s);
    assert BelowOn(path, 0, s) == s;
    assert Linked(F, root, path[0]);
    SpineAway(F, root, n, s, path);
    assert path[0] in path;
    assert path[|path| - 1] in path;
  }

  /** The spine meets neither n nor s. */
  lemma SpineAway(F: Heap, root: Node?, n: Node, s: Node, path: seq<Node>)
    requires Shape(F, root) && Spine(F, n, s, path) && F[s].left == null
    ensures n !in path && s !in path
  {
    assert Linked(F, root, n);
    assert forall i :: 0 <= i < |path| ==> path[i] != n && path[i] != s;
  }

  /** Where the nodes of the spine hang before and after the first half. */
  lemma SpineHangs(F: Heap, root: Node?, n: Node, s: Node, path: seq<Node>, i: nat)
    requires
      && Shape(F, root) && Spine(F, n, s, path) && Successor(F, n, s) && F[s].parent == path[0]
      && path[0] != n && n !in path && s !in path && i < |path|
    ensures F[path[i]].parent == if i + 1 < |path| then path[i + 1] else n
  {
    assert Linked(F, root, n) && Linked(F, root, path[i]);
    if i + 1 < |path| {
      assert F[path[i + 1]].left == BelowOn(path, i + 1, s) == path[i];
      assert Linked(F, root, path[i + 1]);
    }
  }

  lemma SpineUnique(F: Heap, root: Node?, n: Node, s: Node, path: seq<Node>, i: nat)
    requires
      && Shape(F, root) && Spine(F, n, s, path) && Successor(F, n, s) && F[s].parent == path[0]
      && path[0] != n && n !in path && s !in path && i < |path|
    requires path[i] == F[n].right
    ensures i + 1 == |path|
  {
    SpineHangs(F, root, n, s, path, i);
    assert Linked(F, root, n);
  }

  lemma SpineFacts(F: Heap, root: Node?, n: Node, s: Node, path: seq<Node>, i: nat)
    requires
      && Shape(F, root) && Spine(F, n, s, path) && Successor(F, n, s) && F[s].parent == path[0]
      && path[0] != n && n !in path && s !in path && i < |path|
    ensures path[i] in F && path[i] != n && path[i] != s && F[s].right != path[i]
    ensures path[i] == F[n].right <==> i + 1 == |path|
  {
    assert path[i] in path;
    SpineHangs(F, root, n, s, path, i);
    assert Linked(F, root, n) && Linked(F, root, s);
    if path[i] == F[n].right { SpineUnique(F, root, n, s, path, i); }
  }

  /** A node that is neither n nor s hangs after the first half as before, the right child of n from s. */
  lemma MidHangsAt(F: Heap, n: Node, s: Node, c: Node, p: Node)
    requires n in F && s in F && c != n && c != s && F[s].right != c && F[s].parent != n && n != s
    requires Hangs(F, {}, c, p)
    ensures Hangs(Mid(F, n, s), {n, s}, c, if c == F[n].right then s else p)
  {
    MidOther(F, n, s, c);
    var M := Mid(F, n, s);
    forall m | m in M && (M[m].left == c || M[m].right == c) && m !in {n, s} ensures m == p && p != n {
      MidOther(F, n, s, m);
    }
    hide Mid;
  }

  lemma MidHangs(F: Heap, root: Node?, n: Node, s: Node, path: seq<Node>, i: nat)
    requires
      && Shape(F, root) && Spine(F, n, s, path) && Successor(F, n, s) && F[s].parent == path[0]
      && path[0] != n && n !in path && s !in path && i < |path|
    ensures n in F && s in F
    ensures Hangs(Mid(F, n, s), {n, s}, path[i], NextOn(path, i, s))
  {
    hide *;
    OpenSuccessor(F, n, s);
    SpineFacts(F, root, n, s, path, i);
    SpineHangs(F, root, n, s, path, i);
    OnlyParent(F, root, path[i]);
    NextOnIs(path, i, s);
    NextOnIs(path, i, n);
    MidHangsAt(F, n, s, path[i], NextOn(path, i, n));
  }

  lemma NextOnIs(path: seq<Node>, i: nat, s: Node)
    ensures NextOn(path, i, s) == if i + 1 < |path| then path[i + 1] else s
  {
  }

  lemma MidChain(F: Heap, root: Node?, n: Node, s: Node, path: seq<Node>)
    requires
      && Shape(F, root) && Spine(F, n, s, path) && Successor(F, n, s) && F[s].parent == path[0]
      && path[0] != n && n !in path && s !in path
    ensures n in F && s in F
    ensures Chain(Mid(F, n, s), {n, s}, path, s)
  {
    OpenSuccessor(F, n, s);
    var M := Mid(F, n, s);
    hide Hangs, Mid, Successor, Spine, Shape, NextOn;
    forall i | 0 <= i < |path| ensures Hangs(M, {n, s}, path[i], NextOn(path, i, s)) {
      MidHangs(F, root, n, s, path, i);
    }
  }
}
