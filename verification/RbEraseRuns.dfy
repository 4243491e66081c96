/** What the assignments of __rb_erase_augmented do, one block at a time. */
module RbEraseRuns {
  import opened RbHeap
  import opened RbRotate
  import opened RbOrder
  import opened RbInsert
  import opened RbLink
  import opened RbErase
  import opened RbErased
  import opened RbSplice
  import opened RbSnapshot
  import opened RbInsertSteps
  import opened RbClient
  import RbRepair

  // ----- erasing

  /** The children of the nodes on a path belong to the tree. */
  ghost predicate ChildrenIn(F: Heap, path: seq<Node>) {
    forall i :: 0 <= i < |path| ==>
      && path[i] in F && (F[path[i]].left == null || F[path[i]].left in F)
      && (F[path[i]].right == null || F[path[i]].right in F)
  }

  lemma ChildrenInAt(F: Heap, path: seq<Node>, i: nat)
    requires ChildrenIn(F, path) && i < |path|
    ensures
      && path[i] in F && (F[path[i]].left == null || F[path[i]].left in F)
      && (F[path[i]].right == null || F[path[i]].right in F)
  {
  }

  lemma HangsIs(F: Heap, E: set<Node>, c: Node, p: Node?)
    requires Hangs(F, E, c, p)
    ensures c in F && F[c].left != c && F[c].right != c && F[c].parent == p
  {
  }

  lemma AugOfIs(F: Heap, n: Node)
    requires n in F
    ensures AugOf(F, n) == Recompute(F, n.val, F[n].left, F[n].right)
  {
  }

  lemma OneIs(E: set<Node>, n: Node?)
    ensures E + One(n) == if n == null then E else E + {n}
    ensures n in E ==> E + One(n) == E
  {
  }

  lemma SnapUnlink(F: Heap, S: set<Node>, n: Node)
    requires F.Keys == S && n in S
    requires var p, c := F[n].parent, F[n].right;
      && p != n && c != n && (p == null || p != c)
      && (p != null ==> p in S && p.Get() == ChildSet(F[p], n, c) && (F[p].left == n) != (F[p].right == n))
      && (c != null ==> c in S && c.Get() == F[c].(parent := p, red := F[n].red, lo := F[n].lo, bh := F[n].bh))
      && forall m :: m in S && m != n && m != p && m != c ==> m.Get() == F[m]
    ensures Snap(S - {n}) == Unlink(F, n)
  {
    forall m | m in S - {n} ensures m.Get() == UnlinkedAt(F, n, m) {}
  }

  lemma SnapUnlinkLeft(F: Heap, S: set<Node>, n: Node)
    requires F.Keys == S && n in S
    requires var p, c := F[n].parent, F[n].left;
      && p != n && c != n && (p == null || p != c)
      && (p != null ==> p in S && p.Get() == ChildSet(F[p], n, c) && (F[p].left == n) != (F[p].right == n))
      && (c != null ==> c in S && c.Get() == F[c].(parent := p, red := F[n].red, hi := F[n].hi, bh := F[n].bh))
      && forall m :: m in S && m != n && m != p && m != c ==> m.Get() == F[m]
    ensures Snap(S - {n}) == UnlinkLeft(F, n)
  {
    forall m | m in S - {n} ensures m.Get() == UnlinkedLeftAt(F, n, m) {}
  }

  /** The neighbours of a node. */
  lemma Neighbours(F: Heap, root: Node?, n: Node)
    requires Shape(F, root) && n in F
    ensures var p, l, r := F[n].parent, F[n].left, F[n].right;
      && (p == null <==> root == n)
      && (p != null ==> p in F && p != n && p != l && p != r && (F[p].left == n) != (F[p].right == n))
      && (l != null ==> l in F && l != n && l != r && F[l].parent == n)
      && (r != null ==> r in F && r != n && F[r].parent == n)
  {
    assert Linked(F, root, n) && root in F;
    var p, l, r := F[n].parent, F[n].left, F[n].right;
    if p != null { assert Linked(F, root, p); }
    if l != null { assert Linked(F, root, l); }
    if r != null { assert Linked(F, root, r); }
  }

  lemma SnapMid(F: Heap, S: set<Node>, n: Node, s: Node)
    requires F.Keys == S && n in S && s in S && F[s].parent in F
    requires var p, c := F[s].parent, F[n].right;
      && s.Get() == F[s].(right := if p == n then F[s].right else c, augmented := F[n].augmented)
      && (p != n ==>
            && p != s && c in S && c != s
            && p.Get() == (if p == c then F[p].(left := F[s].right, parent := s) else F[p].(left := F[s].right)))
      && (p != n && p != c ==> c.Get() == F[c].(parent := s))
      && forall m :: m in S && m != s && (p == n || (m != p && m != c)) ==> m.Get() == F[m]
    ensures Snap(S) == Mid(F, n, s)
  {
    forall m | m in S ensures m.Get() == MidAt(F, n, s, m) {}
  }

  lemma SnapFinal(M: Heap, S: set<Node>, n: Node, s: Node, q: Node, c2: Node?)
    requires M.Keys == S && n in S && s in S && n != s
    requires var l, p := M[n].left, M[n].parent;
      && s.Get() ==
           M[s].(left := l, parent := p, red := M[n].red, pos := M[n].pos, lo := M[n].lo, hi := M[n].hi,
             bh := M[n].bh)
      && l in S && l != s && l != n && l.Get() == M[l].(parent := s)
      && (c2 != null ==>
            && c2 in S && c2 != s && c2 != l && c2 != p
            && c2.Get() == M[c2].(parent := q, red := false, lo := M[s].lo, bh := 1))
      && (p != null ==>
            && p in S && p != s && p != n && p != l && p.Get() == ChildSet(M[p], n, s)
            && (M[p].left == n) != (M[p].right == n))
      && forall m :: m in S && m != s && m != n && m != l && m != c2 && m != p ==> m.Get() == M[m]
    ensures Snap(S - {n}) == Final(M, n, s, q, c2)
  {
    forall m | m in S - {n} ensures m.Get() == FinalAt(M, n, s, q, c2, m) {}
  }

  /** Once the augmented values are right again, what was left to repair still is. */
  lemma Propagated(G: Heap, H: Heap, root: Node?, p: Node?, left: bool)
    requires Shape(G, root) && !Red(G, root) && Coloured(G, null) && SameButAugmented(G, H) && Augmented(H, {})
    ensures Balanced(G) ==> RbTree(H, root)
    ensures p != null && ShortTree(G, root, p, left) ==> ShortRb(H, root, p, left)
  {
    hide *;
    SameButAugmentedShape(G, H, root);
    SameButAugmentedColours(G, H, null);
    SameButAugmentedRed(G, H, root);
    OpenBalanced(H);
    if Balanced(G) { MakeRbTree(H, root); }
    if p != null && ShortTree(G, root, p, left) {
      OpenShortTree(G, root, p, left);
      SameButAugmentedKeys(G, H);
      forall n | n in H ensures (n != p ==> BhOk(H, n)) && RedOk(H, n, null) {
        SameButAugmentedNode(G, H, n);
      }
      SameButAugmentedNode(G, H, p);
      RbRepair.MakeShortRb(H, root, p, left);
    }
  }

  lemma SameButAugmentedRed(F: Heap, G: Heap, n: Node?)
    requires SameButAugmented(F, G)
    ensures Red(G, n) == Red(F, n)
  {
  }

  lemma SameButAugmentedNode(F: Heap, G: Heap, n: Node)
    requires SameButAugmented(F, G) && n in F
    ensures n in G
    ensures BhOk(F, n) ==> BhOk(G, n)
    ensures RedOk(F, n, null) ==> RedOk(G, n, null)
    ensures Short(F, n, true) ==> Short(G, n, true)
    ensures Short(F, n, false) ==> Short(G, n, false)
  {
    if F[n].left in F { assert G[F[n].left] == F[F[n].left].(augmented := G[F[n].left].augmented); }
    if F[n].right in F { assert G[F[n].right] == F[F[n].right].(augmented := G[F[n].right].augmented); }
    assert G[n] == F[n].(augmented := G[n].augmented);
    hide SameButAugmented;
  }

  /** Without a child to move up, the link to the unlinked node becomes null. */
  lemma UnlinkSide(F: Heap, root: Node?, s: Node)
    requires Shape(F, root) && s in F && F[s].left == null && F[s].right == null && F[s].parent != null
    ensures F[s].parent in F && F[s].parent != s && F[s].parent in Unlink(F, s)
    ensures
      var g, p := Unlink(F, s)[F[s].parent], F[s].parent; if F[p].left == s then g.left == null else g.right == null
  {
    Neighbours(F, root, s);
    UnlinkAt(F, s, F[s].parent);
    hide Shape, Unlink;
  }

  lemma RenameSide(U: Heap, n: Node, s: Node, p: Node, left: bool)
    requires n in U && s !in U && p in U && (if left then U[p].left == null else U[p].right == null)
    ensures Swapped(p, n, s) in Rename(U, n, s)
    ensures var g := Rename(U, n, s)[Swapped(p, n, s)]; if left then g.left == null else g.right == null
  {
    RenameAt(U, n, s, p);
    hide Rename;
  }

  lemma MakeVacated(F: Heap, G: Heap, H: Heap, n: Node, s: Node?)
    requires n in F && G.Keys == F.Keys - {n} && SameButAugmented(G, H)
    requires forall m :: m in G && m != s ==> G[m].pos == F[m].pos
    requires s != null ==> s in G && IsNext(F, n, s) && G[s].pos == F[n].pos
    ensures Vacated(F, H, n, s)
  {
  }

  lemma PathChildren(F: Heap, root: Node?, path: seq<Node>, stop: Node?)
    requires Shape(F, root) && Chain(F, {}, path, stop)
    ensures ChildrenIn(F, path)
  {
    forall i | 0 <= i < |path|
      ensures
        && path[i] in F && (F[path[i]].left == null || F[path[i]].left in F)
        && (F[path[i]].right == null || F[path[i]].right in F)
    {
      ChainAt(F, {}, path, stop, i);
      assert Linked(F, root, path[i]);
    }
  }

  lemma OneParent(p: Node?)
    ensures One(p) == if p == null then {} else {p}
  {
  }

  lemma OneNode(E: set<Node>, p: Node)
    ensures E + {p} == E + One(p)
  {
  }

  lemma MakeSuccessor(F: Heap, n: Node, s: Node)
    requires
      && n in F && s in F && s != n && F[s].left == null && F[n].left != null && F[n].right == s
      && F[s].lo == F[n].pos && F[s].parent == n
    ensures Successor(F, n, s)
  {
  }

  lemma MidChildren(F: Heap, root: Node?, n: Node, s: Node, path: seq<Node>)
    requires Shape(F, root) && Successor(F, n, s) && s !in path && (forall i :: 0 <= i < |path| ==> path[i] in F)
    ensures n in F && s in F && ChildrenIn(Mid(F, n, s), path)
  {
    OpenSuccessor(F, n, s);
    SuccessorFacts(F, root, n, s);
    var M := Mid(F, n, s);
    hide Successor, Mid;
    forall i | 0 <= i < |path|
      ensures
        && path[i] in M && (M[path[i]].left == null || M[path[i]].left in M)
        && (M[path[i]].right == null || M[path[i]].right in M)
    {
      assert path[i] in path;
      assert Linked(F, root, path[i]);
      MidOther(F, n, s, path[i]);
    }
  }

  lemma SpineIn(F: Heap, n: Node, c: Node, path: seq<Node>)
    requires Spine(F, n, c, path)
    ensures n in F && c in F && forall i :: 0 <= i < |path| ==> path[i] in F
  {
  }

  lemma MidTop(F: Heap, n: Node, s: Node)
    requires n in F && s in F && n != s
    ensures
      && Mid(F, n, s).Keys == F.Keys && Mid(F, n, s)[s].augmented == F[n].augmented
      && Mid(F, n, s)[n].augmented == F[n].augmented
    ensures Mid(F, n, s)[s].red == F[s].red
  {
  }

  /** Everything the end of the erase needs to know once the successor has taken over the place. */
  lemma FullTree(F: Heap, root: Node?, n: Node, s: Node, M: Heap)
    requires RbTree(F, root) && Successor(F, n, s) && SameButAugmented(Mid(F, n, s), M) && Augmented(M, {n, s})
    requires n in M && s in M && M[n].augmented == M[s].augmented
    ensures Unlink(F, s).Keys == F.Keys - {s} && F[s].parent in F
    ensures Swapped(F[s].parent, n, s) != null
    ensures var G, root', q, left :=
        Rename(Unlink(F, s), n, s), Swapped(root, n, s), Swapped(F[s].parent, n, s), F[F[s].parent].left == s;
      var H := Final(M, n, s, q, F[s].right);
      && SameButAugmented(G, H) && Shape(G, root') && Shape(H, root') && !Red(G, root')
      && Coloured(G, null) && Augmented(H, One(s))
      && Vacated(F, G, n, s) && q in G
      && (if F[s].right == null && !F[s].red then ShortTree(G, root', q, left) else Balanced(G))
      && (F[s].right == null ==> if left then G[q].left == null else G[q].right == null)
  {
    hide *;
    OpenRbTree(F, root);
    OpenSuccessor(F, n, s);
    SuccessorFacts(F, root, n, s);
    SuccessorBelow(F, root, n, s);
    SwappedCases(F[s].parent, n, s);
    EraseTwo(F, root, n, s);
    Match(F, root, n, s, M);
    FinalAugmented(F, root, n, s, M);
    var U, p := Unlink(F, s), F[s].parent;
    var G, root', q, left := Rename(U, n, s), Swapped(root, n, s), Swapped(p, n, s), F[p].left == s;
    SameButAugmentedShape(G, Final(M, n, s, q, F[s].right), root');
    OneParent(s);
    SameButAugmentedSelf(G);
    MakeVacated(F, G, G, n, s);
    if F[s].right == null {
      UnlinkSide(F, root, s);
      RenameSide(U, n, s, p, left);
    }
  }

  /** What the second half finds around n. */
  lemma MidAround(F: Heap, root: Node?, n: Node, s: Node, M: Heap)
    requires RbTree(F, root) && Successor(F, n, s) && SameButAugmented(Mid(F, n, s), M)
    ensures n in M && s in M && n != s && M.Keys == F.Keys && M[s].red == F[s].red
    ensures M[n].left == F[n].left && M[n].parent == F[n].parent && (M[n].parent == null <==> root == n)
    ensures var l, p, c2 := F[n].left, F[n].parent, F[s].right;
      && l != null && l in M && l != s && l != n && l != p
      && (c2 != null ==> c2 in M && c2 != s && c2 != l && c2 != p && c2 != n)
      && (p != null ==> p in M && p != s && p != n && (M[p].left == n) != (M[p].right == n))
  {
    hide *;
    OpenRbTree(F, root);
    OpenSuccessor(F, n, s);
    SuccessorFacts(F, root, n, s);
    MidIs(F, n, s, n);
    MidOther(F, n, s, n);
    MidTop(F, n, s);
    SameButAugmentedKeys(Mid(F, n, s), M);
    SameButAugmentedLinks(Mid(F, n, s), M, n);
    SameButAugmentedReds(Mid(F, n, s), M, s);
    var u := F[n].parent;
    if u != null {
      MidOther(F, n, s, u);
      SameButAugmentedLinks(Mid(F, n, s), M, u);
    }
  }

  lemma SameButAugmentedReds(F: Heap, G: Heap, m: Node)
    requires SameButAugmented(F, G) && m in F
    ensures m in G && G[m].red == F[m].red
  {
  }

  lemma VacatedThrough(F: Heap, G: Heap, H: Heap, n: Node, s: Node?)
    requires Vacated(F, G, n, s) && SameButAugmented(G, H)
    ensures Vacated(F, H, n, s)
  {
  }

  lemma VacatedIn(F: Heap, G: Heap, n: Node, s: Node)
    requires Vacated(F, G, n, s)
    ensures s in G && n in F
  {
  }

  /** After the erase the tree is good again and has lost exactly n. */
  lemma EraseDone(F: Heap, root: Node?, leftmost: Node?, n: Node, s: Node?, r: Node?, H: Heap, G: Heap, root': Node?)
    requires Good(F, root, leftmost) && n in F && Vacated(F, H, n, s) && SamePlaces(H, G) && RbTree(G, root')
    requires leftmost == n ==> IsNext(F, n, r)
    ensures Good(G, root', if leftmost == n then r else leftmost)
    ensures Shape(F, root) && Shape(G, root') && (root != null ==> root in F) && (root' != null ==> root' in G)
    ensures ErasedFrom(Traverse(F, root, root), Traverse(G, root', root'), n)
  {
    hide *;
    OpenGood(F, root, leftmost);
    OpenRbTree(G, root');
    VacatedSame(F, H, G, n, s);
    FirstExists(F, n, leftmost);
    EraseKeys(F, G, root, n, s);
    EraseFirst(F, G, root, n, s, leftmost, r);
    EraseOrder(F, root, G, root', n, s);
    MakeGood(G, root', if leftmost == n then r else leftmost);
  }

  lemma VacatedSame(F: Heap, H: Heap, G: Heap, n: Node, s: Node?)
    requires Vacated(F, H, n, s) && SamePlaces(H, G)
    ensures Vacated(F, G, n, s)
  {
  }

  lemma FirstExists(F: Heap, n: Node, l: Node?)
    requires n in F && IsFirst(F, l)
    ensures l != null
  {
  }
}
