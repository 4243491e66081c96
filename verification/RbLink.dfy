/** Linking a new red leaf into an empty slot, on values. */
module RbLink {
  import opened RbHeap
  import opened RbOrder
  import opened RbInsert

  /** The empty slot to the left or right of p (or the empty tree) and the interval it covers. */
  ghost predicate Slot(F: Heap, root: Node?, p: Node?, goLeft: bool, lo: real, hi: real) {
    if p == null then
      root == null && lo == 0.0 && hi == 1.0
    else
      && p in F
      && (if goLeft then F[p].left == null && lo == F[p].lo && hi == F[p].pos
                    else F[p].right == null && lo == F[p].pos && hi == F[p].hi)
  }

  ghost function LinkedAt(F: Heap, n: Node, p: Node?, goLeft: bool, lo: real, hi: real, m: Node): Fields
    requires m in F || m == n
  {
    if m == n then Fields(null, null, p, true, n.val, (lo + hi) / 2.0, lo, hi, 0)
    else if m == p then (if goLeft then F[m].(left := n) else F[m].(right := n))
    else F[m]
  }

  /** rb_link_node */
  ghost function Link(F: Heap, n: Node, p: Node?, goLeft: bool, lo: real, hi: real): Heap {
    map m | m in F.Keys + {n} :: LinkedAt(F, n, p, goLeft, lo, hi, m)
  }

  /** Every augmented value is right, except that the one at p already counts the value to be inserted below it. */
  ghost predicate Raised(F: Heap, p: Node?, val: int) {
    Augmented(F, if p == null then {} else {p}) && (p in F ==> F[p].augmented == Max(AugOf(F, p), val))
  }

  lemma LinkAt(F: Heap, n: Node, p: Node?, goLeft: bool, lo: real, hi: real, m: Node)
    requires m in F || m == n
    ensures Link(F, n, p, goLeft, lo, hi).Keys == F.Keys + {n}
    ensures Link(F, n, p, goLeft, lo, hi)[m] == LinkedAt(F, n, p, goLeft, lo, hi, m)
  {
  }

  lemma LinkLeftOk(F: Heap, root: Node?, n: Node, p: Node?, goLeft: bool, lo: real, hi: real, m: Node)
    requires Shape(F, root) && n !in F && Slot(F, root, p, goLeft, lo, hi) && (m in F || m == n)
    ensures m in Link(F, n, p, goLeft, lo, hi)
    ensures LeftOk(Link(F, n, p, goLeft, lo, hi), m)
  {
    var G := Link(F, n, p, goLeft, lo, hi);
    LinkAt(F, n, p, goLeft, lo, hi, m);
    LinkAt(F, n, p, goLeft, lo, hi, n);
    if m in F {
      assert Linked(F, root, m);
      if F[m].left != null { LinkAt(F, n, p, goLeft, lo, hi, F[m].left); }
    }
    if p != null {
      assert Linked(F, root, p);
      LinkAt(F, n, p, goLeft, lo, hi, p);
    }
    hide Shape, Link;
  }

  lemma LinkRightOk(F: Heap, root: Node?, n: Node, p: Node?, goLeft: bool, lo: real, hi: real, m: Node)
    requires Shape(F, root) && n !in F && Slot(F, root, p, goLeft, lo, hi) && (m in F || m == n)
    ensures m in Link(F, n, p, goLeft, lo, hi)
    ensures RightOk(Link(F, n, p, goLeft, lo, hi), m)
  {
    var G := Link(F, n, p, goLeft, lo, hi);
    LinkAt(F, n, p, goLeft, lo, hi, m);
    LinkAt(F, n, p, goLeft, lo, hi, n);
    if m in F {
      assert Linked(F, root, m);
      if F[m].right != null { LinkAt(F, n, p, goLeft, lo, hi, F[m].right); }
    }
    if p != null {
      assert Linked(F, root, p);
      LinkAt(F, n, p, goLeft, lo, hi, p);
    }
    hide Shape, Link;
  }

  lemma LinkUpOk(F: Heap, root: Node?, n: Node, p: Node?, goLeft: bool, lo: real, hi: real, m: Node)
    requires Shape(F, root) && n !in F && Slot(F, root, p, goLeft, lo, hi) && (m in F || m == n)
    ensures m in Link(F, n, p, goLeft, lo, hi)
    ensures UpOk(Link(F, n, p, goLeft, lo, hi), if p == null then n else root, m)
  {
    var G := Link(F, n, p, goLeft, lo, hi);
    LinkAt(F, n, p, goLeft, lo, hi, m);
    LinkAt(F, n, p, goLeft, lo, hi, n);
    if m in F {
      assert Linked(F, root, m);
      if F[m].parent != null { LinkAt(F, n, p, goLeft, lo, hi, F[m].parent); }
    }
    if p != null {
      assert Linked(F, root, p);
      LinkAt(F, n, p, goLeft, lo, hi, p);
    }
    hide Shape, Link;
  }

  lemma LinkLinked(F: Heap, root: Node?, n: Node, p: Node?, goLeft: bool, lo: real, hi: real, m: Node)
    requires Shape(F, root) && n !in F && Slot(F, root, p, goLeft, lo, hi) && (m in F || m == n)
    ensures m in Link(F, n, p, goLeft, lo, hi)
    ensures Linked(Link(F, n, p, goLeft, lo, hi), if p == null then n else root, m)
  {
    LinkLeftOk(F, root, n, p, goLeft, lo, hi, m);
    LinkRightOk(F, root, n, p, goLeft, lo, hi, m);
    LinkUpOk(F, root, n, p, goLeft, lo, hi, m);
    hide Link, LeftOk, RightOk, UpOk, Slot, Shape;
  }

  lemma LinkRoot(F: Heap, root: Node?, n: Node, p: Node?, goLeft: bool, lo: real, hi: real)
    requires Shape(F, root) && n !in F && Slot(F, root, p, goLeft, lo, hi)
    ensures RootOk(Link(F, n, p, goLeft, lo, hi), if p == null then n else root)
  {
    hide Linked;
  }

  lemma LinkColours(F: Heap, root: Node?, n: Node, p: Node?, goLeft: bool, lo: real, hi: real, m: Node)
    requires Shape(F, root) && n !in F && Slot(F, root, p, goLeft, lo, hi) && (m in F || m == n)
    requires m in F ==> BhOk(F, m) && RedOk(F, m, null)
    ensures BhOk(Link(F, n, p, goLeft, lo, hi), m) && RedOk(Link(F, n, p, goLeft, lo, hi), m, n)
  {
    if m in F { assert Linked(F, root, m); }
    hide Shape;
  }

  lemma LinkAugmented(F: Heap, root: Node?, n: Node, p: Node?, goLeft: bool, lo: real, hi: real, m: Node)
    requires Shape(F, root) && n !in F && Slot(F, root, p, goLeft, lo, hi) && (m in F || m == n)
    requires Raised(F, p, n.val)
    ensures Link(F, n, p, goLeft, lo, hi)[m].augmented == AugOf(Link(F, n, p, goLeft, lo, hi), m)
  {
    if m in F { assert Linked(F, root, m); }
    hide Shape;
  }

  /** The linked leaf is the only offence, so that rebalancing can start. */
  lemma LinkAlmostRb(F: Heap, root: Node?, n: Node, p: Node?, goLeft: bool, lo: real, hi: real)
    requires Shape(F, root) && Balanced(F) && Coloured(F, null) && !Red(F, root) && n !in F
    requires Slot(F, root, p, goLeft, lo, hi) && Raised(F, p, n.val)
    ensures AlmostRb(Link(F, n, p, goLeft, lo, hi), if p == null then n else root, n)
  {
    var G, root' := Link(F, n, p, goLeft, lo, hi), if p == null then n else root;
    assert G.Keys == F.Keys + {n};
    assert Red(G, n);
    assert Red(G, root') ==> root' == n;
    LinkRoot(F, root, n, p, goLeft, lo, hi);
    hide Link, LinkedAt, Slot, RootOk, Linked, BhOk, RedOk, AugOf, Raised;
    forall m | m in G
      ensures Linked(G, root', m) && BhOk(G, m) && RedOk(G, m, n) && G[m].augmented == AugOf(G, m)
    {
      LinkLinked(F, root, n, p, goLeft, lo, hi, m);
      LinkColours(F, root, n, p, goLeft, lo, hi, m);
      LinkAugmented(F, root, n, p, goLeft, lo, hi, m);
    }
  }

  // ----- the descent to the slot

  /** Where a new key belongs: after every key that is not larger, before every larger one. */
  ghost predicate Belongs(F: Heap, key: int, lo: real, hi: real) {
    forall m :: m in F ==> (F[m].pos <= lo ==> m.key <= key) && (F[m].pos >= hi ==> key < m.key)
  }

  ghost predicate KeysAscend(F: Heap) {
    forall a, b :: a in F && b in F && F[a].pos < F[b].pos ==> a.key <= b.key
  }

  /** Going left at a larger key, or right otherwise, keeps the place right. */
  lemma BelongsDown(F: Heap, root: Node?, key: int, lo: real, hi: real, c: Node)
    requires Shape(F, root) && KeysAscend(F) && c in F && Belongs(F, key, lo, hi)
    ensures key < c.key ==> Belongs(F, key, lo, F[c].pos)
    ensures key >= c.key ==> Belongs(F, key, F[c].pos, hi)
  {
    forall m | m in F && F[m].pos == F[c].pos ensures m == c {
      if m != c { PlacesDiffer(F, root, m, c); }
    }
    hide Shape;
  }

  /** Raising the current node moves the one discrepancy down to it. */
  ghost function RaiseAt(F: Heap, c: Node, val: int): Heap
    requires c in F
  {
    F[c := F[c].(augmented := Max(F[c].augmented, val))]
  }

  lemma RaiseAug(F: Heap, root: Node?, p: Node?, c: Node, val: int, m: Node)
    requires Shape(F, root) && c in F && m in F && m != c && F[c].parent == p && Raised(F, p, val)
    ensures RaiseAt(F, c, val)[m].augmented == AugOf(RaiseAt(F, c, val), m)
  {
    assert Linked(F, root, m) && Linked(F, root, c);
    hide Shape;
  }

  lemma RaiseStep(F: Heap, root: Node?, p: Node?, c: Node, val: int)
    requires Shape(F, root) && c in F && F[c].parent == p && Raised(F, p, val)
    ensures Raised(RaiseAt(F, c, val), c, val) && SameButAugmented(F, RaiseAt(F, c, val))
  {
    var G := RaiseAt(F, c, val);
    assert Linked(F, root, c);
    if p != null { assert Linked(F, root, p); }
    RecomputeSame(F, G, c.val, F[c].left, F[c].right);
    hide Recompute;
    forall m | m in G && m != c ensures G[m].augmented == AugOf(G, m) {
      RaiseAug(F, root, p, c, val, m);
    }
  }

  // ----- the in-order sequence after linking

  lemma LinkPlaces(F: Heap, root: Node?, n: Node, p: Node?, goLeft: bool, lo: real, hi: real)
    requires Shape(F, root) && n !in F && Slot(F, root, p, goLeft, lo, hi)
    ensures lo < hi && forall m :: m in F ==> F[m].pos <= lo || hi <= F[m].pos
    ensures var G := Link(F, n, p, goLeft, lo, hi);
      G.Keys == F.Keys + {n} && lo < G[n].pos < hi && forall m :: m in F ==> G[m].pos == F[m].pos
  {
    if p != null { assert Linked(F, root, p); }
    forall m | m in F ensures F[m].pos <= lo || hi <= F[m].pos {
      if goLeft { LeftSlotEmpty(F, root, p, m); } else { RightSlotEmpty(F, root, p, m); }
    }
  }

  /** q with n inserted behind the i first nodes. */
  function Inserted(q: seq<Node>, i: nat, n: Node): seq<Node>
    requires i <= |q|
  {
    q[..i] + [n] + q[i..]
  }

  /** r is q with n inserted behind the keys that are not larger and before the larger ones. */
  ghost predicate InsertedByKey(q: seq<Node>, r: seq<Node>, n: Node) {
    exists i: nat :: i <= |q| && r == Inserted(q, i, n) && InPlace(q, i, n)
  }

  ghost predicate InPlace(q: seq<Node>, i: nat, n: Node)
    requires i <= |q|
  {
    && (forall j :: 0 <= j < i ==> q[j].key <= n.key)
    && (forall j :: i <= j < |q| ==> n.key < q[j].key)
  }

  lemma MakeInserted(q: seq<Node>, i: nat, r: seq<Node>, n: Node)
    requires i <= |q| && r == Inserted(q, i, n)
    requires (forall j :: 0 <= j < i ==> q[j].key <= n.key) && (forall j :: i <= j < |q| ==> n.key < q[j].key)
    ensures InsertedByKey(q, r, n)
  {
  }

  /** The number of nodes at or before a place. */
  ghost function CountUpTo(F: Heap, q: seq<Node>, lo: real): (i: nat)
    requires Ascending(F, q)
    ensures i <= |q|
    ensures forall j :: 0 <= j < i ==> F[q[j]].pos <= lo
    ensures forall j :: i <= j < |q| ==> lo < F[q[j]].pos
  {
    if q == [] then 0
    else if F[q[|q| - 1]].pos <= lo then |q|
    else CountUpTo(F, q[..|q| - 1], lo)
  }

  lemma InsertedIndex(q: seq<Node>, i: nat, n: Node, k: nat)
    requires i <= |q| && k <= |q|
    ensures |Inserted(q, i, n)| == |q| + 1
    ensures Inserted(q, i, n)[k] == if k < i then q[k] else if k == i then n else q[k - 1]
  {
  }

  lemma InsertedMember(q: seq<Node>, i: nat, n: Node, m: Node)
    requires i <= |q| && (m in q || m == n)
    ensures m in Inserted(q, i, n)
  {
    if m == n {
      InsertedIndex(q, i, n, i);
    } else {
      var j :| 0 <= j < |q| && q[j] == m;
      InsertedIndex(q, i, n, if j < i then j else j + 1);
    }
  }

  lemma InsertedAscends(F: Heap, G: Heap, q: seq<Node>, i: nat, n: Node)
    requires
      IsOrder(F, q) && i <= |q| && n !in F && G.Keys == F.Keys + {n} && forall m :: m in F ==> G[m].pos == F[m].pos
    requires forall j :: 0 <= j < i ==> F[q[j]].pos < G[n].pos
    requires forall j :: i <= j < |q| ==> G[n].pos < F[q[j]].pos
    ensures IsOrder(G, Inserted(q, i, n))
  {
    var r := Inserted(q, i, n);
    InsertedIndex(q, i, n, i);
    assert forall m :: m in F ==> m in q;
    hide IsOrder, Inserted;
    forall m | m in G ensures m in r { InsertedMember(q, i, n, m); }
    forall k | 0 <= k < |r| ensures r[k] in G {
      InsertedIndex(q, i, n, k);
    }
    forall k, l | 0 <= k < l < |r| ensures G[r[k]].pos < G[r[l]].pos {
      InsertedIndex(q, i, n, k);
      InsertedIndex(q, i, n, l);
      if k != i && l != i { assert F[q[if k < i then k else k - 1]].pos < F[q[if l < i then l else l - 1]].pos; }
    }
    MakeOrder(G, r);
  }

  lemma MakeOrder(G: Heap, r: seq<Node>)
    requires Ascending(G, r) && forall m :: m in G ==> m in r
    ensures IsOrder(G, r)
  {
  }

  lemma TraverseUnique(F: Heap, root: Node?, q: seq<Node>)
    requires Shape(F, root) && IsOrder(F, q)
    ensures Traverse(F, root, root) == q
  {
    TraverseIsOrder(F, root);
    hide Shape, Traverse;
    OrderUnique(F, Traverse(F, root, root), q);
  }

  /** Linking inserts the node between its neighbours and changes nothing else in the sequence. */
  lemma LinkOrder(F: Heap, root: Node?, n: Node, p: Node?, goLeft: bool, lo: real, hi: real) returns (i: nat)
    requires Shape(F, root) && n !in F && Slot(F, root, p, goLeft, lo, hi)
    requires Shape(Link(F, n, p, goLeft, lo, hi), if p == null then n else root)
    ensures var q, root' := Traverse(F, root, root), if p == null then n else root;
      && i <= |q| && (forall m :: m in q ==> m in F)
      && Traverse(Link(F, n, p, goLeft, lo, hi), root', root') == Inserted(q, i, n)
      && (forall j :: 0 <= j < i ==> F[q[j]].pos <= lo) && (forall j :: i <= j < |q| ==> hi <= F[q[j]].pos)
  {
    hide *;
    RootIn(F, root);
    var root', G := if p == null then n else root, Link(F, n, p, goLeft, lo, hi);
    RootIn(G, root');
    var q := Traverse(F, root, root);
    TraverseIsOrder(F, root);
    LinkPlaces(F, root, n, p, goLeft, lo, hi);
    OpenOrder(F, q);
    i := CountUpTo(F, q, lo);
    InsertedAscends(F, G, q, i, n);
    TraverseUnique(G, if p == null then n else root, Inserted(q, i, n));
  }

  lemma RootIn(F: Heap, root: Node?)
    requires Shape(F, root)
    ensures root != null ==> root in F
  {
  }

  lemma OpenOrder(F: Heap, q: seq<Node>)
    requires IsOrder(F, q)
    ensures Ascending(F, q) && forall m :: m in q <==> m in F
  {
  }
}
