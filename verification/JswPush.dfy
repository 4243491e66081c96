/** Pushing a red node down in the heap. */
module JswPush {
  import opened JswModel
  import opened JswInsert
  import opened JswHeap
  import opened JswErase

  lemma RedNodes(t: Tree)
    requires t.T?
    ensures
      && Nodes(Redden(t)) == Nodes(t) && Distinct(Redden(t)) == Distinct(t) && Redden(t).T?
      && Redden(t).node == t.node && Redden(t) == Make(t.node, true, t.data, 0, t.left, t.right)
  {
  }

  /** Makes the node at the end of the path red. */
  method MakeRed(q: Node, ghost head: Node, ghost c: Path, ghost t: Tree)
    requires RepAll(head, c, q, t) && t.T?
    modifies q`red
    ensures RepAll(head, c, q, Redden(t)) && AllNodes(c, Redden(t)) == AllNodes(c, t)
  {
    hide Rep, Nodes, Distinct, Redden, Make, RepPath, PathNodes, DistinctPath;
    OpenAll(head, c, q, t);
    KidRep(q, t, 0);
    KidRep(q, t, 1);
    KidNodes(t, 0);
    RedNodes(t);
    q.red := true;
    MakeRep(q, 0, t.left, t.right);
  }

  lemma OpenFrame(head: Node, c: Path, n: Node?, t: Tree)
    requires RepAll(head, c, n, t) && c.Frame?
    ensures
      && Rep(c.node.link[1 - c.dir], c.other) && RepPath(head, c.up) && DistinctPath(c.up)
      && Distinct(c.other) && PathNodes(c) == {c.node} + Nodes(c.other) + PathNodes(c.up)
    ensures c.node !in Nodes(c.other) + PathNodes(c.up) && Nodes(c.other) !! PathNodes(c.up)
    ensures Owner(head, c.up) in {head} + PathNodes(c.up) && Owner(head, c.up).link[SlotSide(c.up)] == c.node
  {
  }

  lemma MakeAll(head: Node, c: Path, n: Node?, t: Tree)
    requires c.Frame? && c.node.red == c.red && c.node.data == c.data && c.node.link[c.dir] == n
    requires
      && Rep(n, t) && Rep(c.node.link[1 - c.dir], c.other) && RepPath(head, c.up)
      && Owner(head, c.up) in {head} + PathNodes(c.up)
      && Owner(head, c.up).link[SlotSide(c.up)] == c.node
    requires Apart(head, c, t)
    ensures RepAll(head, c, n, t)
  {
  }

  /** Parent, node and sibling exchange colours. */
  method Recolour(q: Node, p: Node, s: Node, ghost head: Node, ghost c: Path, ghost t: Tree)
    requires RepAll(head, c, q, t) && t.T? && c.Frame? && c.other.T? && p == c.node && s == p.link[1 - c.dir]
    modifies p`red, s`red, q`red
    ensures RepAll(head, c.(red := false, other := Redden(c.other)), q, Redden(t))
    ensures AllNodes(c.(red := false, other := Redden(c.other)), Redden(t)) == AllNodes(c, t)
  {
    hide Rep, Nodes, Distinct, Redden, Make, RepPath, PathNodes, DistinctPath, AllNodes, Apart, RepAll;
    ghost var c1 := c.(red := false, other := Redden(c.other));
    OpenAll(head, c, q, t);
    OpenFrame(head, c, q, t);
    RepRoot(s, c.other);
    KidRep(s, c.other, 0);
    KidRep(s, c.other, 1);
    KidNodes(c.other, 0);
    RedNodes(c.other);
    RecolourApart(head, c, t);
    p.red := false;
    s.red := true;
    MakeRep(s, 0, c.other.left, c.other.right);
    MakeAll(head, c1, q, t);
    MakeRed(q, head, c1, t);
  }

  lemma RecolourApart(head: Node, c: Path, t: Tree)
    requires Apart(head, c, t) && c.Frame? && c.other.T?
    ensures
      var c1 := c.(red := false, other := Redden(c.other)); Apart(head, c1, t) && AllNodes(c1, t) == AllNodes(c, t)
    ensures SlotSide(c) == c.dir && Owner(head, c) == c.node
  {
    RedNodes(c.other);
  }

  /** The red child on the other side comes up, and the node goes down, red. */
  method Lower(q: Node, p: Node, last: Side, dir: Side, ghost head: Node, ghost c: Path, ghost t: Tree)
    returns (s: Node)
    requires RepAll(head, c, q, t) && t.T? && PushOf(c, t, dir).Lower? && p == Owner(head, c) && last == SlotSide(c)
    modifies {head} + AllNodes(c, t)
    ensures RepAll(head, PushPath(c, t, dir), q, PushTree(c, t, dir)) && s == Owner(head, PushPath(c, t, dir))
    ensures AllNodes(PushPath(c, t, dir), PushTree(c, t, dir)) == AllNodes(c, t)
  {
    hide *;
    LowerReady(c, t, dir);
    OpenAll(head, c, q, t);
    AllNodesIs(c, t);
    assert allocated(PathNodes(c));
    s := Single(q, dir, t);
    SamePlace(head, c, t, SingleOf(t, dir));
    Attach(head, c, p, last, s, SingleOf(t, dir));
    Down(head, c, s, SingleOf(t, dir), dir);
    OpenAll(head, PushPath(c, t, dir), SingleOf(t, dir).node.link[dir], PushTree(c, t, dir));
  }

  lemma LowerReady(c: Path, t: Tree, d: Side)
    requires t.T? && PushOf(c, t, d).Lower?
    ensures Kid(t, 1 - d).T? && {t.node, Kid(t, 1 - d).node} <= Nodes(t)
    ensures var r := SingleOf(t, d);
      && r.T? && PushPath(c, t, d) == Enter(c, r, d) && PushTree(c, t, d) == Kid(r, d) && Kid(r, d).T?
      && Kid(r, d).node == t.node
    ensures
      && PushPath(c, t, d).Frame? && PushPath(c, t, d).node == SingleOf(t, d).node
      && forall h: Node :: Owner(h, PushPath(c, t, d)) == SingleOf(t, d).node
  {
    KidNodes(t, d);
  }

  // ----- a rotation at the parent

  /** The rotated subtree with the node red, before the new top and its children are painted. */
  function Rotated(c: Path, t: Tree): Tree
    requires c.Frame? && t.T? && c.other.T? && (IsRed(Kid(c.other, c.dir)) || IsRed(Kid(c.other, 1 - c.dir)))
  {
    if IsRed(Kid(c.other, c.dir)) then DoubleOf(Leave(c, t), c.dir) else SingleOf(Leave(c, t), c.dir)
  }

  lemma RotatedShape(c: Path, t: Tree)
    requires c.Frame? && t.T? && c.other.T? && (IsRed(Kid(c.other, c.dir)) || IsRed(Kid(c.other, 1 - c.dir)))
    ensures var e, r := c.dir, Rotated(c, t);
      && r.T? && Kid(r, e).T? && Kid(r, 1 - e).T? && Kid(Kid(r, e), e) == t
  {
    var e, s, u := c.dir, c.other, Leave(c, t);
    assert Kid(u, 1 - e) == s && Kid(u, e) == t;
    hide Leave;
  }

  /** Painting afterwards gives what borrowing gives. */
  lemma RotatedPainted(c: Path, t: Tree)
    requires c.Frame? && t.T? && c.other.T? && (IsRed(Kid(c.other, c.dir)) || IsRed(Kid(c.other, 1 - c.dir)))
    requires Rotated(c, t).T? && Kid(Rotated(c, t), c.dir).T?
    ensures var e, r := c.dir, Rotated(c, t);
      var low := Enter(c.up, r, e);
      Borrow(c, t) == FlipOf(Leave(low, Leave(Enter(low, Kid(r, e), e), Redden(t))))
  {
    var e, s, u, v := c.dir, c.other, Leave(c, t), Leave(c, Redden(t));
    assert Kid(u, 1 - e) == s && Kid(u, e) == t && Kid(v, 1 - e) == s && Kid(v, e) == Redden(t);
    assert u.T? && v.T? && u.node == v.node && u.data == v.data;
    hide Leave, Redden;
  }

  /** Makes q and the new top red and the children of the top black. */
  method Paint(q: Node, top: Node, ghost head: Node, ghost c: Path, ghost t: Tree)
    requires c.Frame? && t.T? && c.other.T? && (IsRed(Kid(c.other, c.dir)) || IsRed(Kid(c.other, 1 - c.dir)))
    requires q == t.node && RepAll(head, c.up, top, Rotated(c, t))
    modifies Nodes(Rotated(c, t))
    ensures RepAll(head, c.up, top, Borrow(c, t)) && AllNodes(c.up, Borrow(c, t)) == AllNodes(c.up, Rotated(c, t))
  {
    hide *;
    ghost var e, r := c.dir, Rotated(c, t);
    RotatedShape(c, t);
    RotatedPainted(c, t);
    ghost var low := Enter(c.up, r, e);
    ghost var c1 := Enter(low, Kid(r, e), e);
    Down(head, c.up, top, r, e);
    Down(head, low, r.node.link[e], Kid(r, e), e);
    EnterIs(c.up, r, e);
    EnterIs(low, Kid(r, e), e);
    OpenAll(head, c1, Kid(r, e).node.link[e], t);
    RotatedNodes(c, t);
    assert allocated(Nodes(r));
    MakeRed(q, head, c1, t);
    Up(head, c1, q, Redden(t));
    Up(head, low, c1.node, Leave(c1, Redden(t)));
    ghost var painted := Leave(low, Leave(c1, Redden(t)));
    PaintedKids(c, t);
    FlipColours(top, head, c.up, painted);
    AllNodesIs(c.up, painted);
    AllNodesIs(c.up, FlipOf(painted));
  }

  lemma RotatedNodes(c: Path, t: Tree)
    requires c.Frame? && t.T? && c.other.T? && (IsRed(Kid(c.other, c.dir)) || IsRed(Kid(c.other, 1 - c.dir)))
    ensures var r := Rotated(c, t);
      r.T? && Kid(r, 0).T? && Kid(r, 1).T? && {r.node, Kid(r, 0).node, Kid(r, 1).node, t.node} <= Nodes(r)
  {
    var r, e := Rotated(c, t), c.dir;
    RotatedShape(c, t);
    KidNodes(r, e);
    KidNodes(Kid(r, e), e);
    hide Rotated;
  }

  lemma PaintedKids(c: Path, t: Tree)
    requires c.Frame? && t.T? && c.other.T? && (IsRed(Kid(c.other, c.dir)) || IsRed(Kid(c.other, 1 - c.dir)))
    ensures var e, r := c.dir, Rotated(c, t); r.T? && Kid(r, e).T? && Kid(r, 1 - e).T? && Kid(Kid(r, e), e) == t
    ensures var e, r := c.dir, Rotated(c, t); var low := Enter(c.up, r, e);
      var p := Leave(low, Leave(Enter(low, Kid(r, e), e), Redden(t)));
      && p.T? && p.left.T? && p.right.T? && p.node == r.node
      && {p.left.node, p.right.node} == {Kid(r, 0).node, Kid(r, 1).node}
  {
    RotatedShape(c, t);
    hide Rotated, Redden;
  }

  /** Brings a node over from the sibling's side by a rotation at the parent. */
  method Rebalance(q: Node, p: Node, g: Node, s: Node, last: Side, ghost head: Node, ghost c: Path, ghost t: Tree)
    requires
      && RepAll(head, c, q, t) && c.Frame? && t.T? && c.other.T?
      && (IsRed(Kid(c.other, c.dir)) || IsRed(Kid(c.other, 1 - c.dir)))
    requires p == c.node && g == Owner(head, c.up) && last == c.dir && s == p.link[1 - last]
    modifies {head} + AllNodes(c, t)
    ensures RepAll(head, BorrowedPath(c, Borrow(c, t)), q, Redden(t))
    ensures AllNodes(BorrowedPath(c, Borrow(c, t)), Redden(t)) == AllNodes(c, t)
  {
    hide *;
    ghost var up, u, r := c.up, Leave(c, t), Rotated(c, t);
    OpenAll(head, c, q, t);
    OpenFrame(head, c, q, t);
    KidColours(s, c.other);
    KidRep(s, c.other, last);
    RepColour(s.link[last], Kid(c.other, last));
    KidRep(s, c.other, 1 - last);
    RepColour(s.link[1 - last], Kid(c.other, 1 - last));
    Up(head, c, q, t);
    OpenAll(head, up, p, u);
    OwnerSide(head, up, p, u);
    RotateReady(c, t);
    AllNodesIs(up, u);
    assert allocated(AllNodes(c, t));
    var dir2: Side := if g.link[1] == p then 1 else 0;
    var top: Node;
    if IsRedNode(s.link[last]) {
      top := Double(p, last, u);
    } else {
      top := Single(p, last, u);
    }
    SamePlace(head, up, u, r);
    Attach(head, up, g, dir2, top, r);
    RotatedNodes(c, t);
    AllNodesIs(up, r);
    Paint(q, top, head, c, t);
    BorrowKids(c, t);
    Borrowed(head, c, top, t);
  }

  /** Back from the new top to the node, two steps down. */
  lemma Borrowed(head: Node, c: Path, top: Node?, t: Tree)
    requires c.Frame? && t.T? && c.other.T? && (IsRed(Kid(c.other, c.dir)) || IsRed(Kid(c.other, 1 - c.dir)))
    requires Borrow(c, t).T? && Kid(Borrow(c, t), c.dir).T? && RepAll(head, c.up, top, Borrow(c, t))
    ensures RepAll(head, BorrowedPath(c, Borrow(c, t)), t.node, Redden(t))
    ensures AllNodes(BorrowedPath(c, Borrow(c, t)), Redden(t)) == AllNodes(c.up, Borrow(c, t))
  {
    BorrowKids(c, t);
    hide *;
    var e, b := c.dir, Borrow(c, t);
    BorrowedIs(c, b);
    Down(head, c.up, top, b, e);
    Down(head, Enter(c.up, b, e), b.node.link[e], Kid(b, e), e);
    RedNodes(t);
    OpenAll(head, BorrowedPath(c, b), Kid(b, e).node.link[e], Redden(t));
  }

  lemma BorrowedIs(c: Path, r: Tree)
    requires c.Frame? && r.T? && Kid(r, c.dir).T?
    ensures BorrowedPath(c, r) == Enter(Enter(c.up, r, c.dir), Kid(r, c.dir), c.dir)
  {
  }

  lemma RotateReady(c: Path, t: Tree)
    requires c.Frame? && t.T? && c.other.T? && (IsRed(Kid(c.other, c.dir)) || IsRed(Kid(c.other, 1 - c.dir)))
    ensures var u, e := Leave(c, t), c.dir;
      && u.T? && u.node == c.node && Kid(u, 1 - e) == c.other && Kid(u, 1 - e).T?
      && Rotated(c, t) == (if IsRed(Kid(c.other, e)) then DoubleOf(u, e) else SingleOf(u, e))
      && (IsRed(Kid(c.other, e)) ==> Kid(c.other, e).T? && Kid(c.other, e).node in Nodes(u))
      && {c.node, c.other.node} <= Nodes(u)
  {
    var u, e := Leave(c, t), c.dir;
    assert Kid(u, 1 - e) == c.other;
    KidNodes(u, e);
    KidNodes(c.other, e);
  }

  // ----- the whole step

  lemma PushCases(head: Node, c: Path, t: Tree, d: Side)
    requires t.T?
    ensures t.red || IsRed(Kid(t, d)) ==> PushPath(c, t, d) == c && PushTree(c, t, d) == t
    ensures !t.red && !IsRed(Kid(t, d)) && IsRed(Kid(t, 1 - d)) ==> PushOf(c, t, d).Lower?
    ensures !t.red && !IsRed(Kid(t, d)) && !IsRed(Kid(t, 1 - d)) ==>
      if c.Top? || c.other.Leaf? then PushPath(c, t, d) == c && PushTree(c, t, d) == t
      else if !IsRed(Kid(c.other, c.dir)) && !IsRed(Kid(c.other, 1 - c.dir)) then RecolourCase(head, c, t, d)
      else RebalanceCase(head, c, t, d)
  {
    if c.Frame? && c.other.T? && (IsRed(Kid(c.other, c.dir)) || IsRed(Kid(c.other, 1 - c.dir))) {
      BorrowKids(c, t);
      BorrowedFrames(c, t);
      hide Borrow, BorrowedPath;
    }
  }

  ghost predicate RecolourCase(head: Node, c: Path, t: Tree, d: Side)
    requires t.T? && c.Frame?
  {
    && PushPath(c, t, d) == c.(red := false, other := Redden(c.other)) && PushTree(c, t, d) == Redden(t)
    && Owner(head, PushPath(c, t, d)) == c.node
  }

  ghost predicate RebalanceCase(head: Node, c: Path, t: Tree, d: Side)
    requires t.T? && c.Frame? && c.other.T? && (IsRed(Kid(c.other, c.dir)) || IsRed(Kid(c.other, 1 - c.dir)))
  {
    && Borrow(c, t).T? && Kid(Borrow(c, t), c.dir).T?
    && PushPath(c, t, d) == BorrowedPath(c, Borrow(c, t)) && PushTree(c, t, d) == Redden(t)
    && Owner(head, PushPath(c, t, d)) == c.node
  }

  lemma OpenCases(head: Node, c: Path, t: Tree, d: Side)
    requires t.T? && c.Frame?
    ensures RecolourCase(head, c, t, d) ==>
        && PushPath(c, t, d) == c.(red := false, other := Redden(c.other))
        && PushTree(c, t, d) == Redden(t) && Owner(head, PushPath(c, t, d)) == c.node
    ensures
      c.other.T? && (IsRed(Kid(c.other, c.dir)) || IsRed(Kid(c.other, 1 - c.dir))) && RebalanceCase(head, c, t, d) ==>
      && Borrow(c, t).T? && Kid(Borrow(c, t), c.dir).T?
      && PushPath(c, t, d) == BorrowedPath(c, Borrow(c, t)) && PushTree(c, t, d) == Redden(t)
      && Owner(head, PushPath(c, t, d)) == c.node
  {
  }

  lemma SiblingRep(head: Node, c: Path, n: Node, t: Tree)
    requires RepAll(head, c, n, t)
    ensures c.Top? ==> Owner(head, c) == head && SlotSide(c) == 1 && head.link[0] == null
    ensures c.Frame? ==>
        && Owner(head, c) == c.node && SlotSide(c) == c.dir && Rep(c.node.link[1 - c.dir], c.other)
        && (c.node.link[1 - c.dir] == null <==> c.other.Leaf?)
    ensures c.Frame? ==>
        c.node.link[1 - c.dir] != null ==>
          c.other.T? && c.node.link[1 - c.dir] == c.other.node && c.other.node in PathNodes(c)
  {
    if c.Frame? { RepRoot(c.node.link[1 - c.dir], c.other); }
  }

  /** One turn of the loop of jsw_rberase after the comparison; returns the parent of q. */
  method PushRed(q: Node, p: Node, g: Node?, last: Side, dir: Side, ghost head: Node, ghost c: Path, ghost t: Tree)
    returns (p1: Node)
    requires RepAll(head, c, q, t) && FitsTree(c, t) && PushOk(c, t) && t.T?
    requires p == Owner(head, c) && last == SlotSide(c) && (c.Frame? ==> g == Owner(head, c.up))
    modifies {head} + AllNodes(c, t)
    ensures RepAll(head, PushPath(c, t, dir), q, PushTree(c, t, dir)) && p1 == Owner(head, PushPath(c, t, dir))
    ensures AllNodes(PushPath(c, t, dir), PushTree(c, t, dir)) == AllNodes(c, t)
  {
    hide *;
    OpenAll(head, c, q, t);
    RedIs(q);
    RedOf(t);
    KidRep(q, t, dir);
    RepColour(q.link[dir], Kid(t, dir));
    KidRep(q, t, 1 - dir);
    RepColour(q.link[1 - dir], Kid(t, 1 - dir));
    PushCases(head, c, t, dir);
    SiblingRep(head, c, q, t);
    AllNodesIs(c, t);
    p1 := p;
    if !IsRedNode(q) && !IsRedNode(q.link[dir]) {
      if IsRedNode(q.link[1 - dir]) {
        p1 := Lower(q, p, last, dir, head, c, t);
      } else if !IsRedNode(q.link[1 - dir]) {
        var s := p.link[1 - last];
        if s != null {
          OpenCases(head, c, t, dir);
          KidRep(s, c.other, last);
          RepColour(s.link[last], Kid(c.other, last));
          KidRep(s, c.other, 1 - last);
          RepColour(s.link[1 - last], Kid(c.other, 1 - last));
          if !IsRedNode(s.link[1 - last]) && !IsRedNode(s.link[last]) {
            Recolour(q, p, s, head, c, t);
          } else {
            Rebalance(q, p, g, s, last, head, c, t);
          }
        }
      }
    }
  }

  // ----- the end of the erasure

  /** The path is laid out as c says, but for the element of node n, which was passed. */
  ghost predicate Around(head: Node, c: Path, n: Node)
    reads ({head} + PathNodes(c)) - {n}, n`link, n`red
  {
    match c
    case Top => false
    case Frame(x, red, data, dir, other, up) =>
      && n != head && x.red == red && n !in Nodes(other) && Rep(x.link[1 - dir], other)
      && Owner(head, up) in {head} + PathNodes(up) && Owner(head, up).link[SlotSide(up)] == x
      && if x == n && dir == 0 then n !in PathNodes(up) && RepPath(head, up)
         else x != n && x.data == data && Around(head, up, n)
  }

  lemma {:induction false} StartAround(head: Node, c: Path, n: Node)
    requires RepPath(head, c) && Passed(c, n) && DistinctPath(c) && head !in PathNodes(c)
    ensures Around(head, c, n) && n in PathNodes(c)
  {
    if !(c.node == n && c.dir == 0) {
      StartAround(head, c.up, n);
    }
  }

  lemma {:induction false} EndAround(head: Node, c: Path, n: Node)
    requires Around(head, c, n) && Passed(c, n)
    ensures RepPath(head, SetData(c, n, n.data))
  {
    SetDataOwner(head, c.up, n, n.data);
    if !(c.node == n && c.dir == 0) {
      EndAround(head, c.up, n);
    }
  }

  lemma SetDataOwner(head: Node, c: Path, n: Node, v: int)
    ensures
      && Owner(head, SetData(c, n, v)) == Owner(head, c) && SlotSide(SetData(c, n, v)) == SlotSide(c)
      && PathNodes(SetData(c, n, v)) == PathNodes(c)
    ensures DistinctPath(c) ==> DistinctPath(SetData(c, n, v))
  {
  }

  /** The node found takes over the element of the node reached, which leaves the tree. */
  method Replace(f: Node, q: Node, p: Node, ghost head: Node, ghost c: Path)
    requires RepAll(head, c, null, Leaf) && c.Frame? && c.other.Leaf? && Passed(c, f)
    requires q == c.node && p == Owner(head, c.up)
    modifies f`data, p
    ensures
      && (c.dir == 0 <==> c.node == f) && RepAll(head, Left(c, f), null, Leaf)
      && AllNodes(Left(c, f), Leaf) <= AllNodes(c, Leaf)
  {
    hide *;
    Up(head, c, null, Leaf);
    OpenAll(head, c, null, Leaf);
    OpenFrame(head, c, null, Leaf);
    OwnerSide(head, c.up, q, Leave(c, Leaf));
    EndFacts(head, c, f);
    if c.dir == 1 { StartAround(head, c.up, f); }
    f.data := q.data;
    if c.dir == 1 { EndAround(head, c.up, f); }
    var side: Side := if p.link[1] == q then 1 else 0;
    var kid := if q.link[0] == null then 1 else 0;
    LeafAlone(head, Left(c, f));
    AllNodesIs(c, Leaf);
    Attach(head, Left(c, f), p, side, q.link[kid], Leaf);
  }

  lemma EndFacts(head: Node, c: Path, f: Node)
    requires RepAll(head, c, null, Leaf) && c.Frame? && c.other.Leaf? && Passed(c, f)
    ensures c.dir == 0 <==> c.node == f
    ensures c.dir == 1 ==> Passed(c.up, f) && f in PathNodes(c.up) && Left(c, f) == SetData(c.up, f, c.data)
    ensures c.dir == 0 ==> Left(c, f) == c.up
    ensures c.node.link[0] == null && c.node.link[1] == null && c.node.data == c.data && c.node !in PathNodes(c.up)
    ensures
      && DistinctPath(Left(c, f)) && PathNodes(Left(c, f)) == PathNodes(c.up)
      && head !in PathNodes(c.up) && PathNodes(c.up) <= PathNodes(c)
    ensures Owner(head, Left(c, f)) == Owner(head, c.up) && SlotSide(Left(c, f)) == SlotSide(c.up)
  {
    PassedIn(c, f);
    if c.dir == 1 {
      PassedIn(c.up, f);
      SetDataOwner(head, c.up, f, c.data);
    }
  }

  lemma {:induction false} PassedIn(c: Path, n: Node)
    requires Passed(c, n)
    ensures n in PathNodes(c)
  {
    if !(c.node == n && c.dir == 0) { PassedIn(c.up, n); }
  }

  lemma LeafAlone(head: Node, c: Path)
    requires DistinctPath(c) && head !in PathNodes(c)
    ensures Apart(head, c, Leaf) && Rep(null, Leaf) && AllNodes(c, Leaf) == PathNodes(c)
  {
  }
}
