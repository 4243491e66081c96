/** Trees in the heap: what nodes represent, the two rotations, and moving along a path. */
module JswHeap {
  import opened JswModel
  import opened JswInsert

  // ----- the nodes of a tree and of a path

  ghost function Nodes(t: Tree): set<Node> {
    if t.Leaf? then {} else {t.node} + Nodes(t.left) + Nodes(t.right)
  }

  ghost function PathNodes(c: Path): set<Node> {
    if c.Top? then {} else {c.node} + Nodes(c.other) + PathNodes(c.up)
  }

  ghost function AllNodes(c: Path, t: Tree): set<Node> {
    PathNodes(c) + Nodes(t)
  }

  /** No node occurs twice. */
  ghost predicate Distinct(t: Tree) {
    t.T? ==>
      && Distinct(t.left) && Distinct(t.right) && t.node !in Nodes(t.left) + Nodes(t.right)
      && Nodes(t.left) !! Nodes(t.right)
  }

  ghost predicate DistinctPath(c: Path) {
    c.Frame? ==>
      && Distinct(c.other) && DistinctPath(c.up) && c.node !in Nodes(c.other) + PathNodes(c.up)
      && Nodes(c.other) !! PathNodes(c.up)
  }

  ghost predicate Apart(head: Node, c: Path, t: Tree) {
    && DistinctPath(c) && Distinct(t) && PathNodes(c) !! Nodes(t)
    && head !in PathNodes(c) && head !in Nodes(t)
  }

  // ----- representation

  /** Node n and the nodes below it are laid out as t says. */
  ghost predicate Rep(n: Node?, t: Tree)
    reads Nodes(t)
  {
    match t
    case Leaf => n == null
    case T(x, red, data, l, r) => n == x && x.red == red && x.data == data && Rep(x.link[0], l) && Rep(x.link[1], r)
  }

  function SlotSide(c: Path): Side {
    if c.Top? then 1 else c.dir
  }

  /** The nodes on and beside the path are laid out as c says, up to the link the path ends in. */
  ghost predicate RepPath(head: Node, c: Path)
    reads {head} + PathNodes(c)
  {
    match c
    case Top => head.link[0] == null
    case Frame(x, red, data, dir, other, up) =>
      && x.red == red && x.data == data && Rep(x.link[1 - dir], other)
      && RepPath(head, up) && Owner(head, up) in {head} + PathNodes(up) && Owner(head, up).link[SlotSide(up)] == x
  }

  /** The whole tree below head: the path, the link n at its end, and the tree t there. */
  ghost predicate RepAll(head: Node, c: Path, n: Node?, t: Tree)
    reads {head} + PathNodes(c) + Nodes(t)
  {
    && Apart(head, c, t) && RepPath(head, c) && Rep(n, t)
    && Owner(head, c) in {head} + PathNodes(c) && Owner(head, c).link[SlotSide(c)] == n
  }

  lemma RepRoot(n: Node?, t: Tree)
    requires Rep(n, t)
    ensures (n == null) == t.Leaf?
    ensures t.T? ==> n == t.node && n.red == t.red && n.data == t.data && t.node in Nodes(t)
    ensures t.T? ==> Rep(t.node.link[0], t.left) && Rep(t.node.link[1], t.right)
  {
  }

  lemma KidNodes(t: Tree, d: Side)
    requires t.T?
    ensures Nodes(t) == {t.node} + Nodes(Kid(t, d)) + Nodes(Kid(t, 1 - d))
    ensures Distinct(t) <==>
        && Distinct(Kid(t, d)) && Distinct(Kid(t, 1 - d))
        && t.node !in Nodes(Kid(t, d)) + Nodes(Kid(t, 1 - d))
        && Nodes(Kid(t, d)) !! Nodes(Kid(t, 1 - d))
  {
  }

  lemma KidRep(n: Node?, t: Tree, d: Side)
    requires Rep(n, t) && t.T?
    ensures n == t.node && Rep(t.node.link[d], Kid(t, d))
  {
  }

  lemma MakeRep(x: Node, d: Side, near: Tree, far: Tree)
    requires Rep(x.link[d], near) && Rep(x.link[1 - d], far)
    ensures Rep(x, Make(x, x.red, x.data, d, near, far))
  {
  }

  // ----- moving along the path

  lemma Down(head: Node, c: Path, n: Node?, t: Tree, d: Side)
    requires RepAll(head, c, n, t) && t.T?
    ensures n == t.node && RepAll(head, Enter(c, t, d), t.node.link[d], Kid(t, d))
    ensures AllNodes(Enter(c, t, d), Kid(t, d)) == AllNodes(c, t)
  {
    hide Rep;
    KidRep(n, t, d);
    KidRep(n, t, 1 - d);
    KidNodes(t, d);
    RepRoot(n, t);
  }

  lemma Up(head: Node, c: Path, n: Node?, t: Tree)
    requires RepAll(head, c, n, t) && c.Frame?
    ensures RepAll(head, c.up, c.node, Leave(c, t)) && AllNodes(c.up, Leave(c, t)) == AllNodes(c, t)
  {
    hide Rep;
    MakeRep(c.node, c.dir, t, c.other);
    var u := Leave(c, t);
    KidNodes(u, c.dir);
    assert Kid(u, c.dir) == t && Kid(u, 1 - c.dir) == c.other;
  }

  lemma {:induction false} Whole(head: Node, c: Path, n: Node?, t: Tree)
    requires RepAll(head, c, n, t)
    ensures RepAll(head, Top, head.link[1], Plug(c, t)) && Nodes(Plug(c, t)) == AllNodes(c, t)
  {
    if c.Frame? {
      Up(head, c, n, t);
      hide Rep, RepPath, Apart;
      Whole(head, c.up, c.node, Leave(c, t));
      KidNodes(Leave(c, t), c.dir);
      assert Kid(Leave(c, t), c.dir) == t && Kid(Leave(c, t), 1 - c.dir) == c.other;
    }
  }

  /** The owner of the link points to the subtree on the path's side only. */
  lemma OwnerSide(head: Node, c: Path, n: Node, t: Tree)
    requires RepAll(head, c, n, t)
    ensures (if Owner(head, c).link[1] == n then 1 else 0) == SlotSide(c)
  {
    RepRoot(n, t);
    if c.Frame? && c.dir == 0 { RepRoot(c.node.link[1], c.other); }
  }

  // ----- rotations

  lemma SingleNodes(t: Tree, dir: Side)
    requires t.T? && Kid(t, 1 - dir).T? && Distinct(t)
    ensures Nodes(SingleOf(t, dir)) == Nodes(t) && Distinct(SingleOf(t, dir))
    ensures SingleOf(t, dir).T? && SingleOf(t, dir).node == Kid(t, 1 - dir).node
  {
    var s := Kid(t, 1 - dir);
    var low := Make(t.node, true, t.data, dir, Kid(t, dir), Kid(s, dir));
    var r := SingleOf(t, dir);
    assert Kid(low, dir) == Kid(t, dir) && Kid(low, 1 - dir) == Kid(s, dir);
    assert Kid(r, dir) == low && Kid(r, 1 - dir) == Kid(s, 1 - dir);
    hide Make, SingleOf, Kid, Distinct, Nodes;
    KidNodes(t, dir);
    KidNodes(s, dir);
    KidNodes(low, dir);
    KidNodes(r, dir);
  }

  /** jsw_single */
  method Single(root: Node, dir: Side, ghost t: Tree) returns (save: Node)
    requires Rep(root, t) && Distinct(t) && t.T? && Kid(t, 1 - dir).T?
    modifies root, Kid(t, 1 - dir).node
    ensures Rep(save, SingleOf(t, dir)) && Distinct(SingleOf(t, dir)) && Nodes(SingleOf(t, dir)) == Nodes(t)
  {
    hide Rep, Distinct, Nodes;
    ghost var s := Kid(t, 1 - dir);
    KidRep(root, t, dir);
    KidRep(root, t, 1 - dir);
    KidRep(root.link[1 - dir], s, dir);
    KidRep(root.link[1 - dir], s, 1 - dir);
    KidNodes(t, dir);
    KidNodes(s, dir);
    SingleNodes(t, dir);
    RepRoot(root, t);
    RepRoot(root.link[1 - dir], s);
    save := root.link[1 - dir];
    root.link := root.link[1 - dir := save.link[dir]];
    save.link := save.link[dir := root];
    root.red := true;
    save.red := false;
    MakeRep(root, dir, Kid(t, dir), Kid(s, dir));
    MakeRep(save, dir, Make(t.node, true, t.data, dir, Kid(t, dir), Kid(s, dir)), Kid(s, 1 - dir));
  }

  lemma WithKidIs(t: Tree, dir: Side, k: Tree)
    requires t.T? && k.T?
    ensures
      var u := WithKid(t, 1 - dir, k); u.T? && Kid(u, dir) == Kid(t, dir) && Kid(u, 1 - dir) == k && u.node == t.node
    ensures WithKid(t, 1 - dir, k) == Make(t.node, t.red, t.data, 1 - dir, k, Kid(t, dir))
  {
  }

  /** jsw_double */
  method Double(root: Node, dir: Side, ghost t: Tree) returns (save: Node)
    requires Rep(root, t) && Distinct(t) && t.T? && Kid(t, 1 - dir).T? && Kid(Kid(t, 1 - dir), dir).T?
    modifies root, Kid(t, 1 - dir).node, Kid(Kid(t, 1 - dir), dir).node
    ensures Rep(save, DoubleOf(t, dir)) && Distinct(DoubleOf(t, dir)) && Nodes(DoubleOf(t, dir)) == Nodes(t)
  {
    hide Rep, Distinct, Nodes, Make, Kid;
    ghost var k := Kid(t, 1 - dir);
    KidRep(root, t, dir);
    KidRep(root, t, 1 - dir);
    KidNodes(t, dir);
    KidNodes(k, dir);
    RepRoot(root.link[1 - dir], k);
    KidRep(root.link[1 - dir], k, dir);
    RepRoot(k.node.link[dir], Kid(k, dir));
    RepRoot(root, t);
    SingleNodes(k, 1 - dir);
    assert allocated(Nodes(Kid(t, dir)));
    var inner := Single(root.link[1 - dir], 1 - dir, k);
    root.link := root.link[1 - dir := inner];
    ghost var u := WithKid(t, 1 - dir, SingleOf(k, 1 - dir));
    WithKidIs(t, dir, SingleOf(k, 1 - dir));
    MakeRep(root, 1 - dir, SingleOf(k, 1 - dir), Kid(t, dir));
    KidNodes(u, dir);
    save := Single(root, dir, u);
  }

  // ----- the other changes of the tree

  predicate IsRedNode(n: Node?)
    reads n
  {
    n != null && n.red
  }

  lemma RepColour(n: Node?, t: Tree)
    requires Rep(n, t)
    ensures IsRedNode(n) == IsRed(t)
  {
  }

  lemma KidColours(n: Node?, t: Tree)
    requires Rep(n, t) && t.T?
    ensures n != null && IsRedNode(n.link[0]) == IsRed(t.left) && IsRedNode(n.link[1]) == IsRed(t.right)
  {
  }

  lemma OpenAll(head: Node, c: Path, n: Node?, t: Tree)
    requires RepAll(head, c, n, t)
    ensures Apart(head, c, t) && RepPath(head, c) && Rep(n, t) && (n == null) == t.Leaf?
    ensures t.T? ==> n == t.node && n.red == t.red && n.data == t.data && n in Nodes(t)
    ensures c.Frame? ==> c.node.red == c.red && c.node.data == c.data && c.node in PathNodes(c)
    ensures Owner(head, c) in {head} + PathNodes(c) && Owner(head, c).link[SlotSide(c)] == n
    ensures head !in AllNodes(c, t) && PathNodes(c) !! Nodes(t)
  {
    RepRoot(n, t);
  }

  /** Stores n in the link the path ends in. */
  method Attach(ghost head: Node, ghost c: Path, x: Node, d: Side, n: Node?, ghost t: Tree)
    requires RepPath(head, c) && Apart(head, c, t) && Rep(n, t) && x == Owner(head, c) && d == SlotSide(c)
    modifies x
    ensures RepAll(head, c, n, t)
  {
    x.link := x.link[d := n];
  }

  lemma FlipNodes(t: Tree)
    requires t.T? && t.left.T? && t.right.T?
    ensures Nodes(FlipOf(t)) == Nodes(t) && Distinct(FlipOf(t)) == Distinct(t)
    ensures FlipOf(t) == Make(t.node, true, t.data, 0, Blacken(t.left), Blacken(t.right))
    ensures forall d: Side ::
        Blacken(Kid(t, d)) == Make(Kid(t, d).node, false, Kid(t, d).data, 0, Kid(t, d).left, Kid(t, d).right)
  {
  }

  /** Turns a node red and its two children black. */
  method FlipColours(q: Node, ghost head: Node, ghost c: Path, ghost t: Tree)
    requires RepAll(head, c, q, t) && t.T? && t.left.T? && t.right.T?
    modifies q, t.left.node, t.right.node
    ensures RepAll(head, c, q, FlipOf(t)) && Nodes(FlipOf(t)) == Nodes(t)
  {
    hide Rep, Nodes, Distinct, FlipOf, Blacken, Make, RepPath, PathNodes, DistinctPath, AllNodes;
    OpenAll(head, c, q, t);
    ghost var a, b := t.left, t.right;
    KidRep(q, t, 0);
    KidRep(q, t, 1);
    RepRoot(q.link[0], a);
    RepRoot(q.link[1], b);
    KidNodes(t, 0);
    KidNodes(a, 0);
    KidNodes(b, 0);
    FlipNodes(t);
    assert Blacken(Kid(t, 0)) == Blacken(a) && Blacken(Kid(t, 1)) == Blacken(b);
    q.red := true;
    q.link[0].red := false;
    q.link[1].red := false;
    MakeRep(a.node, 0, a.left, a.right);
    MakeRep(b.node, 0, b.left, b.right);
    MakeRep(q, 0, Blacken(a), Blacken(b));
  }

  lemma SamePlace(head: Node, c: Path, t: Tree, u: Tree)
    requires Apart(head, c, t) && Distinct(u) && Nodes(u) == Nodes(t)
    ensures Apart(head, c, u) && AllNodes(c, u) == AllNodes(c, t)
  {
  }

  lemma AllNodesIs(c: Path, t: Tree)
    ensures AllNodes(c, t) == PathNodes(c) + Nodes(t)
  {
  }

  lemma RedIs(n: Node?)
    ensures IsRedNode(n) == (n != null && n.red)
  {
  }

  lemma RedOf(t: Tree)
    ensures IsRed(t) == (t.T? && t.red)
  {
  }
}
