/** Walker's red-black tree: searching, and inserting in one pass downward. */
module JswTree {
  import opened Ordering
  import opened JswModel
  import opened JswInsert
  import opened JswHeap
  import opened JswErase
  import opened JswPush

  const SIZE_LIMIT := 0x1_0000_0000_0000_0000  // size_t wraps around here

  /** Repairs a red child of a red parent: single when q is on the same side of p as p is of g, double otherwise. */
  method Rotate(t: Node, g: Node, p: Node, q: Node, last: Side, ghost head: Node, ghost c: Path, ghost f: Tree)
    requires RepAll(head, c, q, f) && c.Frame? && c.up.Frame? && f.T?
    requires t == Owner(head, c.up.up) && g == c.up.node && p == c.node && last == c.up.dir
    modifies t, g, p, q
    ensures RepAll(head, RepairedPath(c, f), q, RepairedTree(c, f))
    ensures AllNodes(RepairedPath(c, f), RepairedTree(c, f)) == AllNodes(c, f)
  {
    hide *;
    ghost var top, u := c.up.up, Grand(c, f);
    GrandIs(c, f);
    OpenAll(head, c, q, f);
    Up(head, c, q, f);
    Up(head, c.up, p, Leave(c, f));
    GrandNodes(c, f);
    OwnerSide(head, top, g, u);
    OpenAll(head, top, g, u);
    LinkSide(head, c, q, f);
    assert allocated(PathNodes(c));
    var dir2: Side := if t.link[1] == g then 1 else 0;
    if q == p.link[last] {
      var s := Single(g, 1 - last, u);
      SamePlace(head, top, u, SingleOf(u, 1 - last));
      Attach(head, top, t, dir2, s, SingleOf(u, 1 - last));
      Down(head, top, s, SingleOf(u, 1 - last), c.dir);
      OpenAll(head, RepairedPath(c, f), SingleOf(u, 1 - last).node.link[c.dir], f);
    } else {
      var s := Double(g, 1 - last, u);
      SamePlace(head, top, u, DoubleOf(u, 1 - last));
      Attach(head, top, t, dir2, s, DoubleOf(u, 1 - last));
      OpenAll(head, top, s, DoubleOf(u, 1 - last));
      DoubleTop(c, f);
    }
  }

  /** Which nodes stand where in the grandparent's subtree. */
  lemma GrandNodes(c: Path, f: Tree)
    requires c.Frame? && c.up.Frame? && f.T?
    ensures Grand(c, f).node == c.up.node && Kid(Grand(c, f), c.up.dir).node == c.node
    ensures {c.up.node, c.node, f.node} <= Nodes(Grand(c, f)) && PathNodes(c.up.up) <= PathNodes(c)
    ensures c.dir != c.up.dir ==> Kid(Kid(Grand(c, f), c.up.dir), 1 - c.up.dir).node == f.node
  {
    KidNodes(Grand(c, f), c.up.dir);
    KidNodes(Leave(c, f), c.dir);
  }

  lemma DoubleTop(c: Path, f: Tree)
    requires c.Frame? && c.up.Frame? && f.T? && c.dir != c.up.dir
    ensures RepairedTree(c, f).T? && RepairedTree(c, f).node == f.node
  {
    GrandNodes(c, f);
    var u, last := Grand(c, f), c.up.dir;
    assert SingleOf(Kid(u, last), last).node == f.node;
    hide Grand;
  }

  /** q is the child of p on the path's side only. */
  lemma LinkSide(head: Node, c: Path, q: Node, f: Tree)
    requires RepAll(head, c, q, f) && c.Frame?
    ensures forall d: Side :: c.node.link[d] == q <==> d == c.dir
  {
    RepRoot(q, f);
    RepRoot(c.node.link[1 - c.dir], c.other);
  }

  // ----- how an insertion ends

  lemma InsertAtLeaf(cmp: Cmp, c: Path, n: Node, key: int)
    requires Seeks(cmp, c, key)
    ensures Spread(c, T(n, true, key, Leaf, Leaf)) == InsertOf(cmp, Spread(c, Leaf), key)
    ensures FitsTree(c, Leaf) ==>
        Ok(T(n, true, key, Leaf, Leaf)) && Fits(c, false, 0) && Bh(T(n, true, key, Leaf, Leaf)) == 0
  {
    InsertMissing(cmp, Before(c), After(c), key);
    assert Before(c) + [] + After(c) == Before(c) + After(c);
  }

  lemma InsertAtEqual(cmp: Cmp, c: Path, t: Tree, key: int)
    requires TotalPreorder(cmp) && Seeks(cmp, c, key) && t.T? && cmp(t.data, key) == 0 && Sorted(cmp, Spread(c, t))
    ensures InsertOf(cmp, Spread(c, t), key) == Spread(c, t)
  {
    var b, a, l, r := Before(c), After(c), Order(t.left), Order(t.right);
    assert Spread(c, t) == b + (l + [t.data] + r) + a == (b + l) + [t.data] + (r + a);
    hide Before, After, Order, Spread, InsertOf;
    LessBefore(cmp, b, l, t.data, r + a, key);
    InsertPresent(cmp, b + l, t.data, r + a, key);
  }

  /** The counter after ++size or --size. */
  function Counted(size: nat, change: int): nat {
    (size + change) % SIZE_LIMIT
  }

  /** In a word of 64 bits. */
  lemma CountedWraps(size: nat)
    requires size < 0x1_0000_0000_0000_0000
    ensures Counted(size, 1) == if size == 0xFFFF_FFFF_FFFF_FFFF then 0 else size + 1
    ensures Counted(size, -1) == if size == 0 then 0xFFFF_FFFF_FFFF_FFFF else size - 1
  {
  }

  /** The counter agrees with the number of elements. */
  predicate Counts(size: nat, s: seq<int>) {
    size == |s| % SIZE_LIMIT
  }

  /**
   * A counter that was right stays right exactly when the key was missing before an insertion; and exactly when it
   * was present before an erasure, or the tree was empty, where nothing is counted.
   */
  lemma SizeFollows(cmp: Cmp, s: seq<int>, key: int, size: nat)
    requires TotalPreorder(cmp) && Sorted(cmp, s) && Counts(size, s)
    ensures Counts(Counted(size, 1), InsertOf(cmp, s, key)) <==> !Holds(cmp, s, key)
    ensures Counts(if s == [] then size else Counted(size, -1), EraseOf(cmp, s, key)) <==>
        Holds(cmp, s, key) || s == []
  {
    hide InsertOf, EraseOf, Holds, Sorted, TotalPreorder;
    InsertIs(cmp, s, key);
    EraseIs(cmp, s, key);
  }

  lemma CmpSelf(cmp: Cmp, x: int)
    requires TotalPreorder(cmp)
    ensures cmp(x, x) == 0
  {
  }

  /** An insertion on its way down: the state of the loop. */
  ghost predicate Descending(cmp: Cmp, key: int, s: seq<int>, c: Path, f: Tree) {
    FitsTree(c, f) && Seeks(cmp, c, key) && Spread(c, f) == s && Sorted(cmp, s) && TotalPreorder(cmp)
  }

  /** The helpers after one step downward, were it taken from subtree f at the end of path c. */
  ghost predicate Moved(cmp: Cmp, key: int, head: Node, t: Node, g: Node?, p: Node?, q: Node, dir: Side, c: Path,
      f: Tree, stale: nat, remaining: nat)
  {
    f.T? && var e := SideOf(cmp, f.data, key);
    && Helpers(cmp, key, head, if g != null then g else t, p, q, dir, e, Enter(c, f, e), Kid(f, e), stale)
    && Remaining(cmp, key, Kid(f, e), stale) < remaining
  }

  lemma OpenMoved(cmp: Cmp, key: int, head: Node, t: Node, g: Node?, p: Node?, q: Node, dir: Side, c: Path, f: Tree,
      stale: nat, remaining: nat)
    requires Moved(cmp, key, head, t, g, p, q, dir, c, f, stale, remaining)
    ensures f.T? && var e := SideOf(cmp, f.data, key);
      && Helpers(cmp, key, head, if g != null then g else t, p, q, dir, e, Enter(c, f, e), Kid(f, e), stale)
      && Remaining(cmp, key, Kid(f, e), stale) < remaining
  {
  }

  lemma MovedSingle(cmp: Cmp, key: int, head: Node, t: Node, g: Node, p: Node, last: Side, c: Path, f0: Tree, f: Tree,
      remaining: nat)
    requires
      && c.Frame? && c.up.Frame? && c.dir == c.up.dir && p == c.node && g == c.up.node && f0.T?
      && IsRed(f0.left) && IsRed(f0.right) && Ok(f0) && f == FlipOf(f0)
    requires remaining == Size(f0)
    ensures Moved(cmp, key, head, t, g, p, f.node, c.dir, RepairedPath(c, f), RepairedTree(c, f), 1, remaining)
  {
    MoveDownSingle(cmp, key, head, t, g, p, last, c, f0, f);
  }

  lemma MovedDouble(cmp: Cmp, key: int, head: Node, t: Node, g: Node, p: Node, last: Side, c: Path, f0: Tree, f: Tree,
      remaining: nat)
    requires
      && c.Frame? && c.up.Frame? && c.dir != c.up.dir && p == c.node && g == c.up.node && f0.T?
      && IsRed(f0.left) && IsRed(f0.right) && Ok(f0) && f == FlipOf(f0)
    requires remaining == Size(f0) && Seeks(cmp, c, key)
    ensures Moved(cmp, key, head, t, g, p, f.node, c.dir, RepairedPath(c, f), RepairedTree(c, f), 2, remaining)
  {
    MoveDownDouble(cmp, key, head, t, g, p, last, c, f0, f);
  }

  lemma MovedPlain(cmp: Cmp, key: int, head: Node, t: Node, g: Node?, p: Node?, last: Side, dir: Side, c: Path,
      f0: Tree, n: Node, f: Tree, stale: nat)
    requires
      Helpers(cmp, key, head, t, g, p, last, dir, c, f0, stale) && FitsTree(c, f0) && Handled(f0, n, key, f) && f0.T?
    ensures Moved(cmp, key, head, t, g, p, n, dir, c, f, if stale == 2 then 1 else 0, Remaining(cmp, key, f0, stale))
  {
    MoveDown(cmp, key, head, t, g, p, last, dir, c, f0, f, stale);
  }

  lemma ExactRemaining(cmp: Cmp, key: int, f: Tree, stale: nat)
    requires stale != 2
    ensures Remaining(cmp, key, f, stale) == Size(f)
  {
  }

  /** The element at hand is the same before and after the rotation. */
  lemma RepairedData(c: Path, t: Tree)
    requires c.Frame? && c.up.Frame? && t.T?
    ensures RepairedTree(c, t).T? && RepairedTree(c, t).data == t.data
  {
    if c.dir != c.up.dir {
      var u, last := Grand(c, t), c.up.dir;
      assert Kid(Kid(u, last), 1 - last) == t;
      assert SingleOf(Kid(u, last), last).data == t.data;
      hide Grand;
    }
  }

  lemma NodesReached(head: Node, c: Path, f: Tree)
    ensures f.T? ==> f.node in AllNodes(c, f)
    ensures f.T? && f.left.T? ==> f.left.node in AllNodes(c, f)
    ensures f.T? && f.right.T? ==> f.right.node in AllNodes(c, f)
    ensures c.Frame? ==> c.node in AllNodes(c, f)
    ensures c.Frame? && c.up.Frame? ==> c.up.node in AllNodes(c, f) && Owner(head, c.up.up) in {head} + AllNodes(c, f)
  {
    assert f.T? ==> Nodes(f.left) <= Nodes(f) && Nodes(f.right) <= Nodes(f);
    if c.Frame? && c.up.Frame? {
      assert PathNodes(c.up.up) <= PathNodes(c.up) <= PathNodes(c);
      assert c.up.up.Frame? ==> c.up.up.node in PathNodes(c.up.up);
    }
  }

  lemma OpenDescending(cmp: Cmp, key: int, s: seq<int>, c: Path, f: Tree)
    requires Descending(cmp, key, s, c, f)
    ensures FitsTree(c, f) && Ok(f) && Seeks(cmp, c, key) && Spread(c, f) == s && Sorted(cmp, s) && TotalPreorder(cmp)
  {
  }

  lemma HandledIs(f: Tree, n: Node, key: int, fm: Tree)
    requires Handled(f, n, key, fm)
    ensures f.Leaf? ==> fm == T(n, true, key, Leaf, Leaf)
    ensures f.T? && IsRed(f.left) && IsRed(f.right) ==> fm == FlipOf(f)
    ensures f.T? ==> n == f.node && fm.node == n && fm.data == f.data
  {
  }

  /** What planting a leaf or flipping colours makes of the subtree reached. */
  ghost predicate Handled(f: Tree, n: Node, key: int, fm: Tree) {
    if f.Leaf? then fm == T(n, true, key, Leaf, Leaf)
    else if IsRed(f.left) && IsRed(f.right) then fm == FlipOf(f) && n == f.node
    else fm == f && n == f.node
  }

  lemma HandledFits(cmp: Cmp, s: seq<int>, c: Path, f: Tree, n: Node, key: int, fm: Tree)
    requires Descending(cmp, key, s, c, f) && Handled(f, n, key, fm)
    ensures fm.T? && fm.node == n && Ok(fm) && Fits(c, false, Bh(fm))
    ensures (IsRed(fm) && c.Frame? && c.red) || FitsTree(c, fm)
    ensures Spread(c, fm) == if f.Leaf? then InsertOf(cmp, s, key) else s
  {
    if f.Leaf? {
      InsertAtLeaf(cmp, c, n, key);
    } else {
      BlackFitsTree(c, f);
      if IsRed(f.left) && IsRed(f.right) { FlipFits(c, f); FlipOk(f); }
    }
    hide Ok, Order, Before, After, InsertOf, TotalPreorder;
    if fm.T? && (c.Top? || !c.red) { RedFits(c, Bh(fm)); }
  }

  lemma BlackFitsTree(c: Path, t: Tree)
    requires FitsTree(c, t)
    ensures Fits(c, false, Bh(t))
  {
  }

  lemma RedFits(c: Path, bh: nat)
    requires Fits(c, false, bh) && (c.Top? || !c.red)
    ensures Fits(c, true, bh)
  {
  }

  /** A rotation is asked for only while all helpers are exact. */
  lemma RotationReady(cmp: Cmp, key: int, head: Node, t: Node, g: Node?, p: Node?, last: Side, dir: Side, c: Path,
      f: Tree, stale: nat, n: Node, fm: Tree)
    requires Helpers(cmp, key, head, t, g, p, last, dir, c, f, stale) && FitsTree(c, f) && Handled(f, n, key, fm)
    requires fm.T? && Ok(fm) && Fits(c, false, Bh(fm)) && fm.red && c.Frame? && c.red
    ensures
      c.up.Frame? && RedRed(c, fm) && t == Owner(head, c.up.up) && g == c.up.node && p == c.node && last == c.up.dir
    ensures stale == 0 && (f.T? ==> IsRed(f.left) && IsRed(f.right))
  {
    hide Seeks, Size, Before, After, Order;
  }

  /** An erasure on its way down: the state of the loop, at the link that leads to subtree f. */
  ghost predicate Hunting(cmp: Cmp, key: int, s: seq<int>, c: Path, f: Tree, found: Node?) {
    && FitsTree(c, f) && PushOk(c, f) && Tracks(cmp, c, found, key) && Spread(c, f) == s && Sorted(cmp, s)
    && TotalPreorder(cmp) && (c.Top? ==> f.T?)
  }

  lemma OpenHunting(cmp: Cmp, key: int, s: seq<int>, c: Path, f: Tree, found: Node?)
    requires Hunting(cmp, key, s, c, f, found)
    ensures
      && FitsTree(c, f) && PushOk(c, f) && Tracks(cmp, c, found, key) && Spread(c, f) == s
      && Sorted(cmp, s) && TotalPreorder(cmp)
    ensures c.Top? ==> f.T?
  {
  }

  lemma StartHunting(cmp: Cmp, key: int, t: Tree)
    requires TotalPreorder(cmp) && Ok(t) && t.T? && Sorted(cmp, Order(t))
    ensures Hunting(cmp, key, Order(t), Top, t, null)
  {
    assert Spread(Top, t) == Order(t);
  }

  lemma MakeHunting(cmp: Cmp, key: int, s: seq<int>, c: Path, f: Tree, found: Node?)
    requires FitsTree(c, f) && PushOk(c, f) && Tracks(cmp, c, found, key) && Spread(c, f) == s && Sorted(cmp, s)
    requires TotalPreorder(cmp) && c.Frame?
    ensures Hunting(cmp, key, s, c, f, found)
  {
  }

  lemma HuntOn(cmp: Cmp, key: int, s: seq<int>, c: Path, f: Tree, found: Node?)
    requires Hunting(cmp, key, s, c, f, found) && f.T?
    ensures var d := SideOf(cmp, f.data, key); var c1, f1 := PushPath(c, f, d), PushTree(c, f, d);
      && f1.T? && f1.node == f.node && Kid(f1, d) == Kid(f, d)
      && Hunting(cmp, key, s, Enter(c1, f1, d), Kid(f1, d), if cmp(f.data, key) == 0 then f.node else found)
  {
    hide *;
    var d := SideOf(cmp, f.data, key);
    var c1, f1 := PushPath(c, f, d), PushTree(c, f, d);
    OpenHunting(cmp, key, s, c, f, found);
    PushNext(c, f, d);
    PushFits(c, f, d);
    PushBetween(c, f, d);
    TracksNext(cmp, c, f, found, key);
    EnterFits(c1, f1, d);
    EnterSpread(c, f, d);
    SpreadSame(Enter(c, f, d), Enter(c1, f1, d), Kid(f, d));
    EnterIs(c1, f1, d);
    MakeHunting(cmp, key, s, Enter(c1, f1, d), Kid(f1, d), if cmp(f.data, key) == 0 then f.node else found);
  }

  lemma SpreadSame(c: Path, d: Path, t: Tree)
    requires Before(c) == Before(d) && After(c) == After(d)
    ensures Spread(c, t) == Spread(d, t)
  {
  }

  class RbTree {
    const cmp: Cmp
    var root: Node?
    var size: nat
    ghost var tree: Tree

    ghost predicate Valid()
      reads this, Nodes(tree)
    {
      && TotalPreorder(cmp) && Rep(root, tree) && Distinct(tree) && Ok(tree) && !IsRed(tree)
      && Sorted(cmp, Order(tree))
    }

    /** The elements in ascending order. */
    ghost function Contents(): seq<int>
      reads this
    {
      Order(tree)
    }

    /** jsw_rbnew */
    constructor (cmp: Cmp)
      requires TotalPreorder(cmp)
      ensures Valid() && this.cmp == cmp && Contents() == [] && size == 0 && Nodes(tree) == {}
    {
      this.cmp := cmp;
      root, size, tree := null, 0, Leaf;
    }

    /** jsw_rbfind */
    method Find(data: int) returns (r: Node?)
      requires Valid()
      ensures r == null <==> !Holds(cmp, Contents(), data)
      ensures r != null ==> r in Nodes(tree) && cmp(r.data, data) == 0 && r.data in Contents()
    {
      OpenValid();
      var it := root;
      ghost var c, f := Top, tree;
      assert Spread(c, f) == Order(tree);
      while it != null
        invariant Rep(it, f) && Seeks(cmp, c, data) && Spread(c, f) == Order(tree) && Nodes(f) <= Nodes(tree)
        decreases Size(f)
      {
        hide *;
        RepRoot(it, f);
        var order := cmp(it.data, data);
        if order == 0 {
          KeyHere(cmp, c, f, data);
          return it;
        }
        ghost var d := SideOf(cmp, f.data, data);
        SideIs(cmp, f.data, data);
        SeeksEnter(cmp, c, f, data);
        EnterSpread(c, f, d);
        KidRep(it, f, d);
        KidNodes(f, d);
        KidSize(f, d);
        c, f := Enter(c, f, d), Kid(f, d);
        it := it.link[if order < 0 then 1 else 0];
      }
      r := null;
      hide *;
      RepRoot(it, f);
      NotHere(cmp, c, data);
    }

    /** One turn of the loop of jsw_rbinsert, up to the comparison. */
    method Visit(t: Node, g: Node?, p: Node?, q: Node?, last: Side, dir: Side, data: int,
        ghost head: Node, ghost s: seq<int>, ghost c: Path, ghost f: Tree, ghost stale: nat)
      returns (q1: Node, ghost c1: Path, ghost f1: Tree, ghost stale1: nat)
      requires
        && RepAll(head, c, q, f) && Descending(cmp, data, s, c, f)
        && Helpers(cmp, data, head, t, g, p, last, dir, c, f, stale)
      modifies {head} + AllNodes(c, f)
      ensures RepAll(head, c1, q1, f1) && f1.T? && FitsTree(c1, f1)
      ensures q == null ==>
          && fresh(q1) && cmp(f1.data, data) == 0 && Spread(c1, f1) == InsertOf(cmp, s, data)
          && AllNodes(c1, f1) == AllNodes(c, f) + {q1}
      ensures q != null ==> Spread(c1, f1) == s && Seeks(cmp, c1, data) && AllNodes(c1, f1) == AllNodes(c, f)
      ensures q != null ==> Moved(cmp, data, head, t, g, p, q1, dir, c1, f1, stale1, Remaining(cmp, data, f, stale))
    {
      hide *;
      OpenAll(head, c, q, f);
      OpenDescending(cmp, data, s, c, f);
      HelpersBasics(cmp, data, head, t, g, p, last, dir, c, f, stale);
      NodesReached(head, c, f);
      AllNodesIs(c, f);
      CmpSelf(cmp, data);
      assert allocated(AllNodes(c, f));
      ghost var fm := f;
      if q == null {
        var n := new Node(data);
        fm := T(n, true, data, Leaf, Leaf);
        LeafRep(head, c, n, fm);
        Attach(head, c, p, dir, n, fm);
        q1 := n;
      } else {
        KidColours(q, f);
        KidsRed(f);
        q1 := q;
        if IsRedNode(q.link[0]) && IsRedNode(q.link[1]) {
          FlipColours(q, head, c, f);
          fm := FlipOf(f);
        }
      }
      MakeHandled(f, q1, data, fm);
      HandledIs(f, q1, data, fm);
      HandledFits(cmp, s, c, f, q1, data, fm);
      OpenAll(head, c, q1, fm);
      AllNodesIs(c, fm);
      RedIs(q1);
      RedIs(p);
      RedOf(fm);
      c1, f1, stale1 := c, fm, if stale == 2 then 1 else 0;
      if IsRedNode(q1) && IsRedNode(p) {
        RotationReady(cmp, data, head, t, g, p, last, dir, c, f, stale, q1, fm);
        Rotate(t, g, p, q1, last, head, c, fm);
        c1, f1, stale1 := RepairedPath(c, fm), RepairedTree(c, fm), if c.dir == c.up.dir then 1 else 2;
        RepairFits(c, fm);
        GrandSpread(c, fm);
        RepairedData(c, fm);
        RepairSeeks(cmp, c, fm, data);
        if q != null {
          ExactRemaining(cmp, data, f, stale);
          if c.dir == c.up.dir {
            MovedSingle(cmp, data, head, t, g, p, last, c, f, fm, Size(f));
          } else {
            MovedDouble(cmp, data, head, t, g, p, last, c, f, fm, Size(f));
          }
        }
      } else if q != null {
        MovedPlain(cmp, data, head, t, g, p, last, dir, c, f, q1, fm, stale);
      }
    }

    /** A red-black tree but for the colour of its root. */
    ghost predicate RootMayBeRed()
      reads this, Nodes(tree)
    {
      TotalPreorder(cmp) && Rep(root, tree) && Distinct(tree) && Ok(tree) && Sorted(cmp, Order(tree))
    }

    lemma OpenLoose()
      requires RootMayBeRed()
      ensures
        && TotalPreorder(cmp) && Rep(root, tree) && Distinct(tree) && Ok(tree)
        && Sorted(cmp, Order(tree)) && Contents() == Order(tree)
    {
    }

    lemma CloseLoose()
      requires TotalPreorder(cmp) && Rep(root, tree) && Distinct(tree) && Ok(tree) && Sorted(cmp, Order(tree))
      ensures RootMayBeRed() && Contents() == Order(tree)
    {
    }

    /** The search for the place and the repairs on the way, in a tree that is not empty. */
    method InsertBelow(data: int)
      requires Valid() && root != null
      modifies this, Nodes(tree)
      ensures RootMayBeRed() && root != null && root in Nodes(tree) && fresh(Nodes(tree) - old(Nodes(tree)))
      ensures Contents() == InsertOf(cmp, old(Contents()), data) && size == old(size)
    {
      hide *;
      OpenValid();
      ghost var s, N := Contents(), Nodes(tree);
      assert allocated(N);
      var head := new Node(0);
      head.red, head.link := false, [null, root];
      var t: Node, g: Node?, p: Node?, q: Node? := head, null, null, root;
      var dir: Side, last: Side := 0, 0;
      ghost var c, f, stale := Top, tree, 0;
      assert Rep(root, tree);
      StartAll(head, root, tree);
      StartDescent(cmp, data, head, tree);
      while true
        invariant
          && RepAll(head, c, q, f) && Descending(cmp, data, s, c, f)
          && Helpers(cmp, data, head, t, g, p, last, dir, c, f, stale)
        invariant fresh(head) && AllNodes(c, f) == N && size == old(size)
        decreases Remaining(cmp, data, f, stale)
      {
        hide *;
        OpenDescending(cmp, data, s, c, f);
        OpenAll(head, c, q, f);
        ghost var was, left, t0, g0, p0, dir0 := q, Remaining(cmp, data, f, stale), t, g, p, dir;
        var q1: Node;
        q1, c, f, stale := Visit(t, g, p, q, last, dir, data, head, s, c, f, stale);
        q := q1;
        OpenAll(head, c, q, f);
        if cmp(q.data, data) == 0 {
          if was != null { InsertAtEqual(cmp, c, f, data); }
          break;
        }
        ghost var e := SideOf(cmp, f.data, data);
        SideIs(cmp, f.data, data);
        last := dir;
        dir := if cmp(q.data, data) < 0 then 1 else 0;
        if g != null {
          t := g;
        }
        g, p := p, q;
        q := q.link[dir];
        EnterDescent(cmp, data, s, c, f);
        OpenMoved(cmp, data, head, t0, g0, p0, q1, dir0, c, f, stale, left);
        Down(head, c, q1, f, e);
        c, f := Enter(c, f, e), Kid(f, e);
      }
      ghost var whole := Plug(c, f);
      WholeTree(head, c, q, f);
      InsertIs(cmp, s, data);
      root := head.link[1];
      tree := whole;
      CloseLoose();
    }

    /** jsw_rbinsert */
    method Insert(data: int) returns (r: int)
      requires Valid()
      modifies this, Nodes(tree)
      ensures Valid() && r == 1 && fresh(Nodes(tree) - old(Nodes(tree)))
      ensures Contents() == InsertOf(cmp, old(Contents()), data)
      ensures size == Counted(old(size), 1)
      ensures Counts(old(size), old(Contents())) ==>
          (Counts(size, Contents()) <==> !Holds(cmp, old(Contents()), data))
    {
      hide *;
      OpenValid();
      ghost var s := Contents();
      if Counts(size, s) { SizeFollows(cmp, s, data, size); }
      assert allocated(Nodes(tree));
      if root == null {
        PlantRoot(data);
      } else {
        InsertBelow(data);
      }
      Finish(1);
      return 1;
    }

    /** The first node of a tree. */
    method PlantRoot(data: int)
      requires Valid() && root == null
      modifies this`root, this`tree
      ensures RootMayBeRed() && root != null && root in Nodes(tree) && fresh(Nodes(tree)) && size == old(size)
      ensures Contents() == InsertOf(cmp, old(Contents()), data)
    {
      root := new Node(data);
      tree := T(root, true, data, Leaf, Leaf);
    }

    /**
     * The search for the element, pushing a red node down, and the removal; the tree is not empty. Returns what is
     * handed to rel.
     */
    method EraseBelow(data: int) returns (released: seq<int>)
      requires Valid() && root != null
      modifies this, Nodes(tree)
      ensures RootMayBeRed() && (root != null ==> root in Nodes(tree)) && Nodes(tree) <= old(Nodes(tree))
      ensures Contents() == EraseOf(cmp, old(Contents()), data) && size == old(size)
      ensures Released(cmp, old(Contents()), data, released)
    {
      hide *;
      OpenValid();
      ghost var s, N := Contents(), Nodes(tree);
      assert allocated(N);
      RepRoot(root, tree);
      var head := new Node(0);
      head.red, head.link := false, [null, root];
      assert Rep(root, tree);
      StartAll(head, root, tree);
      StartHunting(cmp, data, tree);
      TopIs(head);
      var q: Node, p: Node?, g: Node? := head, null, null;
      var f: Node? := null;
      var dir: Side := 1;
      ghost var c, t := Top, tree;
      while q.link[dir] != null
        invariant RepAll(head, c, q.link[dir], t) && Hunting(cmp, data, s, c, t, f)
        invariant q == Owner(head, c) && dir == SlotSide(c) && (c.Frame? ==> p == Owner(head, c.up))
        invariant fresh(head) && AllNodes(c, t) <= N && size == old(size)
        decreases Size(t)
      {
        hide *;
        var last := dir;
        g, p := p, q;
        q := q.link[dir];
        OpenAll(head, c, q, t);
        OpenHunting(cmp, data, s, c, t, f);
        SideIs(cmp, t.data, data);
        dir := if cmp(q.data, data) < 0 then 1 else 0;
        HuntOn(cmp, data, s, c, t, f);
        if cmp(q.data, data) == 0 {
          f := q;
        }
        p := PushRed(q, p, g, last, dir, head, c, t);
        ghost var c1, t1 := PushPath(c, t, dir), PushTree(c, t, dir);
        Down(head, c1, q, t1, dir);
        EnterIs(c1, t1, dir);
        EnterOwner(head, c1, t1, dir);
        KidSize(t, dir);
        c, t := Enter(c1, t1, dir), Kid(t1, dir);
      }
      OpenHunting(cmp, data, s, c, t, f);
      OpenAll(head, c, null, t);
      released := [];
      if f != null {
        LastFound(cmp, head, c, f, data);
        AllNodesIs(c, Leaf);
        ReleasedFound(cmp, head, c, f, data);
        released := [f.data];
        Replace(f, q, p, head, c);
        LeftSpread(cmp, c, f, data);
        c := Left(c, f);
      } else {
        MissingSpread(cmp, c, data);
        ReleasedNone(cmp, s, data);
      }
      ghost var whole := Plug(c, Leaf);
      WholeTree(head, c, null, Leaf);
      EraseIs(cmp, s, data);
      root := head.link[1];
      tree := whole;
      RepRoot(root, tree);
      CloseLoose();
    }

    /** jsw_rberase: the answer, and what is handed to rel. */
    method Erase(data: int) returns (r: int, released: seq<int>)
      requires Valid()
      modifies this, Nodes(tree)
      ensures Valid() && r == 1 && Nodes(tree) <= old(Nodes(tree))
      ensures Contents() == EraseOf(cmp, old(Contents()), data)
      ensures size == if old(Contents()) == [] then old(size) else Counted(old(size), -1)
      ensures Counts(old(size), old(Contents())) ==>
          (Counts(size, Contents()) <==> Holds(cmp, old(Contents()), data) || old(Contents()) == [])
      ensures r == (if |Contents()| < |old(Contents())| then 1 else 0) <==> Holds(cmp, old(Contents()), data)
      ensures Released(cmp, old(Contents()), data, released)
    {
      hide *;
      OpenValid();
      ghost var s := Contents();
      if Counts(size, s) { SizeFollows(cmp, s, data, size); }
      EraseIs(cmp, s, data);
      RepRoot(root, tree);
      EmptyOrder(tree);
      if root != null {
        released := EraseBelow(data);
        Finish(-1);
      } else {
        EraseNone(cmp, data);
        ReleasedNone(cmp, [], data);
        released := [];
      }
      r := 1;
    }

    /** Makes the root black, and counts. */
    method Finish(change: int)
      requires RootMayBeRed() && (root != null ==> root in Nodes(tree))
      modifies this`tree, this`size, root
      ensures Valid() && Contents() == old(Contents()) && Nodes(tree) == old(Nodes(tree))
      ensures size == Counted(old(size), change)
    {
      OpenLoose();
      RepRoot(root, tree);
      BlackenOk(tree);
      if root != null {
        root.red := false;
      }
      tree := Blacken(tree);
      size := Counted(size, change);
    }

    lemma OpenValid()
      requires Valid()
      ensures TotalPreorder(cmp) && Rep(root, tree) && Distinct(tree) && Ok(tree) && !IsRed(tree)
      ensures Sorted(cmp, Order(tree)) && Contents() == Order(tree)
    {
    }
  }

  lemma KidsRed(f: Tree)
    requires f.T?
    ensures IsRed(f.left) ==> f.left.T?
    ensures IsRed(f.right) ==> f.right.T?
  {
  }

  lemma HelpersBasics(cmp: Cmp, key: int, head: Node, t: Node, g: Node?, p: Node?, last: Side, dir: Side, c: Path,
      f: Tree, stale: nat)
    requires Helpers(cmp, key, head, t, g, p, last, dir, c, f, stale)
    ensures c.Top? ==> p == null && f.T? && Owner(head, c) == head && SlotSide(c) == 1
    ensures c.Frame? ==> p == c.node && dir == c.dir && Owner(head, c) == c.node && SlotSide(c) == c.dir
  {
  }

  lemma LeafRep(head: Node, c: Path, n: Node, t: Tree)
    requires
      && Apart(head, c, Leaf) && n !in {head} + PathNodes(c) && n.red && n.link == [null, null]
      && t == T(n, true, n.data, Leaf, Leaf)
    ensures Apart(head, c, t) && Rep(n, t) && Nodes(t) == {n} && Nodes(Leaf) == {}
  {
  }

  lemma MakeHandled(f: Tree, n: Node, key: int, fm: Tree)
    requires f.Leaf? ==> fm == T(n, true, key, Leaf, Leaf)
    requires f.T? ==> n == f.node && fm == if IsRed(f.left) && IsRed(f.right) then FlipOf(f) else f
    ensures Handled(f, n, key, fm)
  {
  }

  lemma WholeTree(head: Node, c: Path, n: Node?, t: Tree)
    requires RepAll(head, c, n, t) && FitsTree(c, t)
    ensures var u := Plug(c, t);
      && Rep(head.link[1], u) && Distinct(u) && Ok(u) && Order(u) == Spread(c, t) && Nodes(u) == AllNodes(c, t)
      && (t.T? ==> head.link[1] != null && head.link[1] in Nodes(u))
  {
    hide *;
    Whole(head, c, n, t);
    PlugOk(c, t);
    PlugOrder(c, t);
    OpenAll(head, Top, head.link[1], Plug(c, t));
  }

  lemma TopIs(head: Node)
    ensures Owner(head, Top) == head && SlotSide(Top) == 1
  {
  }

  lemma EnterOwner(head: Node, c: Path, t: Tree, d: Side)
    requires t.T?
    ensures Owner(head, Enter(c, t, d)) == t.node && SlotSide(Enter(c, t, d)) == d
  {
  }

  /** Where the search has ended with the element found. */
  lemma LastFound(cmp: Cmp, head: Node, c: Path, n: Node, key: int)
    requires FitsTree(c, Leaf) && PushOk(c, Leaf) && Tracks(cmp, c, n, key) && c.Frame?
    ensures c.other.Leaf? && FitsTree(c.up, Leaf) && Passed(c, n) && Fits(c.up, false, 0)
    ensures FitsTree(SetData(c.up, n, c.data), Leaf)
    ensures FitsTree(Left(c, n), Leaf)
    ensures Owner(head, c) == c.node && n in PathNodes(c) && Owner(head, c.up) in {head} + PathNodes(c)
  {
    PassedIn(c, n);
    LastIsLeaf(c);
    SetDataFits(c.up, n, c.data, false, 0);
  }

  /** What is handed to rel is the element that leaves the sequence, and nothing else. */
  ghost predicate Released(cmp: Cmp, s: seq<int>, key: int, released: seq<int>) {
    && multiset(s) == multiset(EraseOf(cmp, s, key)) + multiset(released)
    && forall y :: y in released ==> cmp(y, key) == 0
  }

  lemma ReleasedNone(cmp: Cmp, s: seq<int>, key: int)
    requires EraseOf(cmp, s, key) == s
    ensures Released(cmp, s, key, [])
  {
  }

  /** The node found still has the element it was found with. */
  lemma {:induction false} PassedData(head: Node, c: Path, n: Node)
    requires RepPath(head, c) && Passed(c, n)
    ensures After(c) != [] && After(c)[0] == n.data
  {
    if c.dir == 1 { PassedData(head, c.up, n); }
  }

  lemma ReleasedFound(cmp: Cmp, head: Node, c: Path, n: Node, key: int)
    requires RepPath(head, c) && Tracks(cmp, c, n, key)
    ensures Released(cmp, Spread(c, Leaf), key, [n.data])
  {
    PassedData(head, c, n);
    var b, a := Before(c), After(c);
    assert Spread(c, Leaf) == b + [a[0]] + a[1..] by { assert a == [a[0]] + a[1..]; assert Order(Leaf) == []; }
    ErasePresent(cmp, b, a[0], a[1..], key);
    hide EraseOf;
    assert multiset(b + [a[0]] + a[1..]) == multiset(b + a[1..]) + multiset([a[0]]);
  }

  lemma EmptyOrder(t: Tree)
    ensures Order(t) == [] <==> t.Leaf?
  {
  }

  lemma EraseNone(cmp: Cmp, key: int)
    ensures EraseOf(cmp, [], key) == []
  {
  }

  lemma StartAll(head: Node, n: Node?, t: Tree)
    requires Rep(n, t) && Distinct(t) && head !in Nodes(t) && head.link == [null, n]
    ensures RepAll(head, Top, n, t) && AllNodes(Top, t) == Nodes(t)
  {
  }

  lemma StartDescent(cmp: Cmp, key: int, head: Node, t: Tree)
    requires TotalPreorder(cmp) && Ok(t) && t.T? && !IsRed(t) && Sorted(cmp, Order(t))
    ensures Descending(cmp, key, Order(t), Top, t) && Helpers(cmp, key, head, head, null, null, 0, 0, Top, t, 0)
  {
    assert Spread(Top, t) == Order(t);
  }

  lemma EnterDescent(cmp: Cmp, key: int, s: seq<int>, c: Path, f: Tree)
    requires
      && FitsTree(c, f) && f.T? && Seeks(cmp, c, key) && Spread(c, f) == s && Sorted(cmp, s)
      && TotalPreorder(cmp) && cmp(f.data, key) != 0
    ensures var e := SideOf(cmp, f.data, key); Descending(cmp, key, s, Enter(c, f, e), Kid(f, e))
  {
    var e := SideOf(cmp, f.data, key);
    hide *;
    EnterFits(c, f, e);
    EnterSpread(c, f, e);
    SeeksEnter(cmp, c, f, key);
    MakeDescending(cmp, key, s, Enter(c, f, e), Kid(f, e));
  }

  lemma MakeDescending(cmp: Cmp, key: int, s: seq<int>, c: Path, f: Tree)
    requires FitsTree(c, f) && Seeks(cmp, c, key) && Spread(c, f) == s && Sorted(cmp, s) && TotalPreorder(cmp)
    ensures Descending(cmp, key, s, c, f)
  {
  }

  lemma KidSize(t: Tree, d: Side)
    requires t.T?
    ensures Size(Kid(t, d)) < Size(t)
  {
  }

  lemma KeyHere(cmp: Cmp, c: Path, t: Tree, key: int)
    requires t.T? && cmp(t.data, key) == 0
    ensures Holds(cmp, Spread(c, t), key) && t.data in Spread(c, t)
  {
    assert Spread(c, t)[|Before(c)| + |Order(t.left)|] == t.data;
  }

  lemma NotHere(cmp: Cmp, c: Path, key: int)
    requires Seeks(cmp, c, key)
    ensures !Holds(cmp, Spread(c, Leaf), key)
  {
  }

  // ----- the counter and the answer go wrong

  lemma DriftSteps(cmp: Cmp)
    requires TotalPreorder(cmp) && cmp(1, 2) != 0
    ensures InsertOf(cmp, [], 1) == [1] && InsertOf(cmp, [1], 1) == [1] && EraseOf(cmp, [1], 2) == [1]
  {
    CmpSelf(cmp, 1);
  }

  /** Inserting 1 twice counts two for one element. */
  method InsertDrifts(cmp: Cmp) returns (tree: RbTree)
    requires TotalPreorder(cmp) && cmp(1, 2) != 0
    ensures tree.Valid() && tree.Contents() == [1] && tree.size == 2
  {
    DriftSteps(cmp);
    hide TotalPreorder, InsertOf, EraseOf, Holds, RbTree.Valid, RbTree.Contents;
    tree := new RbTree(cmp);
    var r := tree.Insert(1);
    r := tree.Insert(1);
  }

  /** Erasing 2 from the tree of 1 is answered as a success, and counts none for one element. */
  method EraseDrifts(cmp: Cmp) returns (tree: RbTree, answer: int)
    requires TotalPreorder(cmp) && cmp(1, 2) != 0
    ensures tree.Valid() && tree.Contents() == [1] && tree.size == 0 && answer == 1
  {
    DriftSteps(cmp);
    hide TotalPreorder, InsertOf, EraseOf, Holds, RbTree.Valid, RbTree.Contents;
    tree := new RbTree(cmp);
    answer := tree.Insert(1);
    var released;
    answer, released := tree.Erase(2);
  }
}
