/** One step of the top-down insertion, on values. */
module JswInsert {
  import opened Ordering
  import opened JswModel

  function SideOf(cmp: Cmp, data: int, key: int): Side {
    if cmp(data, key) < 0 then 1 else 0
  }

  lemma SideIs(cmp: Cmp, data: int, key: int)
    ensures SideOf(cmp, data, key) == if cmp(data, key) < 0 then 1 else 0
  {
  }

  /** The search for the key has followed this path and not met an equal element. */
  ghost predicate Seeks(cmp: Cmp, c: Path, key: int) {
    AllLess(cmp, Before(c), key) && AllMore(cmp, After(c), key)
  }

  /** Two red children of a black node hand their blackness up. */
  function FlipOf(t: Tree): Tree
    requires t.T?
  {
    T(t.node, true, t.data, Blacken(t.left), Blacken(t.right))
  }

  /** A black node without two red children: the descent changes nothing at it. */
  predicate Quiet(t: Tree) {
    t.T? && !t.red && !(IsRed(t.left) && IsRed(t.right))
  }

  lemma FlipFits(c: Path, t: Tree)
    requires FitsTree(c, t) && t.T? && IsRed(t.left) && IsRed(t.right)
    ensures Ok(FlipOf(t)) && Fits(c, false, Bh(FlipOf(t))) && Order(FlipOf(t)) == Order(t)
    ensures Quiet(FlipOf(t).left) && Quiet(FlipOf(t).right)
  {
    FlipOk(t);
  }

  lemma FlipOk(t: Tree)
    requires Ok(t) && t.T? && IsRed(t.left) && IsRed(t.right)
    ensures Ok(FlipOf(t)) && Bh(FlipOf(t)) == Bh(t) && Order(FlipOf(t)) == Order(t) && !t.red
    ensures Size(FlipOf(t).left) == Size(t.left) && Size(FlipOf(t).right) == Size(t.right)
    ensures Quiet(FlipOf(t).left) && Quiet(FlipOf(t).right)
  {
    KidOk(t, 0);
    KidOk(t, 1);
    BlackenOk(t.left);
    BlackenOk(t.right);
  }

  /** The grandparent's subtree, put together from two frames. */
  function Grand(c: Path, t: Tree): Tree
    requires c.Frame? && c.up.Frame?
  {
    Leave(c.up, Leave(c, t))
  }

  /**
   * What a rotation at the grandparent leaves: the path to the subtree, and the subtree, at which the descent
   * goes on.
   */
  function RepairedPath(c: Path, t: Tree): Path
    requires c.Frame? && c.up.Frame? && t.T?
  {
    if c.dir == c.up.dir then Enter(c.up.up, SingleOf(Grand(c, t), 1 - c.dir), c.dir) else c.up.up
  }

  function RepairedTree(c: Path, t: Tree): Tree
    requires c.Frame? && c.up.Frame? && t.T?
  {
    if c.dir == c.up.dir then t else DoubleOf(Grand(c, t), 1 - c.up.dir)
  }

  /** A red node whose parent is red as well, at the end of a path that is red-black otherwise. */
  predicate RedRed(c: Path, t: Tree) {
    c.Frame? && c.red && c.up.Frame? && !IsRed(c.up.other) && IsRed(t) && Ok(t) && Fits(c, false, Bh(t))
  }

  lemma RedRedParts(c: Path, t: Tree)
    requires RedRed(c, t)
    ensures !c.up.red && Ok(c.other) && Bh(c.other) == Bh(t) && !IsRed(c.other)
    ensures Ok(c.up.other) && Bh(c.up.other) == Bh(t) && Fits(c.up.up, false, Bh(t) + 1)
  {
    assert Fits(c.up, true, Bh(t));
  }

  lemma SingleFits(c: Path, t: Tree)
    requires RedRed(c, t) && c.dir == c.up.dir
    ensures FitsTree(c.up.up, SingleOf(Grand(c, t), 1 - c.dir))
  {
    RedRedParts(c, t);
    var far := Make(c.up.node, true, c.up.data, c.dir, c.other, c.up.other);
    assert SingleOf(Grand(c, t), 1 - c.dir) == Make(c.node, false, c.data, c.dir, t, far);
    assert !IsRed(c.up.other);
    hide Make, SingleOf, Grand, Ok, Fits, Bh;
    MakeOk(c.up.node, true, c.up.data, c.dir, c.other, c.up.other);
    MakeOk(c.node, false, c.data, c.dir, t, far);
  }

  lemma DoubleFits(c: Path, t: Tree)
    requires RedRed(c, t) && c.dir != c.up.dir
    ensures FitsTree(c.up.up, DoubleOf(Grand(c, t), c.dir))
  {
    RedRedParts(c, t);
    var d := c.up.dir;
    var near := Make(c.node, true, c.data, d, c.other, Kid(t, d));
    var far := Make(c.up.node, true, c.up.data, d, Kid(t, c.dir), c.up.other);
    assert DoubleOf(Grand(c, t), c.dir) == Make(t.node, false, t.data, d, near, far);
    hide Make, DoubleOf, Grand, Ok, Fits, Bh;
    KidOk(t, 0);
    KidOk(t, 1);
    MakeOk(c.node, true, c.data, d, c.other, Kid(t, d));
    MakeOk(c.up.node, true, c.up.data, d, Kid(t, c.dir), c.up.other);
    MakeOk(t.node, false, t.data, d, near, far);
  }

  lemma GrandSpread(c: Path, t: Tree)
    requires c.Frame? && c.up.Frame? && t.T?
    ensures Spread(c.up.up, Grand(c, t)) == Spread(c, t)
    ensures Spread(RepairedPath(c, t), RepairedTree(c, t)) == Spread(c, t)
  {
    hide *;
    LeaveSpread(c, t);
    LeaveSpread(c.up, Leave(c, t));
    GrandIs(c, t);
    if c.dir == c.up.dir {
      SingleOrder(Grand(c, t), 1 - c.dir);
      SameOrderSpread(c.up.up, Grand(c, t), SingleOf(Grand(c, t), 1 - c.dir));
      EnterSpread(c.up.up, SingleOf(Grand(c, t), 1 - c.dir), c.dir);
    } else {
      DoubleOrder(Grand(c, t), 1 - c.up.dir);
      SameOrderSpread(c.up.up, Grand(c, t), DoubleOf(Grand(c, t), 1 - c.up.dir));
    }
  }

  lemma SameOrderSpread(c: Path, t: Tree, u: Tree)
    requires Order(t) == Order(u)
    ensures Spread(c, t) == Spread(c, u)
  {
  }

  lemma GrandIs(c: Path, t: Tree)
    requires c.Frame? && c.up.Frame? && t.T?
    ensures Grand(c, t) == Leave(c.up, Leave(c, t)) && Grand(c, t).T? && Kid(Grand(c, t), c.up.dir).T?
    ensures
      c.dir == c.up.dir ==> SingleOf(Grand(c, t), 1 - c.dir).T? && Kid(SingleOf(Grand(c, t), 1 - c.dir), c.dir) == t
    ensures c.dir == c.up.dir ==>
        RepairedPath(c, t) == Enter(c.up.up, SingleOf(Grand(c, t), 1 - c.dir), c.dir) && RepairedTree(c, t) == t
    ensures c.dir != c.up.dir ==> Kid(Kid(Grand(c, t), c.up.dir), 1 - c.up.dir).T?
    ensures
      c.dir != c.up.dir ==> RepairedPath(c, t) == c.up.up && RepairedTree(c, t) == DoubleOf(Grand(c, t), 1 - c.up.dir)
  {
  }

  /** The rotations repair a red child of a red parent. */
  lemma RepairFits(c: Path, t: Tree)
    requires RedRed(c, t)
    ensures FitsTree(RepairedPath(c, t), RepairedTree(c, t))
  {
    GrandIs(c, t);
    if c.dir == c.up.dir {
      SingleFits(c, t);
      EnterFits(c.up.up, SingleOf(Grand(c, t), 1 - c.dir), c.dir);
    } else {
      DoubleFits(c, t);
    }
  }

  /** After a double rotation the next node is red and the one after it is a child whose colour was just flipped. */
  lemma DoubleQuiet(cmp: Cmp, c: Path, t: Tree, key: int)
    requires c.Frame? && c.up.Frame? && t.T? && c.dir != c.up.dir && Seeks(cmp, c, key)
    requires Quiet(t.left) && Quiet(t.right)
    ensures RepairedTree(c, t).T? && RepairedTree(c, t).node == t.node && RepairedTree(c, t).data == t.data
    ensures forall e: Side :: IsRed(Kid(RepairedTree(c, t), e)) && Quieted(cmp, Kid(RepairedTree(c, t), e), key)
    ensures forall e: Side :: Remaining(cmp, key, Kid(RepairedTree(c, t), e), 2) < Size(t)
  {
    FrameSides(cmp, c, key);
    FrameSides(cmp, c.up, key);
    var r := RepairedTree(c, t);
    forall e: Side
      ensures IsRed(Kid(r, e)) && Quieted(cmp, Kid(r, e), key) && Remaining(cmp, key, Kid(r, e), 2) < Size(t)
    {
      var k := Kid(r, e);
      if e == c.up.dir {
        assert k == Make(c.node, true, c.data, c.up.dir, c.other, Kid(t, c.up.dir));
      } else {
        assert k == Make(c.up.node, true, c.up.data, c.up.dir, Kid(t, c.dir), c.up.other);
      }
    }
  }

  /** Every frame was left on the side the comparison says. */
  lemma FrameSides(cmp: Cmp, c: Path, key: int)
    requires c.Frame? && Seeks(cmp, c, key)
    ensures c.dir == SideOf(cmp, c.data, key) && Seeks(cmp, c.up, key)
  {
    var b, a := Before(c), After(c);
    if c.dir == 1 {
      assert b[|b| - 1] == c.data;
      assert forall i :: 0 <= i < |Before(c.up)| ==> b[i] == Before(c.up)[i];
    } else {
      assert a[0] == c.data;
      assert forall i :: 0 <= i < |After(c.up)| ==> a[1 + |Order(c.other)| + i] == After(c.up)[i];
    }
  }

  /** The rotations leave the descent between the same elements. */
  lemma RepairSeeks(cmp: Cmp, c: Path, t: Tree, key: int)
    requires c.Frame? && c.up.Frame? && t.T? && Seeks(cmp, c, key)
    ensures Seeks(cmp, RepairedPath(c, t), key)
  {
    if c.dir == c.up.dir {
      SingleBetween(c, t);
    } else {
      FrameSides(cmp, c, key);
      FrameSides(cmp, c.up, key);
    }
  }

  lemma SingleBetween(c: Path, t: Tree)
    requires c.Frame? && c.up.Frame? && t.T? && c.dir == c.up.dir
    ensures Before(RepairedPath(c, t)) == Before(c) && After(RepairedPath(c, t)) == After(c)
  {
    var d, top := c.dir, c.up.up;
    var far := Make(c.up.node, true, c.up.data, d, c.other, c.up.other);
    assert RepairedPath(c, t) == Frame(c.node, false, c.data, d, far, top);
    var o, g, p := Order(c.up.other), c.up.data, Order(c.other);
    if d == 1 {
      assert Order(far) == o + [g] + p;
      hide RepairedPath, Make, Order;
      assert (Before(top) + (o + [g])) + (p + [c.data]) == Before(top) + ((o + [g] + p) + [c.data]);
    } else {
      assert Order(far) == p + [g] + o;
      hide RepairedPath, Make, Order;
      assert [c.data] + p + ([g] + o + After(top)) == [c.data] + (p + [g] + o) + After(top);
    }
  }

  /** Going down at an element that differs from the key. */
  lemma SeeksEnter(cmp: Cmp, c: Path, t: Tree, key: int)
    requires TotalPreorder(cmp) && t.T? && Seeks(cmp, c, key) && Sorted(cmp, Spread(c, t)) && cmp(t.data, key) != 0
    ensures Seeks(cmp, Enter(c, t, SideOf(cmp, t.data, key)), key)
  {
    var b, a, l, r, s := Before(c), After(c), Order(t.left), Order(t.right), Spread(c, t);
    assert Order(t) == l + [t.data] + r;
    assert s == b + (l + [t.data] + r) + a;
    assert Before(Enter(c, t, 1)) == b + (l + [t.data]) && After(Enter(c, t, 0)) == [t.data] + r + a;
    LessThrough(cmp, t.data, key, key);
    hide Before, After, Order, Spread, TotalPreorder;
    assert s[|b| + |l|] == t.data;
    if cmp(t.data, key) < 0 {
      forall i | 0 <= i < |l| ensures cmp(l[i], key) < 0 {
        assert s[|b| + i] == l[i];
        LessThrough(cmp, l[i], t.data, key);
      }
    } else {
      forall i | 0 <= i < |r| ensures cmp(r[i], key) > 0 {
        assert s[|b| + |l| + 1 + i] == r[i];
        LessThrough(cmp, key, t.data, r[i]);
        LessThrough(cmp, r[i], key, key);
      }
    }
  }

  // ----- the helpers of the descent

  /** The next node on the way to the key is quiet. */
  ghost predicate Quieted(cmp: Cmp, f: Tree, key: int) {
    f.T? && Quiet(Kid(f, SideOf(cmp, f.data, key)))
  }

  /** Below a red node, whose sibling may be red only if it was itself just flipped, nothing is left to flip. */
  predicate Calm(c: Path, f: Tree) {
    c.Frame? ==>
      && (c.red ==> Quiet(f) || (c.up.Frame? && !IsRed(c.up.other)))
      && (IsRed(f) ==> !IsRed(c.other))
  }

  /** How far the helpers t and g lag behind: not at all; t is stale; t and g are stale. */
  ghost predicate Helpers(cmp: Cmp, key: int, head: Node, t: Node, g: Node?, p: Node?, last: Side, dir: Side, c: Path,
      f: Tree, stale: nat)
  {
    && (c.Top? ==> stale == 0 && p == null && g == null && t == head && f.T? && !f.red)
    && (c.Frame? ==> p == c.node && dir == c.dir)
    && (stale == 0 && c.Frame? && c.up.Top? ==> g == null && t == head)
    && (stale == 0 && c.Frame? && c.up.Frame? ==> g == c.up.node && last == c.up.dir && t == Owner(head, c.up.up))
    && (stale == 0 ==> Calm(c, f))
    && (stale == 1 ==> c.Frame? && c.up.Frame? && g == c.up.node && Quiet(f))
    && (stale == 2 ==> c.Frame? && g != null && IsRed(f) && Quieted(cmp, f, key))
    && stale <= 2
  }

  /** The node whose link the path ends in. */
  function Owner(head: Node, c: Path): Node {
    if c.Top? then head else c.node
  }

  ghost function Remaining(cmp: Cmp, key: int, f: Tree, stale: nat): nat {
    if stale == 2 && f.T? then Size(Kid(f, SideOf(cmp, f.data, key))) + 1 else Size(f)
  }

  /** While a helper is stale, the node reached needs neither a flip nor a rotation. */
  lemma StaleIsIdle(cmp: Cmp, key: int, head: Node, t: Node, g: Node?, p: Node?, last: Side, dir: Side, c: Path,
      f: Tree, stale: nat)
    requires Helpers(cmp, key, head, t, g, p, last, dir, c, f, stale) && FitsTree(c, f)
    requires stale > 0 || c.Top? || c.up.Top?
    ensures stale > 0 || c.Top? ==> f.T?
    ensures f.T? && c.Frame? && (stale > 0 || c.red) ==> !(IsRed(f.left) && IsRed(f.right))
    ensures c.Frame? && c.red ==> f.T? && !f.red
  {
  }

  /** Moving the helpers down when no rotation was made. */
  lemma MoveDown(cmp: Cmp, key: int, head: Node, t: Node, g: Node?, p: Node?, last: Side, dir: Side, c: Path,
      f0: Tree, f: Tree, stale: nat)
    requires Helpers(cmp, key, head, t, g, p, last, dir, c, f0, stale) && f.T? && FitsTree(c, f0)
    requires if f0.T? && IsRed(f0.left) && IsRed(f0.right) then f == FlipOf(f0) else f == f0
    ensures var e := SideOf(cmp, f.data, key);
      && Helpers(cmp, key, head, if g != null then g else t, p, f.node, dir, e, Enter(c, f, e), Kid(f, e),
           if stale == 2 then 1 else 0)
      && Remaining(cmp, key, Kid(f, e), if stale == 2 then 1 else 0) < Remaining(cmp, key, f0, stale)
  {
    KidOk(f0, 0);
    KidOk(f0, 1);
    if IsRed(f0.left) && IsRed(f0.right) {
      FlipOk(f0);
      assert stale == 0;
    }
    assert
      && Size(f0) == Size(f0.left) + 1 + Size(f0.right) && Size(f.left) == Size(f0.left)
      && Size(f.right) == Size(f0.right);
    hide Ok, Fits, Bh, Order, Size;
  }

  /** Moving the helpers down right after a single rotation: t is stale from now on. */
  lemma MoveDownSingle(cmp: Cmp, key: int, head: Node, t: Node, g: Node, p: Node, last: Side, c: Path, f0: Tree,
      f: Tree)
    requires
      && c.Frame? && c.up.Frame? && c.dir == c.up.dir && p == c.node && g == c.up.node && f0.T?
      && IsRed(f0.left) && IsRed(f0.right) && Ok(f0) && f == FlipOf(f0)
    ensures var e, c1 := SideOf(cmp, f.data, key), RepairedPath(c, f);
      && Helpers(cmp, key, head, g, p, f.node, c.dir, e, Enter(c1, f, e), Kid(f, e), 1)
      && Size(Kid(f, e)) < Size(f0)
  {
    FlipOk(f0);
    GrandIs(c, f);
    assert SingleOf(Grand(c, f), 1 - c.dir).node == c.node;
    hide Ok, Fits, Bh, Order, SingleOf, Grand;
  }

  /** Moving the helpers down right after a double rotation: t and g are stale from now on. */
  lemma MoveDownDouble(cmp: Cmp, key: int, head: Node, t: Node, g: Node, p: Node, last: Side, c: Path, f0: Tree,
      f: Tree)
    requires
      && c.Frame? && c.up.Frame? && c.dir != c.up.dir && p == c.node && g == c.up.node && f0.T?
      && IsRed(f0.left) && IsRed(f0.right) && Ok(f0) && f == FlipOf(f0)
    requires Seeks(cmp, c, key)
    ensures var r := RepairedTree(c, f); var e := SideOf(cmp, r.data, key);
      && r.node == f.node && r.data == f.data
      && Helpers(cmp, key, head, g, p, r.node, c.dir, e, Enter(c.up.up, r, e), Kid(r, e), 2)
      && Remaining(cmp, key, Kid(r, e), 2) < Size(f0)
  {
    FlipOk(f0);
    assert Size(f) == Size(f0);
    DoubleQuiet(cmp, c, f, key);
  }
}
