/** One step of the top-down erasure, on values: a red node is pushed down ahead of the descent. */
module JswErase {
  import opened Ordering
  import opened JswModel
  import opened JswInsert

  /** The node above, or the one reached, is red; or the node above is the root and has no red child. */
  predicate PushOk(c: Path, t: Tree) {
    c.Frame? ==> c.red || IsRed(t) || (c.up.Top? && !IsRed(c.other))
  }

  function Redden(t: Tree): Tree {
    if t.T? then t.(red := true) else t
  }

  /** The sibling hands a node over: its red child decides which rotation brings it up. */
  function Borrow(c: Path, t: Tree): Tree
    requires c.Frame? && t.T? && c.other.T? && (IsRed(Kid(c.other, c.dir)) || IsRed(Kid(c.other, 1 - c.dir)))
  {
    var u := Leave(c, Redden(t));
    FlipOf(if IsRed(Kid(c.other, c.dir)) then DoubleOf(u, c.dir) else SingleOf(u, c.dir))
  }

  /** How the loop goes on at a black node whose next node is black. */
  datatype Push = Nothing | Lower | Recolour | Rebalance

  function PushOf(c: Path, t: Tree, d: Side): Push
    requires t.T?
  {
    if t.red || IsRed(Kid(t, d)) then Nothing
    else if IsRed(Kid(t, 1 - d)) then Lower
    else if c.Top? || c.other.Leaf? then Nothing
    else if !IsRed(c.other.left) && !IsRed(c.other.right) then Recolour
    else Rebalance
  }

  function PushPath(c: Path, t: Tree, d: Side): Path
    requires t.T?
  {
    match PushOf(c, t, d)
    case Nothing => c
    case Lower => Enter(c, SingleOf(t, d), d)
    case Recolour => c.(red := false, other := Redden(c.other))
    case Rebalance => BorrowedPath(c, Borrow(c, t))
  }

  function PushTree(c: Path, t: Tree, d: Side): Tree
    requires t.T?
  {
    match PushOf(c, t, d)
    case Nothing => t
    case Lower => Kid(SingleOf(t, d), d)
    case Recolour => Redden(t)
    case Rebalance => Redden(t)
  }

  /** Down twice on the side of the path, into the subtree that was rebalanced. */
  function BorrowedPath(c: Path, r: Tree): Path
    requires c.Frame? && r.T? && Kid(r, c.dir).T?
  {
    Enter(Enter(c.up, r, c.dir), Kid(r, c.dir), c.dir)
  }

  // ----- lowering: the red child on the other side comes up

  lemma LowerIs(c: Path, t: Tree, d: Side)
    requires t.T? && PushOf(c, t, d).Lower?
    ensures var r, s := SingleOf(t, d), Kid(t, 1 - d);
      && r == Make(s.node, false, s.data, d, Make(t.node, true, t.data, d, Kid(t, d), Kid(s, d)), Kid(s, 1 - d))
      && PushPath(c, t, d) == Frame(s.node, false, s.data, d, Kid(s, 1 - d), c)
      && PushTree(c, t, d) == Make(t.node, true, t.data, d, Kid(t, d), Kid(s, d))
  {
  }

  lemma LowerFits(c: Path, t: Tree, d: Side)
    requires FitsTree(c, t) && t.T? && PushOf(c, t, d).Lower?
    ensures FitsTree(PushPath(c, t, d), PushTree(c, t, d))
  {
    var r, s := SingleOf(t, d), Kid(t, 1 - d);
    LowerIs(c, t, d);
    KidOk(t, d);
    KidOk(t, 1 - d);
    KidOk(s, d);
    KidOk(s, 1 - d);
    assert !t.red && !IsRed(Kid(t, d)) && s.red;
    hide PushOf, PushPath, PushTree, SingleOf, Make, Ok, Bh, Kid;
    MakeOk(t.node, true, t.data, d, Kid(t, d), Kid(s, d));
    MakeOk(s.node, false, s.data, d, PushTree(c, t, d), Kid(s, 1 - d));
  }

  lemma LowerBetween(c: Path, t: Tree, d: Side)
    requires t.T? && PushOf(c, t, d).Lower?
    ensures var c1, t1 := PushPath(c, t, d), PushTree(c, t, d);
      Before(Enter(c1, t1, d)) == Before(Enter(c, t, d)) && After(Enter(c1, t1, d)) == After(Enter(c, t, d))
  {
    var s := Kid(t, 1 - d);
    LowerIs(c, t, d);
    var near, far := Order(Kid(s, d)), Order(Kid(s, 1 - d));
    if d == 1 {
      assert Order(s) == far + [s.data] + near;
      hide PushOf, PushPath, PushTree, SingleOf, Order;
      assert (Before(c) + (far + [s.data])) + (near + [t.data]) == Before(c) + ((far + [s.data] + near) + [t.data]);
    } else {
      assert Order(s) == near + [s.data] + far;
      hide PushOf, PushPath, PushTree, SingleOf, Order;
      assert [t.data] + near + ([s.data] + far + After(c)) == [t.data] + (near + [s.data] + far) + After(c);
    }
  }

  // ----- recolouring: parent, node and sibling exchange colours

  lemma ReddenOk(t: Tree)
    requires Ok(t) && t.T? && !t.red && !IsRed(t.left) && !IsRed(t.right)
    ensures Ok(Redden(t)) && Bh(Redden(t)) + 1 == Bh(t)
  {
  }

  /** At a black node without red children, the sibling is a black node. */
  lemma SiblingBlack(c: Path, t: Tree)
    requires FitsTree(c, t) && PushOk(c, t) && c.Frame? && t.T? && !t.red
    ensures c.other.T? && !c.other.red && Ok(c.other) && Bh(c.other) == Bh(t) && Bh(t) > 0
    ensures c.red ==> Fits(c.up, true, Bh(t))
    ensures !c.red ==> c.up.Top?
  {
  }

  lemma RecolourFits(c: Path, t: Tree, d: Side)
    requires FitsTree(c, t) && PushOk(c, t) && t.T? && PushOf(c, t, d).Recolour?
    ensures FitsTree(PushPath(c, t, d), PushTree(c, t, d))
  {
    SiblingBlack(c, t);
    ReddenOk(t);
    ReddenOk(c.other);
    var c1, t1 := PushPath(c, t, d), PushTree(c, t, d);
    assert c1 == Frame(c.node, false, c.data, c.dir, Redden(c.other), c.up) && t1 == Redden(t);
    hide PushOf, PushPath, PushTree, PushOk, Ok;
    if c.red { BlackFits(c.up, Bh(t)); }
    MakeFits(c1, t1);
  }

  lemma MakeFits(c: Path, t: Tree)
    requires
      && Ok(t) && c.Frame? && Ok(c.other) && Bh(c.other) == Bh(t) && !c.red
      && (c.up.Top? || Fits(c.up, false, Bh(t) + 1))
    ensures FitsTree(c, t)
  {
  }

  // ----- rebalancing: a rotation at the parent

  lemma BorrowShape(c: Path, t: Tree)
    requires c.Frame? && t.T? && c.other.T? && (IsRed(Kid(c.other, c.dir)) || IsRed(Kid(c.other, 1 - c.dir)))
    ensures var e, s, r := c.dir, c.other, Borrow(c, t);
      && r.T?
      && (IsRed(Kid(s, e)) ==> r == Make(Kid(s, e).node, true, Kid(s, e).data, e,
          Make(c.node, false, c.data, e, Redden(t), Kid(Kid(s, e), e)), Make(s.node, false, s.data, e,
            Kid(Kid(s, e), 1 - e), Kid(s, 1 - e))))
      && (!IsRed(Kid(s, e)) ==>
            r ==
              Make(s.node, true, s.data, e, Make(c.node, false, c.data, e, Redden(t), Kid(s, e)),
                Blacken(Kid(s, 1 - e))))
  {
    var e, s, u := c.dir, c.other, Leave(c, Redden(t));
    assert Kid(u, 1 - e) == s && Kid(u, e) == Redden(t);
    hide Leave, Redden;
  }

  lemma BorrowFits(c: Path, t: Tree)
    requires FitsTree(c, t) && PushOk(c, t) && c.Frame? && t.T? && !t.red && !IsRed(t.left) && !IsRed(t.right)
    requires c.other.T? && (IsRed(Kid(c.other, c.dir)) || IsRed(Kid(c.other, 1 - c.dir)))
    ensures FitsTree(c.up, Borrow(c, t))
  {
    var e, s, r := c.dir, c.other, Borrow(c, t);
    SiblingBlack(c, t);
    ReddenOk(t);
    KidOk(s, e);
    KidOk(s, 1 - e);
    BorrowShape(c, t);
    var k := Kid(s, e);
    assert c.red || c.up.Top?;
    if IsRed(k) {
      KidOk(k, e);
      KidOk(k, 1 - e);
      var near, far :=
        Make(c.node, false, c.data, e, Redden(t), Kid(k, e)), Make(s.node, false, s.data, e, Kid(k, 1 - e),
          Kid(s, 1 - e));
      hide Borrow, Make, Ok, Redden, Kid, PushOk, Bh;
      MakeOk(c.node, false, c.data, e, Redden(t), Kid(k, e));
      MakeOk(s.node, false, s.data, e, Kid(k, 1 - e), Kid(s, 1 - e));
      MakeOk(k.node, true, k.data, e, near, far);
    } else {
      BlackenOk(Kid(s, 1 - e));
      var near, far := Make(c.node, false, c.data, e, Redden(t), k), Blacken(Kid(s, 1 - e));
      hide Borrow, Make, Ok, Redden, Kid, PushOk, Bh, Blacken;
      MakeOk(c.node, false, c.data, e, Redden(t), k);
      MakeOk(s.node, true, s.data, e, near, far);
    }
  }

  lemma BorrowKids(c: Path, t: Tree)
    requires c.Frame? && t.T? && c.other.T? && (IsRed(Kid(c.other, c.dir)) || IsRed(Kid(c.other, 1 - c.dir)))
    ensures var r := Borrow(c, t); r.T? && Kid(r, c.dir).T? && Kid(Kid(r, c.dir), c.dir) == Redden(t)
    ensures var r := Borrow(c, t);
      Kid(r, c.dir).node == c.node && Kid(r, c.dir).data == c.data && !Kid(r, c.dir).red && r.red
  {
    BorrowShape(c, t);
    hide Borrow;
  }

  lemma RebalanceFits(c: Path, t: Tree, d: Side)
    requires FitsTree(c, t) && PushOk(c, t) && t.T? && PushOf(c, t, d).Rebalance?
    ensures FitsTree(PushPath(c, t, d), PushTree(c, t, d))
  {
    BorrowFits(c, t);
    BorrowKids(c, t);
    var r := Borrow(c, t);
    hide Borrow, Ok, Fits, Kid, PushOk;
    EnterFits(c.up, r, c.dir);
    EnterFits(Enter(c.up, r, c.dir), Kid(r, c.dir), c.dir);
  }

  lemma BorrowBetween(c: Path, t: Tree)
    requires c.Frame? && t.T? && c.other.T? && (IsRed(Kid(c.other, c.dir)) || IsRed(Kid(c.other, 1 - c.dir)))
    requires Kid(Borrow(c, t), c.dir).T?
    ensures Before(BorrowedPath(c, Borrow(c, t))) == Before(c) && After(BorrowedPath(c, Borrow(c, t))) == After(c)
  {
    BorrowKids(c, t);
    hide *;
    var e, r, up := c.dir, Borrow(c, t), c.up;
    var c1 := BorrowedPath(c, r);
    BorrowedFrames(c, t);
    BorrowOrder(c, t);
    FrameBetween(c);
    FrameBetween(c1);
    FrameBetween(c1.up);
    Regroup(if e == 1 then Before(up) else After(up), Order(c1.up.other), r.data, Order(c1.other), c.data);
  }

  lemma BorrowedFrames(c: Path, t: Tree)
    requires c.Frame? && t.T? && c.other.T? && (IsRed(Kid(c.other, c.dir)) || IsRed(Kid(c.other, 1 - c.dir)))
    requires Borrow(c, t).T? && Kid(Borrow(c, t), c.dir).T?
    ensures var r, e := Borrow(c, t), c.dir;
      BorrowedPath(c, r) ==
        Frame(c.node, false, c.data, e, Kid(Kid(r, e), 1 - e), Frame(r.node, true, r.data, e, Kid(r, 1 - e), c.up))
  {
    BorrowKids(c, t);
    hide Borrow, Kid;
  }

  /** The sibling's elements are split between the parent and the new top. */
  lemma BorrowOrder(c: Path, t: Tree)
    requires c.Frame? && t.T? && c.other.T? && (IsRed(Kid(c.other, c.dir)) || IsRed(Kid(c.other, 1 - c.dir)))
    requires Kid(Borrow(c, t), c.dir).T?
    ensures var r, e := Borrow(c, t), c.dir;
      var inner, outer := Order(Kid(Kid(r, e), 1 - e)), Order(Kid(r, 1 - e));
      Order(c.other) == if e == 1 then outer + [r.data] + inner else inner + [r.data] + outer
  {
    var e, s, r := c.dir, c.other, Borrow(c, t);
    BorrowShape(c, t);
    var k, last := Kid(s, e), Kid(s, 1 - e);
    KidOrder(s, e);
    if IsRed(k) {
      assert
        && Kid(r, 1 - e) == Make(s.node, false, s.data, e, Kid(k, 1 - e), last)
        && Kid(Kid(r, e), 1 - e) == Kid(k, e) && r.data == k.data;
      hide *;
      KidOrder(k, e);
      MakeOrder(s.node, false, s.data, e, Kid(k, 1 - e), last);
      if e == 1 {
        Regroup(Order(Kid(k, e)), Order(last), s.data, Order(Kid(k, 1 - e)), k.data);
      } else {
        Regroup(Order(last), Order(Kid(k, e)), k.data, Order(Kid(k, 1 - e)), s.data);
      }
    } else {
      assert Kid(r, 1 - e) == Blacken(last) && Kid(Kid(r, e), 1 - e) == k && r.data == s.data;
      hide *;
      BlackenOrder(last);
    }
  }

  lemma BlackenOrder(t: Tree)
    ensures Order(Blacken(t)) == Order(t)
  {
  }

  // ----- one step, all cases

  lemma PushFits(c: Path, t: Tree, d: Side)
    requires FitsTree(c, t) && PushOk(c, t) && t.T?
    ensures FitsTree(PushPath(c, t, d), PushTree(c, t, d))
  {
    match PushOf(c, t, d)
    case Nothing =>
    case Lower => LowerFits(c, t, d);
    case Recolour => RecolourFits(c, t, d);
    case Rebalance => RebalanceFits(c, t, d);
  }

  /** The next node is the one it would have been without the repairs, and red is ahead of it. */
  lemma PushNext(c: Path, t: Tree, d: Side)
    requires FitsTree(c, t) && PushOk(c, t) && t.T?
    ensures var c1, t1 := PushPath(c, t, d), PushTree(c, t, d);
      && t1.T? && t1.node == t.node && t1.data == t.data && Kid(t1, d) == Kid(t, d)
      && PushOk(Enter(c1, t1, d), Kid(t1, d))
  {
    match PushOf(c, t, d)
    case Nothing => if c.Frame? && !t.red && c.other.Leaf? { SiblingBlack(c, t); }
    case Lower => LowerIs(c, t, d);
    case Recolour =>
    case Rebalance =>
  }

  lemma PushBetween(c: Path, t: Tree, d: Side)
    requires FitsTree(c, t) && PushOk(c, t) && t.T?
    ensures var c1, t1 := PushPath(c, t, d), PushTree(c, t, d);
      t1.T? && Before(Enter(c1, t1, d)) == Before(Enter(c, t, d)) && After(Enter(c1, t1, d)) == After(Enter(c, t, d))
  {
    PushNext(c, t, d);
    match PushOf(c, t, d)
    case Nothing =>
    case Lower => LowerBetween(c, t, d);
    case Recolour =>
    case Rebalance =>
      BorrowKids(c, t);
      BorrowBetween(c, t);
      hide Borrow, BorrowedPath, PushOk, Ok, Fits;
  }

  // ----- the element to erase

  /** Node n is on the path, and the path went on to the element just before it. */
  ghost predicate Passed(c: Path, n: Node) {
    c.Frame? && ((c.node == n && c.dir == 0) || (c.dir == 1 && Passed(c.up, n)))
  }

  /** The search has met no equal element, or it has met node n and is just before it. */
  ghost predicate Tracks(cmp: Cmp, c: Path, n: Node?, key: int) {
    && AllLess(cmp, Before(c), key)
    && (n == null ==> AllMore(cmp, After(c), key))
    && (n != null ==> Passed(c, n) && After(c) != [] && cmp(After(c)[0], key) == 0)
  }

  lemma PushPassed(c: Path, t: Tree, d: Side, n: Node)
    requires FitsTree(c, t) && PushOk(c, t) && t.T? && Passed(c, n) && d == 1
    ensures Passed(PushPath(c, t, d), n)
  {
    match PushOf(c, t, d)
    case Nothing =>
    case Lower => LowerIs(c, t, d);
    case Recolour =>
    case Rebalance =>
      BorrowKids(c, t);
      BorrowedFrames(c, t);
      hide Borrow;
  }

  /** One step keeps track of the element. */
  lemma TracksNext(cmp: Cmp, c: Path, t: Tree, n: Node?, key: int)
    requires
      && TotalPreorder(cmp) && FitsTree(c, t) && PushOk(c, t) && t.T? && Tracks(cmp, c, n, key)
      && Sorted(cmp, Spread(c, t))
    ensures PushTree(c, t, SideOf(cmp, t.data, key)).T?
    ensures var d := SideOf(cmp, t.data, key);
      Tracks(cmp, Enter(PushPath(c, t, d), PushTree(c, t, d), d), if cmp(t.data, key) == 0 then t.node else n, key)
  {
    var d := SideOf(cmp, t.data, key);
    PushNext(c, t, d);
    PushBetween(c, t, d);
    TracksBetween(cmp, c, t, n, key);
    if n != null && d == 1 { PushPassed(c, t, d, n); }
    hide PushPath, PushTree, PushOk, Ok, Fits, TotalPreorder, Before, After;
  }

  lemma TracksBetween(cmp: Cmp, c: Path, t: Tree, n: Node?, key: int)
    requires TotalPreorder(cmp) && t.T? && Tracks(cmp, c, n, key) && Sorted(cmp, Spread(c, t))
    ensures var e, order := Enter(c, t, SideOf(cmp, t.data, key)), cmp(t.data, key);
      && AllLess(cmp, Before(e), key)
      && (n != null ==> order < 0 && After(e) == After(c))
      && (n == null && order != 0 ==> AllMore(cmp, After(e), key))
      && (order == 0 ==> After(e) != [] && After(e)[0] == t.data)
  {
    hide *;
    var b, a, l, r := Before(c), After(c), Order(t.left), Order(t.right);
    SideIs(cmp, t.data, key);
    EnterBetween(c, t);
    OpenTracks(cmp, c, n, key);
    SpreadIs(c, t);
    if n != null { LessThan(cmp, b + l, t.data, r, a, key); }
    if cmp(t.data, key) < 0 {
      LessEnter(cmp, b, l, t.data, r + a, key);
    } else if n == null && cmp(t.data, key) > 0 {
      MoreAfter(cmp, b + l, t.data, r, a, key);
    }
  }

  lemma OpenTracks(cmp: Cmp, c: Path, n: Node?, key: int)
    requires Tracks(cmp, c, n, key)
    ensures AllLess(cmp, Before(c), key) && (n == null ==> AllMore(cmp, After(c), key))
    ensures n != null ==> Passed(c, n) && After(c) != [] && cmp(After(c)[0], key) == 0
  {
  }

  lemma EnterBetween(c: Path, t: Tree)
    requires t.T?
    ensures Before(Enter(c, t, 1)) == Before(c) + (Order(t.left) + [t.data]) && After(Enter(c, t, 1)) == After(c)
    ensures Before(Enter(c, t, 0)) == Before(c) && After(Enter(c, t, 0)) == [t.data] + Order(t.right) + After(c)
  {
  }

  lemma SpreadIs(c: Path, t: Tree)
    requires t.T?
    ensures Spread(c, t) == (Before(c) + Order(t.left)) + [t.data] + (Order(t.right) + After(c))
  {
    var b, a, l, r := Before(c), After(c), Order(t.left), Order(t.right);
    assert Spread(c, t) == b + (l + [t.data] + r) + a;
    hide *;
    assert b + (l + [t.data] + r) + a == (b + l) + [t.data] + (r + a);
  }

  lemma LessEnter(cmp: Cmp, b: seq<int>, l: seq<int>, x: int, rest: seq<int>, key: int)
    requires TotalPreorder(cmp) && AllLess(cmp, b, key) && cmp(x, key) < 0 && Sorted(cmp, (b + l) + [x] + rest)
    ensures AllLess(cmp, b + (l + [x]), key)
  {
    LessBefore(cmp, b, l, x, rest, key);
    hide TotalPreorder, Sorted;
    assert b + (l + [x]) == (b + l) + [x];
  }

  lemma LessThan(cmp: Cmp, b: seq<int>, x: int, r: seq<int>, a: seq<int>, key: int)
    requires TotalPreorder(cmp) && Sorted(cmp, b + [x] + (r + a)) && a != [] && cmp(a[0], key) == 0
    ensures cmp(x, key) < 0
  {
    var s := b + [x] + (r + a);
    assert s[|b|] == x && s[|b| + 1 + |r|] == a[0];
    LessThrough(cmp, x, a[0], key);
  }

  lemma MoreAfter(cmp: Cmp, b: seq<int>, x: int, r: seq<int>, a: seq<int>, key: int)
    requires TotalPreorder(cmp) && AllMore(cmp, a, key) && cmp(x, key) > 0 && Sorted(cmp, b + [x] + (r + a))
    ensures AllMore(cmp, [x] + r + a, key)
  {
    var s := b + [x] + (r + a);
    LessThrough(cmp, x, key, key);
    hide TotalPreorder;
    assert s[|b|] == x;
    forall i | 0 <= i < |r| ensures cmp(r[i], key) > 0 {
      assert s[|b| + 1 + i] == r[i];
      LessThrough(cmp, key, x, r[i]);
      LessThrough(cmp, r[i], key, key);
    }
  }

  // ----- the end: the node reached leaves the tree, and its element moves to the node found

  /** Node n, passed on the way, now holds v. */
  function SetData(c: Path, n: Node, v: int): Path {
    if c.Top? then c
    else if c.node == n && c.dir == 0 then c.(data := v)
    else c.(up := SetData(c.up, n, v))
  }

  /** The node without a next node is a red leaf, or the whole tree. */
  lemma LastIsLeaf(c: Path)
    requires FitsTree(c, Leaf) && PushOk(c, Leaf) && c.Frame?
    ensures c.other.Leaf? && (c.red || c.up.Top?) && FitsTree(c.up, Leaf)
  {
    assert Bh(c.other) == 0 && Ok(c.other);
    BhZero(c.other);
    if c.red { BlackFits(c.up, 0); }
  }

  lemma BhZero(t: Tree)
    requires Ok(t) && Bh(t) == 0
    ensures t.T? ==> t.red
  {
  }

  lemma SetDataFits(c: Path, n: Node, v: int, red: bool, bh: nat)
    requires Fits(c, red, bh)
    ensures Fits(SetData(c, n, v), red, bh)
  {
  }

  lemma {:induction false} SetDataBetween(c: Path, n: Node, v: int)
    requires Passed(c, n)
    ensures After(c) != [] && Before(SetData(c, n, v)) == Before(c) && After(SetData(c, n, v)) == [v] + After(c)[1..]
  {
    if c.node == n && c.dir == 0 {
      assert After(c) == [c.data] + (Order(c.other) + After(c.up));
    } else {
      SetDataBetween(c.up, n, v);
    }
  }

  /** What is left in the end, when node n was found. */
  function Left(c: Path, n: Node): Path
    requires c.Frame?
  {
    if c.node == n then c.up else SetData(c.up, n, c.data)
  }

  /** Taking out the node reached and keeping its element erases the element found. */
  lemma LeftSpread(cmp: Cmp, c: Path, n: Node, key: int)
    requires c.Frame? && c.other.Leaf? && Tracks(cmp, c, n, key) && (c.dir == 0 <==> c.node == n)
    ensures Spread(Left(c, n), Leaf) == EraseOf(cmp, Spread(c, Leaf), key)
  {
    var b, a, x := Before(c.up), After(c.up), c.data;
    FrameBetween(c);
    OpenTracks(cmp, c, n, key);
    if c.dir == 1 { SetDataBetween(c.up, n, x); }
    assert
      && Order(Leaf) == [] && Spread(c, Leaf) == Before(c) + [] + After(c)
      && Spread(Left(c, n), Leaf) == Before(Left(c, n)) + [] + After(Left(c, n));
    hide *;
    LeftEnds(cmp, b, x, a, key);
  }

  lemma LeftEnds(cmp: Cmp, b: seq<int>, x: int, a: seq<int>, key: int)
    ensures AllLess(cmp, b, key) && cmp(x, key) == 0 ==> EraseOf(cmp, b + [] + ([x] + [] + a), key) == b + [] + a
    ensures a != [] && AllLess(cmp, b + ([] + [x]), key) && cmp(a[0], key) == 0 ==>
      EraseOf(cmp, (b + ([] + [x])) + [] + a, key) == b + [] + ([x] + a[1..])
  {
    hide EraseOf;
    if AllLess(cmp, b, key) && cmp(x, key) == 0 {
      assert b + [] + ([x] + [] + a) == b + [x] + a && b + [] + a == b + a;
      ErasePresent(cmp, b, x, a, key);
    }
    if a != [] && AllLess(cmp, b + ([] + [x]), key) && cmp(a[0], key) == 0 {
      assert b + ([] + [x]) == b + [x];
      assert (b + [x]) + [] + a == (b + [x]) + [a[0]] + a[1..] && b + [] + ([x] + a[1..]) == (b + [x]) + a[1..];
      ErasePresent(cmp, b + [x], a[0], a[1..], key);
    }
  }

  lemma MissingSpread(cmp: Cmp, c: Path, key: int)
    requires Tracks(cmp, c, null, key)
    ensures EraseOf(cmp, Spread(c, Leaf), key) == Spread(c, Leaf)
  {
    assert Spread(c, Leaf) == Before(c) + After(c);
    EraseMissing(cmp, Spread(c, Leaf), key);
  }
}
