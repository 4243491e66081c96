/** Walker's red-black tree as values: subtrees, the path that leads to one, colours and order. */
module JswModel {
  import Bits
  import opened Ordering

  type Side = d: int | 0 <= d < 2

  type Links = s: seq<Node?> | |s| == 2 witness [null, null]

  class Node {
    var red: bool
    var data: int
    var link: Links

    /** new_node */
    constructor (data: int)
      ensures this.red && this.data == data && link == [null, null]
    {
      this.data := data;
      red, link := true, [null, null];
    }
  }

  datatype Tree = Leaf | T(node: Node, red: bool, data: int, left: Tree, right: Tree)

  function Kid(t: Tree, d: Side): Tree
    requires t.T?
  {
    if d == 0 then t.left else t.right
  }

  /** A tree with near on side d and far on the other. */
  function Make(node: Node, red: bool, data: int, d: Side, near: Tree, far: Tree): Tree {
    if d == 0 then T(node, red, data, near, far) else T(node, red, data, far, near)
  }

  /** The way from the top to a subtree, innermost frame first; each frame keeps the child not taken. */
  datatype Path = Top | Frame(node: Node, red: bool, data: int, dir: Side, other: Tree, up: Path)

  function Enter(c: Path, t: Tree, d: Side): Path
    requires t.T?
  {
    Frame(t.node, t.red, t.data, d, Kid(t, 1 - d), c)
  }

  function Leave(c: Path, t: Tree): Tree
    requires c.Frame?
  {
    Make(c.node, c.red, c.data, c.dir, t, c.other)
  }

  lemma EnterIs(c: Path, t: Tree, d: Side)
    requires t.T?
    ensures var e := Enter(c, t, d); e.Frame? && e.up == c && e.node == t.node && e.dir == d && e.other == Kid(t, 1 - d)
  {
  }

  function Plug(c: Path, t: Tree): Tree {
    if c.Top? then t else Plug(c.up, Leave(c, t))
  }

  function Size(t: Tree): nat {
    if t.Leaf? then 0 else Size(t.left) + 1 + Size(t.right)
  }

  // ----- colours

  predicate IsRed(t: Tree) {
    t.T? && t.red
  }

  function Bh(t: Tree): nat {
    if t.Leaf? then 0 else Bh(t.left) + (if t.red then 0 else 1)
  }

  /** No red node has a red child, and black counts agree on all paths; the root may be red. */
  predicate Ok(t: Tree) {
    t.T? ==> Ok(t.left) && Ok(t.right) && Bh(t.left) == Bh(t.right) && (t.red ==> !IsRed(t.left) && !IsRed(t.right))
  }

  /** A tree of the given root colour and black count fits at the end of the path. */
  predicate Fits(c: Path, red: bool, bh: nat) {
    c.Frame? ==>
      && Ok(c.other) && Bh(c.other) == bh && (c.red ==> !red && !IsRed(c.other))
      && Fits(c.up, c.red, bh + (if c.red then 0 else 1))
  }

  predicate FitsTree(c: Path, t: Tree) {
    Ok(t) && Fits(c, IsRed(t), Bh(t))
  }

  lemma EnterFits(c: Path, t: Tree, d: Side)
    requires FitsTree(c, t) && t.T?
    ensures FitsTree(Enter(c, t, d), Kid(t, d))
  {
  }

  lemma LeaveFits(c: Path, t: Tree)
    requires FitsTree(c, t) && c.Frame?
    ensures FitsTree(c.up, Leave(c, t))
  {
  }

  lemma MakeOk(node: Node, red: bool, data: int, d: Side, a: Tree, b: Tree)
    requires Ok(a) && Ok(b) && Bh(a) == Bh(b) && (red ==> !IsRed(a) && !IsRed(b))
    ensures var t := Make(node, red, data, d, a, b);
      Ok(t) && Bh(t) == Bh(a) + (if red then 0 else 1) && t.T? && t.red == red
  {
  }

  lemma KidOk(t: Tree, d: Side)
    requires Ok(t) && t.T?
    ensures Ok(Kid(t, d)) && Bh(t) == Bh(Kid(t, d)) + (if t.red then 0 else 1) && (t.red ==> !IsRed(Kid(t, d)))
  {
  }

  /** A tree that fits at the end of its path makes the whole tree red-black. */
  lemma {:induction false} PlugOk(c: Path, t: Tree)
    requires FitsTree(c, t)
    ensures Ok(Plug(c, t)) && (t.T? ==> Plug(c, t).T?)
  {
    if c.Frame? {
      LeaveFits(c, t);
      PlugOk(c.up, Leave(c, t));
    }
  }

  /** Where a red root fits, a black one does. */
  lemma BlackFits(c: Path, bh: nat)
    requires Fits(c, true, bh)
    ensures Fits(c, false, bh)
  {
  }

  function Blacken(t: Tree): Tree {
    if t.T? then t.(red := false) else t
  }

  lemma BlackenOk(t: Tree)
    requires Ok(t)
    ensures Ok(Blacken(t)) && !IsRed(Blacken(t)) && Order(Blacken(t)) == Order(t)
    ensures Bh(Blacken(t)) == Bh(t) + (if IsRed(t) then 1 else 0)
  {
  }

  // ----- height

  function Height(t: Tree): nat {
    if t.Leaf? then 0 else 1 + if Height(t.left) < Height(t.right) then Height(t.right) else Height(t.left)
  }

  lemma {:induction false} HeightBound(t: Tree)
    requires Ok(t)
    ensures Height(t) <= 2 * Bh(t) + (if IsRed(t) then 1 else 0)
    ensures Bits.Pow2(Bh(t)) <= Size(t) + 1
  {
    if t.T? {
      HeightBound(t.left);
      HeightBound(t.right);
    }
  }

  /** A red-black tree of fewer than 2^n nodes is at most 2n high. */
  lemma HeightLimit(t: Tree, n: nat)
    requires Ok(t) && !IsRed(t) && Size(t) < Bits.Pow2(n)
    ensures Height(t) <= 2 * n
  {
    HeightBound(t);
    hide Height, Size, Ok, Bh;
    if Bh(t) > n { Bits.Pow2Mono(n + 1, Bh(t)); }
  }

  // ----- the in-order sequence

  function Order(t: Tree): seq<int> {
    if t.Leaf? then [] else Order(t.left) + [t.data] + Order(t.right)
  }

  function Before(c: Path): seq<int> {
    if c.Top? then [] else if c.dir == 0 then Before(c.up) else Before(c.up) + (Order(c.other) + [c.data])
  }

  function After(c: Path): seq<int> {
    if c.Top? then [] else if c.dir == 1 then After(c.up) else [c.data] + Order(c.other) + After(c.up)
  }

  /** The whole sequence: before, in and after the subtree at the end of the path. */
  function Spread(c: Path, t: Tree): seq<int> {
    Before(c) + Order(t) + After(c)
  }

  lemma LeaveSpread(c: Path, t: Tree)
    requires c.Frame?
    ensures Spread(c.up, Leave(c, t)) == Spread(c, t)
  {
    FrameBetween(c);
    MakeOrder(c.node, c.red, c.data, c.dir, t, c.other);
    Split5(Before(c.up), Order(t), c.data, Order(c.other), After(c.up));
    assert Leave(c, t) == Make(c.node, c.red, c.data, c.dir, t, c.other);
    hide Order, Before, After, Make, Leave;
  }

  lemma Split5(b: seq<int>, m: seq<int>, x: int, o: seq<int>, a: seq<int>)
    ensures b + (m + [x] + o) + a == b + m + ([x] + o + a)
    ensures b + (o + [x] + m) + a == (b + (o + [x])) + m + a
  {
  }

  lemma EnterSpread(c: Path, t: Tree, d: Side)
    requires t.T?
    ensures Spread(Enter(c, t, d), Kid(t, d)) == Spread(c, t)
  {
    LeaveSpread(Enter(c, t, d), Kid(t, d));
    assert Leave(Enter(c, t, d), Kid(t, d)) == t;
  }

  lemma {:induction false} PlugOrder(c: Path, t: Tree)
    ensures Order(Plug(c, t)) == Spread(c, t)
  {
    if c.Top? {
      assert [] + Order(t) + [] == Order(t);
    } else {
      LeaveSpread(c, t);
      PlugOrder(c.up, Leave(c, t));
    }
  }

  lemma MakeOrder(node: Node, red: bool, data: int, d: Side, near: Tree, far: Tree)
    ensures Order(Make(node, red, data, d, near, far)) ==
        if d == 1 then Order(far) + [data] + Order(near) else Order(near) + [data] + Order(far)
  {
  }

  lemma KidOrder(t: Tree, d: Side)
    requires t.T?
    ensures Order(t) ==
        if d == 1 then Order(Kid(t, 1 - d)) + [t.data] + Order(Kid(t, d))
        else Order(Kid(t, d)) + [t.data] + Order(Kid(t, 1 - d))
  {
  }

  lemma FrameBetween(c: Path)
    requires c.Frame?
    ensures Before(c) == if c.dir == 1 then Before(c.up) + (Order(c.other) + [c.data]) else Before(c.up)
    ensures After(c) == if c.dir == 1 then After(c.up) else [c.data] + Order(c.other) + After(c.up)
  {
  }

  /** Two elements on the way to the same place may stand in two frames, or in one frame and its side tree. */
  lemma Regroup(b: seq<int>, o: seq<int>, x: int, i: seq<int>, y: int)
    ensures (b + (o + [x])) + (i + [y]) == b + ((o + [x] + i) + [y])
    ensures [y] + i + ([x] + o + b) == [y] + (i + [x] + o) + b
    ensures (o + [x]) + (i + [y] + b) == (o + [x] + i) + [y] + b
    ensures (o + [x] + i) + [y] + b == o + [x] + (i + [y] + b)
  {
  }

  lemma {:induction false} SizeOrder(t: Tree)
    ensures |Order(t)| == Size(t)
  {
    if t.T? {
      SizeOrder(t.left);
      SizeOrder(t.right);
    }
  }

  // ----- rotations

  /** jsw_single */
  function SingleOf(t: Tree, dir: Side): Tree
    requires t.T? && Kid(t, 1 - dir).T?
  {
    var s := Kid(t, 1 - dir);
    Make(s.node, false, s.data, dir, Make(t.node, true, t.data, dir, Kid(t, dir), Kid(s, dir)), Kid(s, 1 - dir))
  }

  /** t with its child on side d replaced */
  function WithKid(t: Tree, d: Side, k: Tree): Tree
    requires t.T?
  {
    Make(t.node, t.red, t.data, d, k, Kid(t, 1 - d))
  }

  /** jsw_double */
  function DoubleOf(t: Tree, dir: Side): Tree
    requires t.T? && Kid(t, 1 - dir).T? && Kid(Kid(t, 1 - dir), dir).T?
  {
    SingleOf(WithKid(t, 1 - dir, SingleOf(Kid(t, 1 - dir), 1 - dir)), dir)
  }

  lemma SingleOrder(t: Tree, dir: Side)
    requires t.T? && Kid(t, 1 - dir).T?
    ensures Order(SingleOf(t, dir)) == Order(t)
  {
    var s := Kid(t, 1 - dir);
    var a, b, c := Order(Kid(t, dir)), Order(Kid(s, dir)), Order(Kid(s, 1 - dir));
    if dir == 0 {
      assert (a + [t.data] + b) + [s.data] + c == a + [t.data] + (b + [s.data] + c);
    } else {
      assert c + [s.data] + (b + [t.data] + a) == (c + [s.data] + b) + [t.data] + a;
    }
  }

  lemma DoubleOrder(t: Tree, dir: Side)
    requires t.T? && Kid(t, 1 - dir).T? && Kid(Kid(t, 1 - dir), dir).T?
    ensures Order(DoubleOf(t, dir)) == Order(t)
  {
    var k := Kid(t, 1 - dir);
    SingleOrder(k, 1 - dir);
    var u := WithKid(t, 1 - dir, SingleOf(k, 1 - dir));
    assert Order(u) == Order(t);
    SingleOrder(u, dir);
  }

  // ----- the sorted sequence as a set of keys

  ghost predicate Sorted(cmp: Cmp, s: seq<int>) {
    forall i, j :: 0 <= i < j < |s| ==> cmp(s[i], s[j]) < 0
  }

  ghost predicate AllLess(cmp: Cmp, s: seq<int>, key: int) {
    forall i :: 0 <= i < |s| ==> cmp(s[i], key) < 0
  }

  ghost predicate AllMore(cmp: Cmp, s: seq<int>, key: int) {
    forall i :: 0 <= i < |s| ==> cmp(s[i], key) > 0
  }

  ghost predicate Holds(cmp: Cmp, s: seq<int>, key: int) {
    exists i :: 0 <= i < |s| && cmp(s[i], key) == 0
  }

  /** The key joins the sequence at its place, unless an equal one is there. */
  function InsertOf(cmp: Cmp, s: seq<int>, key: int): seq<int> {
    if s == [] then [key]
    else if cmp(s[0], key) < 0 then [s[0]] + InsertOf(cmp, s[1..], key)
    else if cmp(s[0], key) == 0 then s
    else [key] + s
  }

  /** The element equal to the key leaves the sequence. */
  function EraseOf(cmp: Cmp, s: seq<int>, key: int): seq<int> {
    if s == [] then []
    else if cmp(s[0], key) == 0 then s[1..]
    else [s[0]] + EraseOf(cmp, s[1..], key)
  }

  lemma {:induction false} InsertMissing(cmp: Cmp, a: seq<int>, b: seq<int>, key: int)
    requires AllLess(cmp, a, key) && AllMore(cmp, b, key)
    ensures InsertOf(cmp, a + b, key) == a + [key] + b
  {
    if a == [] {
      assert a + b == b && a + [key] + b == [key] + b;
    } else {
      InsertMissing(cmp, a[1..], b, key);
      assert (a + b)[1..] == a[1..] + b && (a + b)[0] == a[0];
      assert [a[0]] + (a[1..] + [key] + b) == a + [key] + b;
    }
  }

  lemma {:induction false} InsertPresent(cmp: Cmp, a: seq<int>, x: int, b: seq<int>, key: int)
    requires AllLess(cmp, a, key) && cmp(x, key) == 0
    ensures InsertOf(cmp, a + [x] + b, key) == a + [x] + b
  {
    if a == [] {
      assert a + [x] + b == [x] + b;
    } else {
      InsertPresent(cmp, a[1..], x, b, key);
      assert (a + [x] + b)[1..] == a[1..] + [x] + b;
    }
  }

  lemma {:induction false} ErasePresent(cmp: Cmp, a: seq<int>, x: int, b: seq<int>, key: int)
    requires AllLess(cmp, a, key) && cmp(x, key) == 0
    ensures EraseOf(cmp, a + [x] + b, key) == a + b
  {
    if a == [] {
      assert a + [x] + b == [x] + b && a + b == b;
    } else {
      ErasePresent(cmp, a[1..], x, b, key);
      assert (a + [x] + b)[1..] == a[1..] + [x] + b;
      assert [a[0]] + (a[1..] + b) == a + b;
    }
  }

  lemma {:induction false} EraseMissing(cmp: Cmp, s: seq<int>, key: int)
    requires !Holds(cmp, s, key)
    ensures EraseOf(cmp, s, key) == s
  {
    if s != [] {
      assert forall i :: 0 <= i < |s| - 1 ==> s[1..][i] == s[i + 1];
      EraseMissing(cmp, s[1..], key);
    }
  }

  /** Where the key belongs in a sorted sequence. */
  lemma {:induction false} Split(cmp: Cmp, s: seq<int>, key: int) returns (k: nat)
    requires TotalPreorder(cmp) && Sorted(cmp, s)
    ensures k <= |s| && AllLess(cmp, s[..k], key)
    ensures if k < |s| && cmp(s[k], key) == 0 then AllMore(cmp, s[k + 1..], key) else AllMore(cmp, s[k..], key)
  {
    hide TotalPreorder;
    if s == [] {
      k := 0;
    } else {
      var n := |s| - 1;
      assert Sorted(cmp, s[..n]);
      k := Split(cmp, s[..n], key);
      assert s[..n][..k] == s[..k];
      LessThrough(cmp, s[n], key, key);
      if k == n && cmp(s[n], key) < 0 {
        k := |s|;
        assert s[..n] + [s[n]] == s;
      } else if k < n {
        LessThrough(cmp, key, s[k], s[n]);
        LessThrough(cmp, s[k], key, key);
        assert s[..n][k..] == s[k..n] && s[..n][k + 1..] == s[k + 1..n];
        assert cmp(s[k], key) == 0 || cmp(s[..n][k..][0], key) > 0;
        forall j | k < j < |s| ensures cmp(s[j], key) > 0 {
          LessThrough(cmp, key, s[k], s[j]);
          LessThrough(cmp, s[j], key, key);
        }
      }
    }
  }

  lemma EraseParts(cmp: Cmp, a: seq<int>, x: int, b: seq<int>, key: int)
    requires AllLess(cmp, a, key) && cmp(x, key) == 0 && AllMore(cmp, b, key) && Sorted(cmp, a + [x] + b)
    ensures Sorted(cmp, a + b) && !Holds(cmp, a + b, key) && Holds(cmp, a + [x] + b, key)
    ensures forall y :: y in a + b <==> y in a + [x] + b && cmp(y, key) != 0
  {
    var s, r := a + [x] + b, a + b;
    assert s[|a|] == x;
    forall i, j | 0 <= i < j < |r| ensures cmp(r[i], r[j]) < 0 {
      assert r[i] == s[if i < |a| then i else i + 1] && r[j] == s[if j < |a| then j else j + 1];
    }
  }

  /** Erasing takes away the one element equal to the key and keeps the rest, in order. */
  lemma EraseIs(cmp: Cmp, s: seq<int>, key: int)
    requires TotalPreorder(cmp) && Sorted(cmp, s)
    ensures Sorted(cmp, EraseOf(cmp, s, key)) && !Holds(cmp, EraseOf(cmp, s, key), key)
    ensures forall y :: y in EraseOf(cmp, s, key) <==> y in s && cmp(y, key) != 0
    ensures |EraseOf(cmp, s, key)| == if Holds(cmp, s, key) then |s| - 1 else |s|
  {
    var k := Split(cmp, s, key);
    hide TotalPreorder;
    if k < |s| && cmp(s[k], key) == 0 {
      var a, b := s[..k], s[k + 1..];
      assert s == a + [s[k]] + b;
      ErasePresent(cmp, a, s[k], b, key);
      hide EraseOf;
      EraseParts(cmp, a, s[k], b, key);
    } else {
      assert s == s[..k] + s[k..];
      assert !Holds(cmp, s, key) by {
        forall i | 0 <= i < |s| ensures cmp(s[i], key) != 0 {
          if i < k { assert s[..k][i] == s[i]; } else { assert s[k..][i - k] == s[i]; }
        }
      }
      EraseMissing(cmp, s, key);
      hide EraseOf;
    }
  }

  lemma InsertParts(cmp: Cmp, a: seq<int>, b: seq<int>, key: int)
    requires
      && AllLess(cmp, a, key) && AllMore(cmp, b, key) && Sorted(cmp, a + b)
      && forall j :: 0 <= j < |b| ==> cmp(key, b[j]) < 0
    ensures Sorted(cmp, a + [key] + b) && !Holds(cmp, a + b, key)
    ensures forall y :: y in a + [key] + b <==> y in a + b || y == key
  {
    var s, r := a + b, a + [key] + b;
    forall i, j | 0 <= i < j < |r| ensures cmp(r[i], r[j]) < 0 {
      if i != |a| && j != |a| {
        assert r[i] == s[if i < |a| then i else i - 1] && r[j] == s[if j < |a| then j else j - 1];
      }
    }
  }

  /** Inserting adds the key when nothing equals it, and keeps the order. */
  lemma InsertIs(cmp: Cmp, s: seq<int>, key: int)
    requires TotalPreorder(cmp) && Sorted(cmp, s)
    ensures Sorted(cmp, InsertOf(cmp, s, key))
    ensures forall y :: y in InsertOf(cmp, s, key) <==> y in s || (y == key && !Holds(cmp, s, key))
    ensures |InsertOf(cmp, s, key)| == if Holds(cmp, s, key) then |s| else |s| + 1
  {
    var k := Split(cmp, s, key);
    if k < |s| && cmp(s[k], key) == 0 {
      assert s == s[..k] + [s[k]] + s[k + 1..];
      InsertPresent(cmp, s[..k], s[k], s[k + 1..], key);
    } else {
      var a, b := s[..k], s[k..];
      assert s == a + b;
      InsertMissing(cmp, a, b, key);
      hide InsertOf;
      forall j | 0 <= j < |b| ensures cmp(key, b[j]) < 0 { LessThrough(cmp, b[j], key, key); }
      hide TotalPreorder;
      InsertParts(cmp, a, b, key);
    }
  }

  lemma LessBefore(cmp: Cmp, b: seq<int>, l: seq<int>, x: int, rest: seq<int>, key: int)
    requires TotalPreorder(cmp) && AllLess(cmp, b, key) && cmp(x, key) <= 0 && Sorted(cmp, (b + l) + [x] + rest)
    ensures AllLess(cmp, b + l, key)
  {
    var s := (b + l) + [x] + rest;
    hide TotalPreorder;
    assert s[|b| + |l|] == x;
    forall i | 0 <= i < |l| ensures cmp(l[i], key) < 0 {
      assert s[|b| + i] == l[i];
      LessThrough(cmp, l[i], x, key);
    }
  }
}
