/** Visiting Walker's tree in order with a stack of ancestors, and taking it apart. */
module JswTravel {
  import Bits
  import opened JswModel
  import opened JswInsert
  import opened JswHeap
  import opened JswTree

  const HEIGHT_LIMIT := 64

  // ----- where a node stands

  /** The ancestors on the path, outermost first. */
  function Spine(c: Path): seq<Node> {
    if c.Top? then [] else Spine(c.up) + [c.node]
  }

  /** The number of elements beyond the subtree at the end of the path, on side d. */
  function Out(c: Path, d: Side): nat {
    if c.Top? then 0
    else if c.dir == d then Out(c.up, d)
    else 1 + Size(c.other) + Out(c.up, d)
  }

  /** The number of elements that follow the root of t, going toward side d. */
  function Ahead(c: Path, t: Tree, d: Side): nat
    requires t.T?
  {
    Size(Kid(t, d)) + Out(c, d)
  }

  lemma {:induction false} OutBetween(c: Path)
    ensures Out(c, 0) == |Before(c)| && Out(c, 1) == |After(c)|
  {
    if c.Frame? {
      OutBetween(c.up);
      SizeOrder(c.other);
    }
  }

  /** The element at a node is the one with Ahead(0) elements before it and Ahead(1) behind it. */
  lemma AheadIndex(c: Path, t: Tree)
    requires t.T?
    ensures var s, i := Order(Plug(c, t)), Ahead(c, t, 0);
      i < |s| && s[i] == t.data && Ahead(c, t, 1) == |s| - 1 - i
  {
    OutBetween(c);
    SizeOrder(t.left);
    SizeOrder(t.right);
    PlugOrder(c, t);
    assert Spread(c, t)[|Before(c)| + |Order(t.left)|] == t.data;
  }

  lemma {:induction false} SpineHeight(c: Path, t: Tree)
    ensures |Spine(c)| + Height(t) <= Height(Plug(c, t))
  {
    if c.Frame? {
      SpineHeight(c.up, Leave(c, t));
    }
  }

  /** In a red-black tree of fewer than 2^32 nodes the stack never overflows. */
  lemma StackFits(c: Path, t: Tree, d: Side)
    requires Ok(Plug(c, t)) && !IsRed(Plug(c, t)) && Size(Plug(c, t)) < Bits.Pow2(32) && t.T? && Kid(t, d).T?
    ensures |Spine(c)| < 64
  {
    HeightLimit(Plug(c, t), 32);
    SpineHeight(c, t);
  }

  lemma {:induction false} RepSub(n: Node?, c: Path, t: Tree)
    requires Rep(n, Plug(c, t)) && Distinct(Plug(c, t)) && t.T?
    ensures Rep(t.node, t) && Distinct(t) && Nodes(t) <= Nodes(Plug(c, t))
  {
    if c.Top? {
      RepRoot(n, t);
    } else {
      var u := Leave(c, t);
      RepSub(n, c.up, u);
      assert Kid(u, c.dir) == t;
      KidRep(u.node, u, c.dir);
      KidNodes(u, c.dir);
      RepRoot(u.node.link[c.dir], t);
    }
  }

  lemma EnterPlug(c: Path, t: Tree, d: Side)
    requires t.T?
    ensures Plug(Enter(c, t, d), Kid(t, d)) == Plug(c, t) && Spine(Enter(c, t, d)) == Spine(c) + [t.node]
    ensures Out(Enter(c, t, d), d) == Out(c, d) && Out(Enter(c, t, 1 - d), d) == 1 + Size(Kid(t, d)) + Out(c, d)
    ensures Size(t) == Size(Kid(t, d)) + 1 + Size(Kid(t, 1 - d))
  {
    assert Leave(Enter(c, t, d), Kid(t, d)) == t;
  }

  /** What a traversal step returns: the data of a node, or a null pointer at the end. */
  datatype Reached = End | At(data: int)

  // ----- jsw_rbtrav

  class Trav {
    var tree: RbTree?
    var it: Node?
    const path: array<Node?>
    var top: nat
    ghost var c: Path  // the way to the current node
    ghost var t: Tree  // the subtree of the current node

    /** jsw_rbtnew */
    constructor ()
      ensures fresh(path) && path.Length == 64
    {
      tree, it, top, c, t := null, null, 0, Top, Leaf;
      path := new Node?[HEIGHT_LIMIT];
    }

    /** The stack holds the ancestors of the current node. */
    ghost predicate Stacked()
      reads this, path
    {
      top == |Spine(c)| && top <= path.Length == HEIGHT_LIMIT && forall i :: 0 <= i < top ==> path[i] == Spine(c)[i]
    }

    /** The current node is a node of the tree, and its ancestors are on the stack. */
    ghost predicate On(tr: RbTree)
      reads this, path, tr, Nodes(tr.tree)
    {
      && tree == tr && Travelled(tr) && Stacked() && Plug(c, t) == tr.tree
      && t.T? && it == t.node
    }

    /** The number of elements before the current one. */
    ghost function Index(): nat
      requires t.T?
      reads this
    {
      Ahead(c, t, 0)
    }

    lemma Opened(tr: RbTree)
      requires On(tr)
      ensures
        tree == tr && Travelled(tr) && Stacked() && Plug(c, t) == tr.tree && t.T? && it == t.node && it.data == t.data
      ensures allocated(Nodes(tr.tree))
      ensures top == |Spine(c)| && top <= path.Length == HEIGHT_LIMIT
      ensures Rep(tr.root, Plug(c, t)) && Distinct(Plug(c, t))
      ensures forall d: Side :: (it.link[d] == null <==> Kid(t, d).Leaf?)
      ensures forall d: Side :: Kid(t, d).T? ==> it.link[d] == Kid(t, d).node
    {
      RepSub(tr.root, c, t);
      RepRoot(t.node, t);
      forall d: Side
        ensures (t.node.link[d] == null <==> Kid(t, d).Leaf?) && (Kid(t, d).T? ==> t.node.link[d] == Kid(t, d).node)
      {
        KidRep(t.node, t, d);
        RepRoot(t.node.link[d], Kid(t, d));
      }
    }

    lemma Closed(tr: RbTree)
      requires tree == tr && Travelled(tr) && Stacked() && Plug(c, t) == tr.tree && t.T? && it == t.node
      ensures On(tr) && it != null
    {
    }

    lemma StackBelow(d: Side, tr: RbTree)
      requires On(tr) && Kid(t, d).T?
      ensures top < HEIGHT_LIMIT
    {
      StackFits(c, t, d);
    }

    lemma StackAt(i: nat)
      requires Stacked() && i < top
      ensures i < path.Length && i < |Spine(c)| && path[i] == Spine(c)[i]
    {
    }

    /** Pushes the current node and goes to its child on side d. */
    method Push(d: Side, ghost tr: RbTree)
      requires On(tr) && Kid(t, d).T?
      modifies this`it, this`top, this`c, this`t, path
      ensures On(tr) && it != null && t.T? && c == Enter(old(c), old(t), d) && t == Kid(old(t), d)
    {
      hide Travelled, On, Rep, Plug, Distinct, Spine, Enter, Kid;
      Opened(tr);
      StackBelow(d, tr);
      EnterPlug(c, t, d);
      path[top] := it;
      top := top + 1;
      it := it.link[d];
      c, t := Enter(c, t, d), Kid(t, d);
      Closed(tr);
    }

    /** start */
    method Start(tr: RbTree, dir: Side) returns (r: Reached)
      requires Travelled(tr) && path.Length == HEIGHT_LIMIT
      modifies this, path
      ensures r.End? <==> tr.Contents() == []
      ensures r.At? ==> On(tr) && Ahead(c, t, dir) == 0 && r.data == t.data
      ensures r.End? ==> it == null
    {
      hide Travelled, On, Rep, Plug, Distinct, Size, Order, Kid, Stacked, Spine;
      assert allocated(Nodes(tr.tree));
      tree, it, top := tr, tr.root, 0;
      c, t := Top, tr.tree;
      TopOn(tr);
      if it != null {
        while it.link[dir] != null
          invariant On(tr) && it != null && t.T? && Out(c, dir) == 0
          decreases Size(t)
        {
          Opened(tr);
          EnterPlug(c, t, dir);
          Push(dir, tr);
        }
        Opened(tr);
        LeafSize(t, dir);
      }
      r := if it == null then End else At(it.data);
    }

    lemma TopOn(tr: RbTree)
      requires
        && Travelled(tr) && path.Length == HEIGHT_LIMIT && tree == tr && it == tr.root && top == 0
        && c == Top && t == tr.tree
      ensures if it == null then tr.Contents() == [] else On(tr) && tr.Contents() != []
      ensures it != null ==> t.T?
    {
      RepRoot(tr.root, t);
    }

    /** Leaves subtrees toward the top until one was entered from the side the traversal comes from. */
    method Climb(dir: Side, ghost tr: RbTree)
      requires On(tr) && t.T? && Kid(t, dir).Leaf?
      modifies this`it, this`top, this`c, this`t
      ensures it == null <==> old(Ahead(c, t, dir)) == 0
      ensures it != null ==> On(tr) && t.T? && Ahead(c, t, dir) + 1 == old(Ahead(c, t, dir))
    {
      hide Travelled, On, Rep, Plug, Distinct, Leave, Kid, Stacked, Spine;
      ghost var ahead := Ahead(c, t, dir);
      LeafSize(t, dir);
      var more := true;
      while more
        invariant more ==> On(tr) && t.T? && Out(c, dir) == ahead
        invariant !more ==> if it == null then ahead == 0 else On(tr) && t.T? && Ahead(c, t, dir) + 1 == ahead
        decreases more, top
      {
        Opened(tr);
        SpineEnds(c);
        if top == 0 {
          it := null;
          more := false;
        } else {
          ClimbStep(tr.root, c, t, dir);
          StackAt(top - 1);
          var last := it;
          Shorter();
          ghost var c0 := c;
          c, t := c.up, Leave(c, t);
          top := top - 1;
          it := path[top];
          StillStacked(c0);
          Closed(tr);
          more := last == it.link[dir];
        }
      }
    }

    lemma StillStacked(c0: Path)
      requires c0.Frame? && c == c0.up && top + 1 <= path.Length == HEIGHT_LIMIT && top + 1 == |Spine(c0)|
      requires forall i :: 0 <= i < top + 1 ==> path[i] == Spine(c0)[i]
      ensures Stacked()
    {
    }

    lemma Shorter()
      requires Stacked()
      ensures
        top == |Spine(c)| && top <= path.Length == HEIGHT_LIMIT && forall i :: 0 <= i < top ==> path[i] == Spine(c)[i]
    {
    }

    /** move */
    method Move(dir: Side, ghost tr: RbTree) returns (r: Reached)
      requires On(tr) && t.T?
      modifies this`it, this`top, this`c, this`t, path
      ensures r.End? <==> old(Ahead(c, t, dir)) == 0
      ensures r.At? ==> On(tr) && t.T? && Ahead(c, t, dir) + 1 == old(Ahead(c, t, dir)) && r.data == t.data
      ensures r.End? ==> it == null
    {
      hide Travelled, On, Rep, Plug, Distinct, Leave, Kid, Stacked, Spine, Size, Out;
      ghost var ahead := Ahead(c, t, dir);
      Opened(tr);
      if it.link[dir] != null {
        EnterPlug(c, t, dir);
        SizeKids(t, dir);
        SizeKids(Kid(t, dir), dir);
        Push(dir, tr);
        while it.link[1 - dir] != null
          invariant On(tr) && it != null && t.T? && Out(c, dir) + Size(t) == ahead
          decreases Size(t)
        {
          Opened(tr);
          EnterPlug(c, t, dir);
          Push(1 - dir, tr);
        }
        Opened(tr);
        SizeKids(t, dir);
        LeafSize(t, 1 - dir);
      } else {
        Climb(dir, tr);
        if it != null { Opened(tr); }
      }
      r := if it == null then End else At(it.data);
    }

    lemma Here(tr: RbTree)
      requires On(tr)
      ensures t.T? && Index() < |tr.Contents()| && tr.Contents()[Index()] == t.data
      ensures Index() == Ahead(c, t, 0) && Ahead(c, t, 1) == |tr.Contents()| - 1 - Index()
    {
      AheadIndex(c, t);
    }

    /** jsw_rbtfirst */
    method First(tr: RbTree) returns (r: Reached)
      requires Travelled(tr) && path.Length == HEIGHT_LIMIT
      modifies this, path
      ensures r.End? <==> tr.Contents() == []
      ensures r.At? ==> On(tr) && t.T? && Index() == 0 && r.data == tr.Contents()[0]
    {
      r := Start(tr, 0);
      hide On, Travelled, Ahead;
      if r.At? { Here(tr); }
    }

    /** jsw_rbtlast */
    method Last(tr: RbTree) returns (r: Reached)
      requires Travelled(tr) && path.Length == HEIGHT_LIMIT
      modifies this, path
      ensures r.End? <==> tr.Contents() == []
      ensures r.At? ==> On(tr) && t.T? && Index() + 1 == |tr.Contents()| && r.data == tr.Contents()[Index()]
    {
      r := Start(tr, 1);
      hide On, Travelled, Ahead;
      if r.At? { Here(tr); }
    }

    /** jsw_rbtnext */
    method Next(ghost tr: RbTree) returns (r: Reached)
      requires On(tr) && t.T?
      modifies this`it, this`top, this`c, this`t, path
      ensures r.At? <==> old(Index()) + 1 < |tr.Contents()|
      ensures r.At? ==> On(tr) && t.T? && Index() == old(Index()) + 1 && r.data == tr.Contents()[Index()]
    {
      hide On, Travelled, Ahead;
      Here(tr);
      r := Move(1, tr);
      if r.At? { Here(tr); }
    }

    /** jsw_rbtprev */
    method Previous(ghost tr: RbTree) returns (r: Reached)
      requires On(tr) && t.T?
      modifies this`it, this`top, this`c, this`t, path
      ensures r.At? <==> old(Index()) > 0
      ensures r.At? ==>
          && On(tr) && t.T? && Index() + 1 == old(Index()) && Index() < |tr.Contents()|
          && r.data == tr.Contents()[Index()]
    {
      hide On, Travelled, Ahead;
      Here(tr);
      r := Move(0, tr);
      if r.At? { Here(tr); }
    }
  }

  /** The elements from first to next to next: all of them, in ascending order. */
  method Listing(tr: RbTree) returns (s: seq<int>)
    requires Travelled(tr)
    ensures s == tr.Contents()
  {
    hide Travelled, Trav.On, Trav.Index;
    assert allocated(Nodes(tr.tree));
    var trav := new Trav();
    var r := trav.First(tr);
    s := [];
    while r.At?
      invariant fresh(trav) && fresh(trav.path)
      invariant |s| <= |tr.Contents()| && s == tr.Contents()[..|s|] && (r.End? ==> |s| == |tr.Contents()|)
      invariant
        r.At? ==> trav.On(tr) && trav.t.T? && trav.Index() == |s| < |tr.Contents()| && r.data == tr.Contents()[|s|]
      decreases |tr.Contents()| - |s|
    {
      s := s + [r.data];
      r := trav.Next(tr);
    }
  }

  // ----- taking the tree apart

  function NodeOrder(t: Tree): seq<Node> {
    if t.Leaf? then [] else NodeOrder(t.left) + [t.node] + NodeOrder(t.right)
  }

  lemma {:induction false} NodeOrderMember(t: Tree, n: Node)
    ensures n in NodeOrder(t) <==> n in Nodes(t)
  {
    if t.T? {
      NodeOrderMember(t.left, n);
      NodeOrderMember(t.right, n);
    }
  }

  /** The in-order sequence of nodes lists every node once. */
  lemma {:induction false} NodeOrderOnce(t: Tree)
    requires Distinct(t)
    ensures forall n :: n in NodeOrder(t) <==> n in Nodes(t)
    ensures forall i, j :: 0 <= i < j < |NodeOrder(t)| ==> NodeOrder(t)[i] != NodeOrder(t)[j]
  {
    forall n: Node ensures n in NodeOrder(t) <==> n in Nodes(t) { NodeOrderMember(t, n); }
    if t.T? {
      NodeOrderOnce(t.left);
      NodeOrderOnce(t.right);
      var a, b := NodeOrder(t.left), NodeOrder(t.right);
      assert NodeOrder(t) == a + [t.node] + b;
      forall y: Node | y in a ensures y !in b { NodeOrderMember(t.left, y); NodeOrderMember(t.right, y); }
      hide NodeOrder;
      JoinedOnce(a, t.node, b);
    }
  }

  lemma JoinedOnce<A>(a: seq<A>, x: A, b: seq<A>)
    requires forall i, j :: 0 <= i < j < |a| ==> a[i] != a[j]
    requires forall i, j :: 0 <= i < j < |b| ==> b[i] != b[j]
    requires x !in a && x !in b && forall y :: y in a ==> y !in b
    ensures forall i, j :: 0 <= i < j < |a + [x] + b| ==> (a + [x] + b)[i] != (a + [x] + b)[j]
  {
    var s := a + [x] + b;
    forall i, j | 0 <= i < j < |s| ensures s[i] != s[j] {
      if i < |a| {
        assert s[i] == a[i] && s[i] in a;
        if j > |a| { assert s[j] == b[j - |a| - 1]; }
      } else {
        assert s[j] == b[j - |a| - 1] && s[j] in b;
      }
    }
  }

  /** The left child comes up and the node goes down to its right, colours as they were. */
  function SpunRight(t: Tree): Tree
    requires t.T? && t.left.T?
  {
    T(t.left.node, t.left.red, t.left.data, t.left.left, T(t.node, t.red, t.data, t.left.right, t.right))
  }

  lemma SpunOrder(t: Tree)
    requires t.T? && t.left.T?
    ensures Order(SpunRight(t)) == Order(t) && NodeOrder(SpunRight(t)) == NodeOrder(t)
    ensures Size(SpunRight(t)) == Size(t) && Size(SpunRight(t).left) < Size(t.left)
  {
    Rejoin(Order(t.left.left), t.left.data, Order(t.left.right), t.data, Order(t.right));
    Rejoin(NodeOrder(t.left.left), t.left.node, NodeOrder(t.left.right), t.node, NodeOrder(t.right));
    hide Distinct, Nodes;
  }

  lemma SpunDistinct(t: Tree)
    requires t.T? && t.left.T? && Distinct(t)
    ensures Distinct(SpunRight(t)) && Nodes(SpunRight(t)) == Nodes(t) && {t.node, t.left.node} <= Nodes(t)
    ensures {t.node, t.left.node} !! Nodes(t.left.left) + Nodes(t.left.right) + Nodes(t.right) && t.node != t.left.node
  {
  }

  lemma Rejoin<A>(a: seq<A>, x: A, b: seq<A>, y: A, c: seq<A>)
    ensures a + [x] + (b + [y] + c) == (a + [x] + b) + [y] + c
  {
  }

  method Spin(it: Node, ghost t: Tree) returns (save: Node)
    requires Rep(it, t) && Distinct(t) && t.T? && t.left.T?
    modifies it`link, t.left.node`link
    ensures Rep(save, SpunRight(t))
  {
    hide Rep, Distinct, Nodes;
    RepRoot(it, t);
    RepRoot(it.link[0], t.left);
    SpunDistinct(t);
    save := it.link[0];
    it.link := it.link[0 := save.link[1]];
    save.link := save.link[1 := it];
    MakeRep(it, 0, t.left.right, t.right);
    MakeRep(save, 0, t.left.left, SpunRight(t).right);
  }

  lemma Shift<A>(s: seq<A>, x: A, r: seq<A>)
    ensures s + ([x] + r) == (s + [x]) + r
  {
  }

  lemma LeafFirst(t: Tree)
    requires t.T? && Distinct(t)
    ensures t.left.Leaf? ==> Order(t) == [t.data] + Order(t.right) && NodeOrder(t) == [t.node] + NodeOrder(t.right)
    ensures Distinct(t.right) && Nodes(t.right) <= Nodes(t) && Size(t.right) < Size(t)
  {
  }

  lemma LeafLast(n: Node?, t: Tree)
    requires Rep(n, t) && n == null
    ensures Order(t) == [] && NodeOrder(t) == []
  {
  }

  /** jsw_rbdelete: the elements handed to rel, and the nodes freed, in this order. */
  method Delete(tree: RbTree) returns (released: seq<int>, freed: seq<Node>)
    requires tree.Valid()
    modifies Nodes(tree.tree)
    ensures released == old(tree.Contents()) && freed == old(NodeOrder(tree.tree))
  {
    tree.OpenValid();
    hide *;
    var it := tree.root;
    ghost var t, s, N := tree.tree, tree.Contents(), NodeOrder(tree.tree);
    released, freed := [], [];
    while it != null
      invariant Rep(it, t) && Distinct(t) && Nodes(t) <= Nodes(tree.tree)
      invariant released + Order(t) == s && freed + NodeOrder(t) == N
      decreases Size(t), if t.T? then Size(t.left) else 0
    {
      RepRoot(it, t);
      RepRoot(it.link[0], t.left);
      LeafFirst(t);
      var save: Node?;
      if it.link[0] == null {
        save := it.link[1];
        Shift(released, t.data, Order(t.right));
        Shift(freed, t.node, NodeOrder(t.right));
        released, freed := released + [it.data], freed + [it];
        t := t.right;
      } else {
        SpunDistinct(t);
        save := Spin(it, t);
        SpunOrder(t);
        t := SpunRight(t);
      }
      it := save;
    }
    LeafLast(it, t);
  }

  lemma LeafSize(t: Tree, d: Side)
    requires t.T?
    ensures Kid(t, d).Leaf? ==> Size(Kid(t, d)) == 0
  {
  }

  lemma SpineEnds(c: Path)
    ensures |Spine(c)| == 0 <==> c.Top?
    ensures c.Frame? ==> Spine(c) == Spine(c.up) + [c.node] && Spine(c)[|Spine(c)| - 1] == c.node
    ensures c.Top? ==> forall d: Side :: Out(c, d) == 0
  {
  }

  /** The child link to a subtree tells from which side it is left. */
  lemma ClimbStep(root: Node?, c: Path, t: Tree, d: Side)
    requires Rep(root, Plug(c, t)) && Distinct(Plug(c, t)) && t.T? && c.Frame?
    ensures Leave(c, t).T? && Leave(c, t).node == c.node && Plug(c.up, Leave(c, t)) == Plug(c, t)
    ensures t.node == c.node.link[d] <==> c.dir == d
    ensures c.dir == d ==> Out(c, d) == Out(c.up, d)
    ensures c.dir != d ==> Out(c, d) == 1 + Ahead(c.up, Leave(c, t), d)
    ensures Spine(c) == Spine(c.up) + [c.node]
  {
    var u := Leave(c, t);
    RepSub(root, c.up, u);
    assert Kid(u, c.dir) == t && Kid(u, 1 - c.dir) == c.other;
    KidRep(u.node, u, c.dir);
    KidRep(u.node, u, 1 - c.dir);
    KidNodes(u, c.dir);
    RepRoot(u.node.link[c.dir], t);
    RepRoot(u.node.link[1 - c.dir], c.other);
  }

  lemma SizeKids(t: Tree, d: Side)
    requires t.T?
    ensures Size(t) == Size(Kid(t, d)) + 1 + Size(Kid(t, 1 - d)) && Size(t) > 0
  {
  }

  /** A tree whose traversals are safe. */
  ghost predicate Travelled(tr: RbTree)
    reads tr, Nodes(tr.tree)
  {
    tr.Valid() && Size(tr.tree) < Bits.Pow2(32)
  }
}
