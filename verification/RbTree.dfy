/** The kernel's red-black tree: linking, unlinking, rebalancing and walking nodes in place. */
module RbTree {
  import opened RbHeap
  import opened RbRotate
  import opened RbOrder
  import opened RbPostorder
  import opened RbInsert
  import opened RbLink
  import opened RbErase
  import opened RbErased
  import opened RbSplice
  import opened RbSnapshot
  import opened RbInsertSteps
  import opened RbClient
  import opened RbEraseSteps
  import opened RbEraseRuns
  import RbRepair

  class Root {
    var node: Node?
    var leftmost: Node?
    ghost var S: set<Node>

    constructor ()
      ensures S == {} && Good(Snap(S), node, leftmost)
    {
      node, leftmost, S := null, null, {};
    }

    /** __rb_change_child */
    method ChangeChild(oldChild: Node, newChild: Node?, parent: Node?)
      modifies this`node, if parent == null then {} else {parent}
      ensures parent == null ==> node == newChild
      ensures parent != null ==> node == old(node)
      ensures parent != null ==> parent.Get() == ChildSet(old(parent.Get()), oldChild, newChild)
    {
      if parent != null {
        if parent.left == oldChild {
          parent.left := newChild;
        } else {
          parent.right := newChild;
        }
      } else {
        node := newChild;
      }
    }

    /** __rb_rotate_set_parents */
    method RotateSetParents(x: Node, y: Node, red: bool)
      requires x != y && x.parent != x && x.parent != y
      modifies this`node, x, y, x.parent
      ensures x.Get() == old(x.Get()).(parent := y, red := red)
      ensures y.Get() == old(y.Get()).(parent := old(x.parent), red := old(x.red))
      ensures old(x.parent) == null ==> node == y
      ensures old(x.parent) != null ==> node == old(node)
      ensures old(x.parent) != null ==> old(x.parent).Get() == ChildSet(old(x.parent.Get()), x, y)
    {
      var parent := x.parent;
      y.parent := x.parent;
      y.red := x.red;
      x.parent := y;
      x.red := red;
      ChangeChild(x, y, parent);
    }

    method AugmentRotate(x: Node, y: Node)
      requires x != y && x.left != x && x.right != x
      modifies x`augmented, y`augmented
      ensures y.augmented == old(x.augmented)
      ensures x.augmented == AugmentRecompute(x)
    {
      y.augmented := x.augmented;
      x.augmented := AugmentRecompute(x);
    }

    /** The links, colours and augmented values of a rotation to the right at x, where y replaces x. */
    method RotateRightBlock(x: Node, y: Node, red: bool, black: bool, ghost bh: nat)
      requires x != y && y.right != x && y.right != y && x.right != x && x.parent != x && x.parent != y
      requires x.parent == null || x.parent != y.right
      requires black && y.right != null ==> !y.right.red
      modifies this`node, x, y, x.parent, y.right
      ensures x.Get() ==
          old(x.Get()).(left := old(y.right), parent := y, lo := old(y.at.pos), red := red, bh := bh,
            augmented := AugmentRecompute(x))
      ensures y.Get() ==
          old(y.Get()).(right := x, parent := old(x.parent), lo := old(x.at.lo), hi := old(x.at.hi),
            red := old(x.red), bh := old(x.at.bh), augmented := old(x.augmented))
      ensures old(y.right) != null ==> old(y.right).Get() == old(y.right.Get()).(parent := x)
      ensures old(x.parent) == null ==> node == y
      ensures old(x.parent) != null ==> node == old(node)
      ensures old(x.parent) != null ==> old(x.parent).Get() == ChildSet(old(x.parent.Get()), x, y)
    {
      var tmp := y.right;
      x.left := tmp;
      y.right := x;
      if tmp != null {
        tmp.parent := x;
        if black { tmp.red := false; }
      }
      RotateSetParents(x, y, red);
      AugmentRotate(x, y);
      y.at := y.at.(lo := x.at.lo, hi := x.at.hi, bh := x.at.bh);
      x.at := x.at.(lo := y.at.pos, bh := bh);
    }

    method RotateRightAt(x: Node, y: Node, red: bool, black: bool, ghost bh: nat)
      requires x in S && y in S && Rotatable(Snap(S), node, x, y, y.right)
      requires x.right != null ==> x.right in S && x.right != x && x.right != y && x.right != x.parent
      requires black ==> !Red(Snap(S), y.right)
      modifies this`node, S
      ensures Snap(S) == RotateRight(old(Snap(S)), x, y, red, bh) && node == (if old(node) == x then y else old(node))
    {
      hide *;
      ghost var F, root := Snap(S), node;
      SnapKeys(S);
      forall n | n in S ensures F[n] == n.Get() { SnapAt(S, n); }
      SnapAt(S, x);
      SnapAt(S, y);
      RotatableFacts(F, node, x, y, y.right);
      var parent, tmp, r := x.parent, y.right, x.right;
      if parent != null { SnapAt(S, parent); }
      if tmp != null { SnapAt(S, tmp); SnapRed(F, tmp); }
      if r != null { SnapAt(S, r); }
      RotateRightBlock(x, y, red, black, bh);
      RecomputeIs(F, x, tmp, r);
      RotatedRightTop(F, x, y, red, bh);
      SnapRotatedRight(F, S, root, x, y, red, bh);
    }

    /** The links, colours and augmented values of a rotation to the left at x, where y replaces x. */
    method RotateLeftBlock(x: Node, y: Node, red: bool, black: bool, ghost bh: nat)
      requires x != y && y.left != x && y.left != y && x.left != x && x.parent != x && x.parent != y
      requires x.parent == null || x.parent != y.left
      requires black && y.left != null ==> !y.left.red
      modifies this`node, x, y, x.parent, y.left
      ensures x.Get() ==
          old(x.Get()).(right := old(y.left), parent := y, hi := old(y.at.pos), red := red, bh := bh,
            augmented := AugmentRecompute(x))
      ensures y.Get() ==
          old(y.Get()).(left := x, parent := old(x.parent), hi := old(x.at.hi), lo := old(x.at.lo), red := old(x.red),
            bh := old(x.at.bh), augmented := old(x.augmented))
      ensures old(y.left) != null ==> old(y.left).Get() == old(y.left.Get()).(parent := x)
      ensures old(x.parent) == null ==> node == y
      ensures old(x.parent) != null ==> node == old(node)
      ensures old(x.parent) != null ==> old(x.parent).Get() == ChildSet(old(x.parent.Get()), x, y)
    {
      var tmp := y.left;
      x.right := tmp;
      y.left := x;
      if tmp != null {
        tmp.parent := x;
        if black { tmp.red := false; }
      }
      RotateSetParents(x, y, red);
      AugmentRotate(x, y);
      y.at := y.at.(hi := x.at.hi, lo := x.at.lo, bh := x.at.bh);
      x.at := x.at.(hi := y.at.pos, bh := bh);
    }

    method RotateLeftAt(x: Node, y: Node, red: bool, black: bool, ghost bh: nat)
      requires x in S && y in S && Rotatable(Snap(S), node, x, y, y.left)
      requires x.left != null ==> x.left in S && x.left != x && x.left != y && x.left != x.parent
      requires black ==> !Red(Snap(S), y.left)
      modifies this`node, S
      ensures Snap(S) == RotateLeft(old(Snap(S)), x, y, red, bh) && node == (if old(node) == x then y else old(node))
    {
      hide *;
      ghost var F, root := Snap(S), node;
      SnapKeys(S);
      forall n | n in S ensures F[n] == n.Get() { SnapAt(S, n); }
      SnapAt(S, x);
      SnapAt(S, y);
      RotatableFacts(F, node, x, y, y.left);
      var parent, tmp, r := x.parent, y.left, x.left;
      if parent != null { SnapAt(S, parent); }
      if tmp != null { SnapAt(S, tmp); SnapRed(F, tmp); }
      if r != null { SnapAt(S, r); }
      RotateLeftBlock(x, y, red, black, bh);
      RecomputeIs(F, x, r, tmp);
      RotatedLeftTop(F, x, y, red, bh);
      SnapRotatedLeft(F, S, root, x, y, red, bh);
    }

    /** Case 2: left rotate at parent; the links to the grandparent are left to case 3. */
    method InsertCase2Left(p: Node, x: Node)
      requires
        && p != x && x.left != p && x.left != x && p.left != p && p.left != x && p.parent != x && p.red
        && x.red && x.parent == p
      requires x.left != null ==> !x.left.red
      modifies p, x, x.left
      ensures p.Get() ==
          old(p.Get()).(right := old(x.left), parent := x, hi := old(x.at.pos), augmented := AugmentRecompute(p))
      ensures x.Get() ==
          old(x.Get()).(left := p, lo := old(p.at.lo), hi := old(p.at.hi), bh := old(p.at.bh),
            augmented := old(p.augmented))
      ensures old(x.left) != null ==> old(x.left).Get() == old(x.left.Get()).(parent := p)
    {
      var tmp := x.left;
      p.right := tmp;
      x.left := p;
      if tmp != null {
        tmp.parent := p;
        tmp.red := false;
      }
      p.parent := x;
      p.red := true;
      AugmentRotate(p, x);
      x.at := x.at.(lo := p.at.lo, hi := p.at.hi, bh := p.at.bh);
      p.at := p.at.(hi := x.at.pos);
    }

    method InsertCase2LeftAt(p: Node, x: Node)
      requires
        && p in S && x in S && p != x && x.left != p && x.left != x && p.left != p && p.left != x
        && p.parent != x && p.red && x.red && x.parent == p
      requires x.left != null ==> x.left in S && x.left != p.left && !x.left.red
      requires p.left != null ==> p.left in S
      modifies S
      ensures Snap(S) == HalfLeft(old(Snap(S)), p, x)
    {
      hide *;
      ghost var F := Snap(S);
      SnapKeys(S);
      forall n | n in S ensures F[n] == n.Get() { SnapAt(S, n); }
      SnapAt(S, p);
      SnapAt(S, x);
      var tmp, l := x.left, p.left;
      if tmp != null { SnapAt(S, tmp); }
      if l != null { SnapAt(S, l); }
      InsertCase2Left(p, x);
      RecomputeIs(F, p, l, tmp);
      RotatedLeftTop(F, p, x, true, F[p].bh);
      SnapHalfLeft(F, S, p, x);
    }

    /** Case 2: right rotate at parent; the links to the grandparent are right to case 3. */
    method InsertCase2Right(p: Node, x: Node)
      requires
        && p != x && x.right != p && x.right != x && p.right != p && p.right != x && p.parent != x
        && p.red && x.red && x.parent == p
      requires x.right != null ==> !x.right.red
      modifies p, x, x.right
      ensures p.Get() ==
          old(p.Get()).(left := old(x.right), parent := x, lo := old(x.at.pos), augmented := AugmentRecompute(p))
      ensures x.Get() ==
          old(x.Get()).(right := p, hi := old(p.at.hi), lo := old(p.at.lo), bh := old(p.at.bh),
            augmented := old(p.augmented))
      ensures old(x.right) != null ==> old(x.right).Get() == old(x.right.Get()).(parent := p)
    {
      var tmp := x.right;
      p.left := tmp;
      x.right := p;
      if tmp != null {
        tmp.parent := p;
        tmp.red := false;
      }
      p.parent := x;
      p.red := true;
      AugmentRotate(p, x);
      x.at := x.at.(hi := p.at.hi, lo := p.at.lo, bh := p.at.bh);
      p.at := p.at.(lo := x.at.pos);
    }

    method InsertCase2RightAt(p: Node, x: Node)
      requires
        && p in S && x in S && p != x && x.right != p && x.right != x && p.right != p && p.right != x
        && p.parent != x && p.red && x.red && x.parent == p
      requires x.right != null ==> x.right in S && x.right != p.right && !x.right.red
      requires p.right != null ==> p.right in S
      modifies S
      ensures Snap(S) == HalfRight(old(Snap(S)), p, x)
    {
      hide *;
      ghost var F := Snap(S);
      SnapKeys(S);
      forall n | n in S ensures F[n] == n.Get() { SnapAt(S, n); }
      SnapAt(S, p);
      SnapAt(S, x);
      var tmp, l := x.right, p.right;
      if tmp != null { SnapAt(S, tmp); }
      if l != null { SnapAt(S, l); }
      InsertCase2Right(p, x);
      RecomputeIs(F, p, tmp, l);
      RotatedRightTop(F, p, x, true, F[p].bh);
      SnapHalfRight(F, S, p, x);
    }

    /** Cases 2 and 3 of __rb_insert, for a parent that is a left child. */
    method InsertRotateLeftSide(x: Node, p: Node, g: Node)
      requires x in S && p in S && g in S && AlmostRb(Snap(S), node, x) && x.parent == p && p.red && p.parent == g
      requires g.left == p && !Red(Snap(S), g.right)
      modifies this`node, S
      ensures RbTree(Snap(S), node) && SamePlaces(old(Snap(S)), Snap(S))
    {
      hide *;
      ghost var F, root := Snap(S), node;
      SnapKeys(S);
      SnapAt(S, x);
      SnapAt(S, p);
      SnapAt(S, g);
      SnapRed(F, p);
      SnapRed(F, x);
      ParentSees(F, root, x);
      ghost var bh: nat := 0;
      var parent := p;
      if x == p.right {
        HalfReadyLeft(F, root, g, p, x);
        InnerDistinctLeft(F, root, g, p, x);
        LeftSideDone(F, root, g, p, x);
        bh := F[g].bh - 1;
        ghost var l, r := x.left, p.left;
        if l != null { SnapAt(S, l); SnapRed(F, l); }
        if r != null { SnapAt(S, r); }
        InsertCase2LeftAt(p, x);
        parent := x;
        SnapAt(S, g);
        SnapAt(S, x);
      } else {
        OuterReadyLeft(F, root, g, p, x);
        OuterChild(F, root, g, p, x);
        bh := F[g].bh - 1;
      }
      RotateRightAt(g, parent, true, true, bh);
      SwappedIs(root, g, parent);
    }

    /** Cases 2 and 3 of __rb_insert, for a parent that is a right child. */
    method InsertRotateRightSide(x: Node, p: Node, g: Node)
      requires x in S && p in S && g in S && AlmostRb(Snap(S), node, x) && x.parent == p && p.red && p.parent == g
      requires g.right == p && !Red(Snap(S), g.left)
      modifies this`node, S
      ensures RbTree(Snap(S), node) && SamePlaces(old(Snap(S)), Snap(S))
    {
      hide *;
      ghost var F, root := Snap(S), node;
      SnapKeys(S);
      SnapAt(S, x);
      SnapAt(S, p);
      SnapAt(S, g);
      SnapRed(F, p);
      SnapRed(F, x);
      ParentSees(F, root, x);
      ghost var bh: nat := 0;
      var parent := p;
      if x == p.left {
        HalfReadyRight(F, root, g, p, x);
        InnerDistinctRight(F, root, g, p, x);
        RightSideDone(F, root, g, p, x);
        bh := F[g].bh - 1;
        ghost var l, r := x.right, p.right;
        if l != null { SnapAt(S, l); SnapRed(F, l); }
        if r != null { SnapAt(S, r); }
        InsertCase2RightAt(p, x);
        parent := x;
        SnapAt(S, g);
        SnapAt(S, x);
      } else {
        OuterReadyRight(F, root, g, p, x);
        MirrorOuterChild(F, root, g, p, x);
        bh := F[g].bh - 1;
      }
      RotateLeftAt(g, parent, true, true, bh);
      SwappedIs(root, g, parent);
    }

    /** rb_set_parent_color, with the node's black count. */
    method SetParentColor(n: Node, p: Node?, red: bool, ghost bh: nat)
      modifies n
      ensures n.Get() == old(n.Get()).(parent := p, red := red, bh := bh)
    {
      n.parent := p;
      n.red := red;
      n.at := n.at.(bh := bh);
    }

    /** The last step for a red root. */
    method BlackenAtRoot(n: Node)
      requires n in S && n.parent == null
      modifies S
      ensures Snap(S) == Blacken(old(Snap(S)), n)
    {
      SetParentColor(n, null, false, n.at.bh + 1);
    }

    /** Case 1: colour flips. */
    method FlipColoursAt(g: Node, p: Node, u: Node)
      requires g in S && p in S && u in S && g != p && g != u && p != u && u.parent == g && p.parent == g
      modifies S
      ensures Snap(S) == FlipColours(old(Snap(S)), g, p, u)
      ensures g.parent == old(g.parent)
    {
      hide *;
      ghost var F := Snap(S);
      SnapKeys(S);
      forall n | n in S ensures F[n] == n.Get() { SnapAt(S, n); }
      FlippedAt(F, g, p, u);
      SnapAt(S, u);
      SnapAt(S, p);
      SnapAt(S, g);
      SetParentColor(u, g, false, u.at.bh + 1);
      SnapAt(S, p);
      SetParentColor(p, g, false, p.at.bh + 1);
      SnapAt(S, g);
      SetParentColor(g, g.parent, true, g.at.bh);
      SnapAt(S, g);
      SnapIs(S, FlipColours(F, g, p, u));
    }

    /** __rb_insert */
    method InsertColor(start: Node, newleft: bool)
      requires start in S && AlmostRb(Snap(S), node, start)
      modifies this`node, this`leftmost, S
      ensures RbTree(Snap(S), node) && SamePlaces(old(Snap(S)), Snap(S))
      ensures leftmost == if newleft then start else old(leftmost)
    {
      hide *;
      var n, parent := start, start.parent;
      if newleft {
        leftmost := n;
      }
      PlacesSame(Snap(S));
      SnapKeys(S);
      while true
        invariant n in S && AlmostRb(Snap(S), node, n) && parent == n.parent && SamePlaces(old(Snap(S)), Snap(S))
        invariant leftmost == if newleft then start else old(leftmost)
        invariant n in Snap(S)
        decreases Outside(Snap(S), n)
      {
        ghost var F := Snap(S);
        OpenAlmostRb(F, node, n);
        SnapKeys(S);
        SnapAt(S, n);
        if parent == null {
          BlackenRoot(F, node, n);
          BlackenAtRoot(n);
          PlacesThrough(old(Snap(S)), F, Snap(S));
          return;
        }
        ParentIn(F, node, n);
        SnapAt(S, parent);
        SnapRed(F, parent);
        if !parent.red {
          BlackParent(F, node, n);
          return;
        }
        RedParent(F, node, n);
        var gparent := parent.parent;
        SnapAt(S, gparent);
        var tmp := gparent.right;
        if tmp != null {
          ChildIn(F, node, gparent);
          SnapAt(S, tmp);
          SnapRed(F, tmp);
        }
        if parent != tmp {
          if tmp != null && tmp.red {
            SiblingsOf(F, node, n, parent, gparent, tmp);
            RedUncle(F, node, n, gparent, parent, tmp);
            FlipSame(F, gparent, parent, tmp);
            ClimbTwice(F, node, n, parent, gparent, FlipColours(F, gparent, parent, tmp));
            FlipColoursAt(gparent, parent, tmp);
            PlacesThrough(old(Snap(S)), F, Snap(S));
            n := gparent;
            parent := n.parent;
            continue;
          }
          NullBlack(F, tmp);
          InsertRotateLeftSide(n, parent, gparent);
          PlacesThrough(old(Snap(S)), F, Snap(S));
          return;
        } else {
          tmp := gparent.left;
          if tmp != null {
            ChildIn(F, node, gparent);
            SnapAt(S, tmp);
            SnapRed(F, tmp);
          }
          if tmp != null && tmp.red {
            SiblingsOf(F, node, n, parent, gparent, tmp);
            RedUncle(F, node, n, gparent, parent, tmp);
            FlipSame(F, gparent, parent, tmp);
            ClimbTwice(F, node, n, parent, gparent, FlipColours(F, gparent, parent, tmp));
            FlipColoursAt(gparent, parent, tmp);
            PlacesThrough(old(Snap(S)), F, Snap(S));
            n := gparent;
            parent := n.parent;
            continue;
          }
          NullBlack(F, tmp);
          InsertRotateRightSide(n, parent, gparent);
          PlacesThrough(old(Snap(S)), F, Snap(S));
          return;
        }
      }
    }

    // ----- walking

    /** rb_first */
    method First() returns (n: Node?)
      requires Shape(Snap(S), node)
      ensures IsFirst(Snap(S), n)
    {
      hide *;
      ghost var F := Snap(S);
      SnapKeys(S);
      RootIn(F, node);
      n := node;
      if n == null {
        EmptyFirst(F, node);
        return;
      }
      while n.left != null
        invariant n != null && n in S && n in F && node in F && F[n].lo == F[node].lo
        decreases Below(F, n)
      {
        SnapAt(S, n);
        LeftChild(F, node, n);
        n := n.left;
      }
      SnapAt(S, n);
      LeftmostFirst(F, node, n);
    }

    /** rb_last */
    method Last() returns (n: Node?)
      requires Shape(Snap(S), node)
      ensures IsLast(Snap(S), n)
    {
      hide *;
      ghost var F := Snap(S);
      SnapKeys(S);
      RootIn(F, node);
      n := node;
      if n == null {
        EmptyFirst(F, node);
        return;
      }
      while n.right != null
        invariant n != null && n in S && n in F && node in F && F[n].hi == F[node].hi
        decreases Below(F, n)
      {
        SnapAt(S, n);
        RightDown(F, node, n);
        n := n.right;
      }
      SnapAt(S, n);
      RightmostLast(F, node, n);
    }

    /** rb_next */
    method Next(start: Node) returns (r: Node?)
      requires Shape(Snap(S), node) && start in S
      ensures start in Snap(S) && IsNext(Snap(S), start, r)
    {
      hide *;
      ghost var F := Snap(S);
      SnapKeys(S);
      SnapAt(S, start);
      var n := start;
      if n.right != null {
        RightChild(F, node, n);
        n := n.right;
        while n.left != null
          invariant n in S && n in F && F[n].lo == F[start].pos
          decreases Below(F, n)
        {
          SnapAt(S, n);
          LeftChild(F, node, n);
          n := n.left;
        }
        SnapAt(S, n);
        LeftmostNext(F, node, start, n);
        return n;
      }
      ParentIn(F, node, n);
      r := n.parent;
      while r != null && n == r.right
        invariant n in S && n in F && r == F[n].parent && (r != null ==> r in S) && F[n].hi == F[start].hi
        decreases Outside(F, n)
      {
        SnapAt(S, n);
        SnapAt(S, r);
        RightParent(F, node, n);
        n := r;
        SnapAt(S, n);
        ParentIn(F, node, n);
        r := n.parent;
      }
      if r != null { SnapAt(S, r); }
      AncestorNext(F, node, start, n);
    }

    /** rb_prev */
    method Previous(start: Node) returns (r: Node?)
      requires Shape(Snap(S), node) && start in S
      ensures start in Snap(S) && IsPrevious(Snap(S), start, r)
    {
      hide *;
      ghost var F := Snap(S);
      SnapKeys(S);
      SnapAt(S, start);
      var n := start;
      if n.left != null {
        LeftEnd(F, node, n);
        n := n.left;
        while n.right != null
          invariant n in S && n in F && F[n].hi == F[start].pos
          decreases Below(F, n)
        {
          SnapAt(S, n);
          RightDown(F, node, n);
          n := n.right;
        }
        SnapAt(S, n);
        RightmostPrevious(F, node, start, n);
        return n;
      }
      ParentIn(F, node, n);
      r := n.parent;
      while r != null && n == r.left
        invariant n in S && n in F && r == F[n].parent && (r != null ==> r in S) && F[n].lo == F[start].lo
        decreases Outside(F, n)
      {
        SnapAt(S, n);
        SnapAt(S, r);
        LeftParent(F, node, n);
        n := r;
        SnapAt(S, n);
        ParentIn(F, node, n);
        r := n.parent;
      }
      if r != null { SnapAt(S, r); }
      AncestorPrevious(F, node, start, n);
    }

    /** rb_left_deepest_node */
    method LeftDeepest(start: Node) returns (n: Node)
      requires Shape(Snap(S), node) && start in S
      ensures start in Snap(S) && n == FirstBelow(Snap(S), node, start)
    {
      hide *;
      ghost var F := Snap(S);
      SnapKeys(S);
      n := start;
      while true
        invariant n in S && n in F && start in F && FirstBelow(F, node, n) == FirstBelow(F, node, start)
        decreases Below(F, n)
      {
        SnapAt(S, n);
        PostorderStep(F, node, n);
        FirstBelowStep(F, node, n);
        if n.left != null {
          n := n.left;
        } else if n.right != null {
          n := n.right;
        } else {
          return;
        }
      }
    }

    /** rb_first_postorder */
    method FirstPostorder() returns (r: Node?)
      requires Shape(Snap(S), node)
      ensures node != null ==> node in Snap(S)
      ensures var q := Postorder(Snap(S), node, node); r == if q == [] then null else q[0]
    {
      RootIn(Snap(S), node);
      if node == null {
        return null;
      }
      hide Shape, Snap;
      SnapKeys(S);
      r := LeftDeepest(node);
    }

    /** rb_next_postorder */
    method NextPostorder(n: Node?) returns (r: Node?)
      requires Shape(Snap(S), node) && (n != null ==> n in S)
      ensures n == null ==> r == null
      ensures node != null ==> node in Snap(S)
      ensures n != null ==> FollowsInPostorder(Snap(S), node, n, r)
    {
      hide *;
      ghost var F := Snap(S);
      RootIn(F, node);
      if n == null {
        return null;
      }
      SnapKeys(S);
      SnapAt(S, n);
      AfterFollows(F, node, n);
      AfterIs(F, node, n);
      var parent := n.parent;
      if parent != null { SnapAt(S, parent); }
      if parent != null && n == parent.left && parent.right != null {
        r := LeftDeepest(parent.right);
      } else {
        r := parent;
      }
    }

    // ----- inserting

    /** The nodes in the order of a traversal. */
    ghost function Order(): seq<Node>
      requires Shape(Snap(S), node)
      reads this, S
    {
      Traverse(Snap(S), node, node)
    }

    lemma OrderIs()
      requires Shape(Snap(S), node)
      ensures node != null ==> node in Snap(S)
      ensures Order() == Traverse(Snap(S), node, node)
    {
    }

    /** rb_link_node; the caller has set the augmented value. */
    method LinkNode(n: Node, parent: Node?, goLeft: bool, ghost lo: real, ghost hi: real)
      requires n !in S && (parent != null ==> parent in S) && n.augmented == n.val
      modifies this, n, parent
      ensures leftmost == old(leftmost)
      ensures S == old(S) + {n} && Snap(S) == Link(old(Snap(S)), n, parent, goLeft, lo, hi)
      ensures node == if parent == null then n else old(node)
    {
      hide *;
      ghost var F, T := Snap(S), S;
      SnapKeys(S);
      forall m | m in S ensures F[m] == m.Get() { SnapAt(S, m); }
      if parent != null { SnapAt(S, parent); }
      n.parent := parent;
      n.red := true;
      n.left := null;
      n.right := null;
      n.at := Place((lo + hi) / 2.0, lo, hi, 0);
      if parent == null {
        node := n;
      } else if goLeft {
        parent.left := n;
      } else {
        parent.right := n;
      }
      S := S + {n};
      SnapAt(S, n);
      if parent != null { SnapAt(S, parent); }
      SnapLink(F, T, n, parent, goLeft, lo, hi);
    }

    method Raise(c: Node, val: int)
      requires c in S
      modifies S
      ensures Snap(S) == RaiseAt(old(Snap(S)), c, val)
    {
      if c.augmented < val {
        c.augmented := val;
      }
    }

    /** insert_augmented_cached */
    method Insert(n: Node)
      requires Good(Snap(S), node, leftmost) && n !in S
      modifies this, S, n
      ensures S == old(S) + {n} && Good(Snap(S), node, leftmost)
      ensures Shape(old(Snap(S)), old(node)) && Shape(Snap(S), node)
      ensures InsertedByKey(old(Order()), Order(), n)
    {
      hide *;
      ghost var F0, root := Snap(S), node;
      OpenGood(F0, root, leftmost);
      OrderIs();
      SnapKeys(S);
      var cur, parent: Node?, goLeft := node, null, true;
      var key, val, first := n.key, n.val, true;
      ghost var lo, hi := 0.0, 1.0;
      BelongsRoot(F0, root, key);
      RaisedNone(F0, val);
      SameButAugmentedSelf(F0);
      while cur != null
        invariant node == root && S == old(S) && leftmost == old(leftmost)
        invariant SameButAugmented(F0, Snap(S)) && Raised(Snap(S), parent, val) && Belongs(F0, key, lo, hi)
        invariant cur != null ==> cur in F0 && F0[cur].parent == parent && F0[cur].lo == lo && F0[cur].hi == hi
        invariant cur == null ==> if parent == null then root == null && lo == 0.0 && hi == 1.0
          else
            && parent in F0
            && if goLeft then F0[parent].left == null && lo == F0[parent].lo && hi == F0[parent].pos
               else F0[parent].right == null && lo == F0[parent].pos && hi == F0[parent].hi
        invariant parent != null ==> parent in F0
        invariant first <==> lo == 0.0
        invariant 0.0 <= lo
        decreases if cur == null then {} else Below(F0, cur), cur != null
      {
        ghost var F := Snap(S);
        SnapAt(S, cur);
        SameButAugmentedAt(F0, F, cur);
        SameButAugmentedShape(F0, F, root);
        RaiseStep(F, root, parent, cur, val);
        DescentStep(F0, root, key, lo, hi, cur);
        parent := cur;
        Raise(parent, val);
        SameButAugmentedThrough(F0, F, Snap(S));
        SnapAt(S, cur);
        if key < parent.key {
          cur, goLeft := parent.left, true;
          hi := F0[parent].pos;
        } else {
          cur, goLeft := parent.right, false;
          lo := F0[parent].pos;
          first := false;
        }
      }
      ghost var F := Snap(S);
      n.augmented := val;
      assert Snap(S) == F;
      SlotFound(F0, root, parent, goLeft, lo, hi);
      LinkReady(F0, F, root, n, parent, goLeft, lo, hi);
      LinkNode(n, parent, goLeft, lo, hi);
      InsertColor(n, first);
      InsertDone(F0, F, root, n, parent, goLeft, lo, hi, old(leftmost), Snap(S), node);
      OrderIs();
    }

    /** Case 3: rotate at sibling; the links up and the colours are left to case 4. */
    method EraseCase3Left(p: Node, s: Node, l: Node)
      requires
        && s != p && l != p && s != l && l.right != s && l.right != l && l.right != p && s.right != s
        && s.right != l && s.left == l
      requires l.right != null ==> !l.right.red
      modifies p, s, l, l.right
      ensures p.Get() == old(p.Get()).(right := l)
      ensures s.Get() ==
          old(s.Get()).(left := old(l.right), lo := old(l.at.pos),
            bh := if old(s.at.bh) > 0 then old(s.at.bh) - 1 else 0, augmented := AugmentRecompute(s))
      ensures l.Get() ==
          old(l.Get()).(right := s, lo := old(s.at.lo), hi := old(s.at.hi), bh := old(s.at.bh),
            augmented := old(s.augmented))
      ensures old(l.right) != null ==> old(l.right).Get() == old(l.right.Get()).(parent := s)
    {
      var tmp1 := l.right;
      s.left := tmp1;
      l.right := s;
      p.right := l;
      if tmp1 != null {
        tmp1.parent := s;
        tmp1.red := false;
      }
      AugmentRotate(s, l);
      l.at := l.at.(lo := s.at.lo, hi := s.at.hi, bh := s.at.bh);
      s.at := s.at.(lo := l.at.pos, bh := if s.at.bh > 0 then s.at.bh - 1 else 0);
    }

    method EraseCase3LeftAt(p: Node, s: Node, l: Node)
      requires
        && p in S && s in S && l in S && s != p && l != p && s != l && s.parent == p && l.parent == s
        && !s.red && l.red && s.at.bh > 0
      requires s.left == l && s.right != s && s.right != l && s.right != p && (s.right != null ==> s.right in S)
      requires l.right != null ==>
          l.right in S && l.right != s && l.right != l && l.right != p && l.right != s.right && !l.right.red
      modifies S
      ensures Snap(S) == HalfInnerLeft(old(Snap(S)), p, s, l)
    {
      hide *;
      ghost var F := Snap(S);
      SnapKeys(S);
      forall n | n in S ensures F[n] == n.Get() { SnapAt(S, n); }
      SnapAt(S, p);
      SnapAt(S, s);
      SnapAt(S, l);
      var tmp, r := l.right, s.right;
      if tmp != null { SnapAt(S, tmp); }
      if r != null { SnapAt(S, r); }
      EraseCase3Left(p, s, l);
      RecomputeIs(F, s, tmp, r);
      RotatedRightTop(F, s, l, true, F[s].bh - 1);
      SnapHalfInnerLeft(F, S, p, s, l);
    }

    /** Cases 3 and 4 of ____rb_erase_color, when the child on the left is short. */
    method EraseCases34Left(p: Node, s: Node)
      requires p in S && s in S && ShortRb(Snap(S), node, p, true) && p.right == s && !s.red
      requires Red(Snap(S), s.left) || Red(Snap(S), s.right)
      modifies this`node, S
      ensures RbTree(Snap(S), node) && SamePlaces(old(Snap(S)), Snap(S))
    {
      hide *;
      ghost var F, root := Snap(S), node;
      SnapKeys(S);
      RbRepair.OpenShort(F, root, p, true);
      RbRepair.SiblingIn(F, root, p, true);
      SnapAt(S, p);
      SnapAt(S, s);
      ghost var b := F[s].bh;
      var tmp1, sibling := s.right, s;
      RbRepair.RedIs(F, tmp1);
      RbRepair.RedIs(F, s.left);
      ChildIn(F, root, s);
      if tmp1 != null { SnapAt(S, tmp1); }
      ghost var inner := tmp1 == null || !tmp1.red;
      if tmp1 == null || !tmp1.red {
        var tmp2 := s.left;
        SnapAt(S, tmp2);
        InnerRedDistinctLeft(F, root, p, s, tmp2);
        ghost var t := tmp2.right;
        RedKids(F, tmp2);
        if t != null { SnapAt(S, t); RbRepair.RedIs(F, t); }
        HalfInnerReadyLeft(F, root, p, s, tmp2);
        EraseCase3LeftAt(p, s, tmp2);
        tmp1 := s;
        sibling := tmp2;
        SnapAt(S, p);
        SnapAt(S, sibling);
      } else {
        ReadyLeft(F, root, p, s);
        RbRepair.MirrorOuterRed(F, root, p, s, tmp1);
      }
      ghost var K0 := Snap(S);
      RotateLeftAt(p, sibling, false, false, b);
      ghost var K := Snap(S);
      SnapKeys(S);
      SnapAt(S, tmp1);
      forall n | n in S ensures K[n] == n.Get() { SnapAt(S, n); }
      SwappedIs(root, p, sibling);
      if !inner {
        OuterUntouchedLeft(F, root, p, s, b, tmp1);
      }
      SetParentColor(tmp1, sibling, false, tmp1.at.bh + 1);
      SnapSet(K, S, tmp1);
      if inner {
        Cases34Left(F, root, p, s, sibling, Snap(S));
      } else {
        DarkenIs(K, tmp1, Snap(S));
      }
    }

    /** Case 3: rotate at sibling; the links up and the colours are right to case 4. */
    method EraseCase3Right(p: Node, s: Node, l: Node)
      requires
        && s != p && l != p && s != l && l.left != s && l.left != l && l.left != p && s.left != s
        && s.left != l && s.right == l
      requires l.left != null ==> !l.left.red
      modifies p, s, l, l.left
      ensures p.Get() == old(p.Get()).(left := l)
      ensures s.Get() ==
          old(s.Get()).(right := old(l.left), hi := old(l.at.pos),
            bh := if old(s.at.bh) > 0 then old(s.at.bh) - 1 else 0, augmented := AugmentRecompute(s))
      ensures l.Get() ==
          old(l.Get()).(left := s, hi := old(s.at.hi), lo := old(s.at.lo), bh := old(s.at.bh),
            augmented := old(s.augmented))
      ensures old(l.left) != null ==> old(l.left).Get() == old(l.left.Get()).(parent := s)
    {
      var tmp1 := l.left;
      s.right := tmp1;
      l.left := s;
      p.left := l;
      if tmp1 != null {
        tmp1.parent := s;
        tmp1.red := false;
      }
      AugmentRotate(s, l);
      l.at := l.at.(hi := s.at.hi, lo := s.at.lo, bh := s.at.bh);
      s.at := s.at.(hi := l.at.pos, bh := if s.at.bh > 0 then s.at.bh - 1 else 0);
    }

    method EraseCase3RightAt(p: Node, s: Node, l: Node)
      requires
        && p in S && s in S && l in S && s != p && l != p && s != l && s.parent == p && l.parent == s
        && !s.red && l.red && s.at.bh > 0
      requires s.right == l && s.left != s && s.left != l && s.left != p && (s.left != null ==> s.left in S)
      requires
        l.left != null ==> l.left in S && l.left != s && l.left != l && l.left != p && l.left != s.left && !l.left.red
      modifies S
      ensures Snap(S) == HalfInnerRight(old(Snap(S)), p, s, l)
    {
      hide *;
      ghost var F := Snap(S);
      SnapKeys(S);
      forall n | n in S ensures F[n] == n.Get() { SnapAt(S, n); }
      SnapAt(S, p);
      SnapAt(S, s);
      SnapAt(S, l);
      var tmp, r := l.left, s.left;
      if tmp != null { SnapAt(S, tmp); }
      if r != null { SnapAt(S, r); }
      EraseCase3Right(p, s, l);
      RecomputeIs(F, s, r, tmp);
      RotatedLeftTop(F, s, l, true, F[s].bh - 1);
      SnapHalfInnerRight(F, S, p, s, l);
    }

    /** Cases 3 and 4 of ____rb_erase_color, when the child on the right is short. */
    method EraseCases34Right(p: Node, s: Node)
      requires p in S && s in S && ShortRb(Snap(S), node, p, false) && p.left == s && !s.red
      requires Red(Snap(S), s.right) || Red(Snap(S), s.left)
      modifies this`node, S
      ensures RbTree(Snap(S), node) && SamePlaces(old(Snap(S)), Snap(S))
    {
      hide *;
      ghost var F, root := Snap(S), node;
      SnapKeys(S);
      RbRepair.OpenShort(F, root, p, false);
      RbRepair.SiblingIn(F, root, p, false);
      SnapAt(S, p);
      SnapAt(S, s);
      ghost var b := F[s].bh;
      var tmp1, sibling := s.left, s;
      RbRepair.RedIs(F, tmp1);
      RbRepair.RedIs(F, s.right);
      ChildIn(F, root, s);
      if tmp1 != null { SnapAt(S, tmp1); }
      ghost var inner := tmp1 == null || !tmp1.red;
      if tmp1 == null || !tmp1.red {
        var tmp2 := s.right;
        SnapAt(S, tmp2);
        InnerRedDistinctRight(F, root, p, s, tmp2);
        ghost var t := tmp2.left;
        RedKids(F, tmp2);
        if t != null { SnapAt(S, t); RbRepair.RedIs(F, t); }
        HalfInnerReadyRight(F, root, p, s, tmp2);
        EraseCase3RightAt(p, s, tmp2);
        tmp1 := s;
        sibling := tmp2;
        SnapAt(S, p);
        SnapAt(S, sibling);
      } else {
        ReadyRight(F, root, p, s);
        RbRepair.OuterRed(F, root, p, s, tmp1);
      }
      ghost var K0 := Snap(S);
      RotateRightAt(p, sibling, false, false, b);
      ghost var K := Snap(S);
      SnapKeys(S);
      SnapAt(S, tmp1);
      forall n | n in S ensures K[n] == n.Get() { SnapAt(S, n); }
      SwappedIs(root, p, sibling);
      if !inner {
        OuterUntouchedRight(F, root, p, s, b, tmp1);
      }
      SetParentColor(tmp1, sibling, false, tmp1.at.bh + 1);
      SnapSet(K, S, tmp1);
      if inner {
        Cases34Right(F, root, p, s, sibling, Snap(S));
      } else {
        DarkenIs(K, tmp1, Snap(S));
      }
    }

    /** Case 2: sibling colour flip. */
    method DimNodes(p: Node, s: Node)
      requires p in S && s in S && p != s && s.parent == p && s.at.bh > 0 && p.at.bh > 0
      modifies S
      ensures Snap(S) == RbRepair.Dim(old(Snap(S)), p, s)
    {
      hide *;
      ghost var F := Snap(S);
      SnapKeys(S);
      forall n | n in S ensures F[n] == n.Get() { SnapAt(S, n); }
      SnapAt(S, p);
      SnapAt(S, s);
      SetParentColor(s, p, true, s.at.bh - 1);
      SnapAt(S, p);
      if p.red {
        SetParentColor(p, p.parent, false, p.at.bh);
      } else {
        SetParentColor(p, p.parent, false, p.at.bh - 1);
      }
      forall n | n in S ensures n in Snap(S) && Snap(S)[n] == n.Get() { SnapAt(S, n); }
      SnapKeys(S);
      DimIs(F, p, s, Snap(S));
    }

    /** Case 1: the sibling is red. */
    method EraseCase1Left(p: Node, s: Node) returns (sibling: Node)
      requires p in S && s in S && ShortRb(Snap(S), node, p, true) && p.right == s && s.red
      modifies this`node, S
      ensures ShortRb(Snap(S), node, p, true) && SamePlaces(old(Snap(S)), Snap(S))
      ensures p.red && p.right == sibling && sibling in S && !sibling.red
    {
      hide *;
      ghost var F, root := Snap(S), node;
      SnapKeys(S);
      RbRepair.OpenShort(F, root, p, true);
      RbRepair.SiblingIn(F, root, p, true);
      SnapAt(S, p);
      SnapAt(S, s);
      RbRepair.RedIs(F, s);
      RbRepair.MirrorRedSibling(F, root, p, s);
      ReadyLeft(F, root, p, s);
      NullBlack(F, s.left);
      sibling := s.left;
      RotateLeftAt(p, s, true, true, F[p].bh - 1);
      SwappedIs(root, p, s);
      SnapKeys(S);
      SnapAt(S, p);
      SnapAt(S, sibling);
      RbRepair.RedIs(Snap(S), sibling);
    }

    /** One round of ____rb_erase_color, when the child on the left is short. */
    method EraseColorLeft(p: Node) returns (done: bool)
      requires p in S && ShortRb(Snap(S), node, p, true)
      modifies this`node, S
      ensures SamePlaces(old(Snap(S)), Snap(S))
      ensures done ==> RbTree(Snap(S), node)
      ensures !done ==> p.parent != null && p.parent in S && ShortRb(Snap(S), node, p.parent, p.parent.left == p)
      ensures !done ==> SameLinks(old(Snap(S)), Snap(S))
    {
      hide *;
      ghost var F0, root0 := Snap(S), node;
      PlacesSame(F0);
      SnapKeys(S);
      RbRepair.OpenShort(F0, root0, p, true);
      RbRepair.SiblingIn(F0, root0, p, true);
      SnapAt(S, p);
      var sibling := p.right;
      SnapAt(S, sibling);
      RbRepair.RedIs(F0, sibling);
      if sibling.red {
        sibling := EraseCase1Left(p, sibling);
      }
      ghost var F, root := Snap(S), node;
      SnapKeys(S);
      RbRepair.OpenShort(F, root, p, true);
      RbRepair.SiblingIn(F, root, p, true);
      SnapAt(S, p);
      SnapAt(S, sibling);
      RbRepair.RedIs(F, sibling);
      ChildIn(F, root, sibling);
      var tmp1, tmp2 := sibling.right, sibling.left;
      RbRepair.RedIs(F, tmp1);
      RbRepair.RedIs(F, tmp2);
      if tmp1 != null { SnapAt(S, tmp1); }
      if tmp2 != null { SnapAt(S, tmp2); }
      if (tmp1 == null || !tmp1.red) && (tmp2 == null || !tmp2.red) {
        RbRepair.MirrorBlackSibling(F, root, p, sibling);
        done := p.red || p.parent == null;
        DimNodes(p, sibling);
        PlacesThrough(F0, F, Snap(S));
        SameLinksAt(F, Snap(S), p);
        SnapKeys(S);
        SnapAt(S, p);
        if !done {
          SnapAt(S, p.parent);
          SameLinksAt(F, Snap(S), p.parent);
        }
        return;
      }
      EraseCases34Left(p, sibling);
      PlacesThrough(F0, F, Snap(S));
      done := true;
    }

    /** Case 1: the sibling is red. */
    method EraseCase1Right(p: Node, s: Node) returns (sibling: Node)
      requires p in S && s in S && ShortRb(Snap(S), node, p, false) && p.left == s && s.red
      modifies this`node, S
      ensures ShortRb(Snap(S), node, p, false) && SamePlaces(old(Snap(S)), Snap(S))
      ensures p.red && p.left == sibling && sibling in S && !sibling.red
    {
      hide *;
      ghost var F, root := Snap(S), node;
      SnapKeys(S);
      RbRepair.OpenShort(F, root, p, false);
      RbRepair.SiblingIn(F, root, p, false);
      SnapAt(S, p);
      SnapAt(S, s);
      RbRepair.RedIs(F, s);
      RbRepair.RedSibling(F, root, p, s);
      ReadyRight(F, root, p, s);
      NullBlack(F, s.right);
      sibling := s.right;
      RotateRightAt(p, s, true, true, F[p].bh - 1);
      SwappedIs(root, p, s);
      SnapKeys(S);
      SnapAt(S, p);
      SnapAt(S, sibling);
      RbRepair.RedIs(Snap(S), sibling);
    }

    /** One round of ____rb_erase_color, when the child on the right is short. */
    method EraseColorRight(p: Node) returns (done: bool)
      requires p in S && ShortRb(Snap(S), node, p, false)
      modifies this`node, S
      ensures SamePlaces(old(Snap(S)), Snap(S))
      ensures done ==> RbTree(Snap(S), node)
      ensures !done ==> p.parent != null && p.parent in S && ShortRb(Snap(S), node, p.parent, p.parent.left == p)
      ensures !done ==> SameLinks(old(Snap(S)), Snap(S))
    {
      hide *;
      ghost var F0, root0 := Snap(S), node;
      PlacesSame(F0);
      SnapKeys(S);
      RbRepair.OpenShort(F0, root0, p, false);
      RbRepair.SiblingIn(F0, root0, p, false);
      SnapAt(S, p);
      var sibling := p.left;
      SnapAt(S, sibling);
      RbRepair.RedIs(F0, sibling);
      if sibling.red {
        sibling := EraseCase1Right(p, sibling);
      }
      ghost var F, root := Snap(S), node;
      SnapKeys(S);
      RbRepair.OpenShort(F, root, p, false);
      RbRepair.SiblingIn(F, root, p, false);
      SnapAt(S, p);
      SnapAt(S, sibling);
      RbRepair.RedIs(F, sibling);
      ChildIn(F, root, sibling);
      var tmp1, tmp2 := sibling.left, sibling.right;
      RbRepair.RedIs(F, tmp1);
      RbRepair.RedIs(F, tmp2);
      if tmp1 != null { SnapAt(S, tmp1); }
      if tmp2 != null { SnapAt(S, tmp2); }
      if (tmp1 == null || !tmp1.red) && (tmp2 == null || !tmp2.red) {
        RbRepair.BlackSibling(F, root, p, sibling);
        done := p.red || p.parent == null;
        DimNodes(p, sibling);
        PlacesThrough(F0, F, Snap(S));
        SameLinksAt(F, Snap(S), p);
        SnapKeys(S);
        SnapAt(S, p);
        if !done {
          SnapAt(S, p.parent);
          SameLinksAt(F, Snap(S), p.parent);
        }
        return;
      }
      EraseCases34Right(p, sibling);
      PlacesThrough(F0, F, Snap(S));
      done := true;
    }

    /** ____rb_erase_color */
    method EraseColor(start: Node, ghost left: bool)
      requires start in S && ShortRb(Snap(S), node, start, left)
      requires if left then start.left == null else start.right == null
      modifies this`node, S
      ensures RbTree(Snap(S), node) && SamePlaces(old(Snap(S)), Snap(S))
    {
      hide *;
      var n: Node?, parent := null, start;
      ghost var side := left;
      PlacesSame(Snap(S));
      SnapKeys(S);
      while true
        invariant
          && parent in S && parent in Snap(S) && ShortRb(Snap(S), node, parent, side)
          && SamePlaces(old(Snap(S)), Snap(S))
        invariant n == if side then parent.left else parent.right
        decreases Outside(Snap(S), parent)
      {
        ghost var F := Snap(S);
        RbRepair.OpenShort(F, node, parent, side);
        RbRepair.SiblingIn(F, node, parent, side);
        SnapAt(S, parent);
        ghost var root := node;
        var done;
        var sibling := parent.right;
        if n != sibling {
          done := EraseColorLeft(parent);
        } else {
          done := EraseColorRight(parent);
        }
        PlacesThrough(old(Snap(S)), F, Snap(S));
        if done {
          return;
        }
        n := parent;
        parent := n.parent;
        SnapKeys(S);
        SnapAt(S, n);
        SnapAt(S, parent);
        SameLinksAt(F, Snap(S), n);
        ClimbOnce(F, root, n, Snap(S));
        RbRepair.OpenShort(Snap(S), node, parent, parent.left == n);
        RbRepair.OneSide(Snap(S), node, n);
        side := parent.left == n;
      }
    }

    // ----- erasing

    /** The propagate callback: recompute upwards from start until stop, or until nothing changes. */
    method Propagate(start: Node?, stop: Node?, ghost path: seq<Node>, ghost E: set<Node>)
      requires
        Chain(Snap(S), E, path, stop) && ChildrenIn(Snap(S), path) && start == (if path == [] then stop else path[0])
      requires Augmented(Snap(S), E + One(start)) && (stop == null || stop in E)
      modifies S
      ensures SameButAugmented(old(Snap(S)), Snap(S)) && Augmented(Snap(S), E)
      ensures forall m :: m in old(Snap(S)) && m !in path ==> m in Snap(S) && Snap(S)[m] == old(Snap(S))[m]
    {
      hide *;
      ghost var F0 := Snap(S);
      SnapKeys(S);
      SameButAugmentedSelf(F0);
      var rb := start;
      ghost var i: nat := 0;
      while rb != stop
        invariant i <= |path| && rb == (if i < |path| then path[i] else stop)
        invariant SameButAugmented(F0, Snap(S)) && Augmented(Snap(S), E + One(rb))
        invariant Snap(S).Keys == S && Chain(Snap(S), E, path, stop)
        invariant forall m :: m in S && m !in path ==> Snap(S)[m] == F0[m]
        decreases |path| - i
      {
        ghost var F := Snap(S);
        ChainAt(F, E, path, stop, i);
        HangsIs(F, E, rb, if i + 1 < |path| then path[i + 1] else stop);
        SnapAt(S, rb);
        ChildrenInAt(F0, path, i);
        SameButAugmentedLinks(F0, F, rb);
        OneIs(E, rb);
        AugOfIs(F, rb);
        if rb.left != null { SnapAt(S, rb.left); }
        if rb.right != null { SnapAt(S, rb.right); }
        RecomputeIs(F, rb, rb.left, rb.right);
        var augmented := AugmentRecompute(rb);
        if rb.augmented == augmented {
          AugmentedDone(F, E, rb);
          return;
        }
        SetAugStep(F, E, rb, rb.parent);
        SetAugmented(rb, augmented);
        SameButAugmentedThrough(F0, F, Snap(S));
        ChainSame(F, Snap(S), E, path, stop);
        SnapKeys(S);
        rb := rb.parent;
        i := i + 1;
      }
      OneIs(E, stop);
    }

    method SetAugmented(n: Node, v: int)
      requires n in S
      modifies S
      ensures Snap(S) == SetAug(old(Snap(S)), n, v)
      ensures forall m :: m in S && m != n ==> m in Snap(S) && m in old(Snap(S)) && Snap(S)[m] == old(Snap(S))[m]
      ensures n.parent == old(n.parent)
    {
      n.augmented := v;
    }

    /** The node has no left child: its right child, if any, moves up. */
    method UnlinkRight(n: Node) returns (rebalance: Node?)
      requires
        n in S && Shape(Snap(S), node) && n.left == null && (n.right != null ==> n.right in S && n.right.parent == n)
      modifies this`node, this`S, S
      ensures S == old(S) - {n} && Snap(S) == Unlink(old(Snap(S)), n)
      ensures node == if old(node) == n then old(n.right) else old(node)
      ensures rebalance == if old(n.right) == null && !old(n.red) then old(n.parent) else null
    {
      hide *;
      ghost var F, T := Snap(S), S;
      SnapKeys(S);
      forall m | m in S ensures F[m] == m.Get() { SnapAt(S, m); }
      SnapAt(S, n);
      Neighbours(F, node, n);
      var child, parent, red := n.right, n.parent, n.red;
      if child != null { SnapAt(S, child); }
      if parent != null { SnapAt(S, parent); }
      ChangeChild(n, child, parent);
      if child != null {
        MoveUp(child, parent, red, n.at.lo, child.at.hi, n.at.bh);
        rebalance := null;
      } else {
        rebalance := if !red then parent else null;
      }
      S := S - {n};
      SnapUnlink(F, T, n);
    }

    method MoveUp(c: Node, parent: Node?, red: bool, ghost lo: real, ghost hi: real, ghost bh: nat)
      modifies c
      ensures c.Get() == old(c.Get()).(parent := parent, red := red, lo := lo, hi := hi, bh := bh)
    {
      c.parent := parent;
      c.red := red;
      c.at := c.at.(lo := lo, hi := hi, bh := bh);
    }

    /** The node has a left child only, which moves up. */
    method UnlinkLeftOnly(n: Node)
      requires n in S && Shape(Snap(S), node) && n.right == null && n.left != null && n.left in S && n.left.parent == n
      modifies this`node, this`S, S
      ensures S == old(S) - {n} && Snap(S) == UnlinkLeft(old(Snap(S)), n)
      ensures node == if old(node) == n then old(n.left) else old(node)
    {
      hide *;
      ghost var F, T := Snap(S), S;
      SnapKeys(S);
      forall m | m in S ensures F[m] == m.Get() { SnapAt(S, m); }
      SnapAt(S, n);
      Neighbours(F, node, n);
      var child, parent, red := n.left, n.parent, n.red;
      SnapAt(S, child);
      if parent != null { SnapAt(S, parent); }
      MoveUp(child, parent, red, child.at.lo, n.at.hi, n.at.bh);
      ChangeChild(n, child, parent);
      S := S - {n};
      SnapUnlinkLeft(F, T, n);
    }

    /** Finds the leftmost node below the right child of n, which has a left child, and the way back up. */
    method FindSuccessor(n: Node) returns (parent: Node, successor: Node, ghost path: seq<Node>)
      requires
        n in S && Shape(Snap(S), node) && n.left != null && n.right != null && n.right in S && n.right.left != null
      ensures
        && n in Snap(S) && Spine(Snap(S), n, successor, path) && successor in Snap(S)
        && Snap(S)[successor].left == null && path != [] && parent == path[0]
    {
      hide *;
      ghost var F := Snap(S);
      SnapKeys(S);
      SnapAt(S, n);
      successor := n.right;
      SnapAt(S, successor);
      var tmp := successor.left;
      SpineStart(F, node, n, successor);
      LeftChild(F, node, successor);
      parent, path := successor, [successor];
      successor := tmp;
      SnapAt(S, successor);
      tmp := successor.left;
      while tmp != null
        invariant
          && successor in S && successor in F && n in F && tmp == F[successor].left
          && Spine(F, n, successor, path) && path != [] && parent == path[0]
        decreases Below(F, successor)
      {
        SpineDown(F, node, n, successor, path);
        LeftChild(F, node, successor);
        path := [successor] + path;
        parent := successor;
        successor := tmp;
        SnapAt(S, successor);
        tmp := successor.left;
      }
    }

    /** The first half: the successor leaves its place and adopts the right child of n. */
    method SpliceSuccessor(n: Node, child: Node, parent: Node, s: Node)
      requires n in S && child in S && parent in S && s in S && Shape(Snap(S), node) && Successor(Snap(S), n, s)
      requires n.right == child && s.parent == parent && parent != n
      modifies S
      ensures Snap(S) == Mid(old(Snap(S)), n, s)
    {
      hide *;
      ghost var F := Snap(S);
      SnapKeys(S);
      forall m | m in S ensures F[m] == m.Get() { SnapAt(S, m); }
      SnapAt(S, n);
      SnapAt(S, s);
      SnapAt(S, parent);
      SnapAt(S, child);
      SuccessorFacts(F, node, n, s);
      OpenSuccessor(F, n, s);
      SpliceLinks(n, child, parent, s);
      SnapMid(F, S, n, s);
    }

    method SpliceLinks(n: Node, child: Node, parent: Node, s: Node)
      requires s != n && s != child && s != parent && child != n
      modifies s, child, parent
      ensures s.Get() == old(s.Get()).(right := child, augmented := old(n.augmented))
      ensures parent.Get() ==
          if parent == child then old(parent.Get()).(left := old(s.right), parent := s)
          else old(parent.Get()).(left := old(s.right))
      ensures parent != child ==> child.Get() == old(child.Get()).(parent := s)
    {
      var child2 := s.right;
      var augmented := n.augmented;
      parent.left := child2;
      s.right := child;
      child.parent := s;
      s.augmented := augmented;
    }

    /** The second half: the successor takes over the place of n. */
    method TakePlace(n: Node, s: Node, parent: Node, child2: Node?)
      requires n in S && s in S && n != s
      requires var l, p := n.left, n.parent;
        && l != null && l in S && l != s && l != n && l != p
        && (child2 != null ==> child2 in S && child2 != s && child2 != l && child2 != p && child2 != n)
        && (p != null ==> p in S && p != s && p != n && (p.left == n) != (p.right == n))
      modifies this`node, this`S, S
      ensures S == old(S) - {n} && n in old(Snap(S)) && s in old(Snap(S))
      ensures Snap(S) == Final(old(Snap(S)), n, s, parent, child2)
      ensures node == if old(n.parent) == null then s else old(node)
    {
      hide *;
      ghost var M, T := Snap(S), S;
      SnapKeys(S);
      forall m | m in S ensures M[m] == m.Get() { SnapAt(S, m); }
      SnapAt(S, n);
      SnapAt(S, s);
      var tmp, p := n.left, n.parent;
      SnapAt(S, tmp);
      if p != null { SnapAt(S, p); }
      if child2 != null { SnapAt(S, child2); HangChild2(child2, parent, s.at.lo); }
      TakeLinks(n, s);
      tmp.parent := s;
      ChangeChild(n, s, p);
      S := S - {n};
      SnapAt(T, tmp);
      SnapFinal(M, T, n, s, parent, child2);
    }

    method TakeLinks(n: Node, s: Node)
      requires n != s
      modifies s
      ensures s.Get() ==
          old(s.Get()).(left := n.left, parent := n.parent, red := n.red, pos := n.at.pos, lo := n.at.lo,
            hi := n.at.hi, bh := n.at.bh)
    {
      s.left := n.left;
      s.parent := n.parent;
      s.red := n.red;
      s.at := n.at;
    }

    method HangChild2(c: Node, parent: Node, ghost lo: real)
      modifies c
      ensures c.Get() == old(c.Get()).(parent := parent, red := false, lo := lo, bh := 1)
    {
      c.parent := parent;
      c.red := false;
      c.at := c.at.(lo := lo, bh := 1);
    }

    /** Propagation all the way to the root. */
    method PropagateUp(start: Node?)
      requires Shape(Snap(S), node) && (start != null ==> start in S) && Augmented(Snap(S), One(start))
      modifies S
      ensures SameButAugmented(old(Snap(S)), Snap(S)) && Augmented(Snap(S), {})
    {
      hide *;
      ghost var F := Snap(S);
      SnapKeys(S);
      PathUpChain(F, node, start);
      ghost var path := PathUp(F, node, start);
      PathChildren(F, node, path, null);
      assert {} + One(start) == One(start);
      Propagate(start, null, path, {});
    }

    /** The node has at most one child. */
    method EraseFew(n: Node) returns (rebalance: Node?, ghost left: bool)
      requires n in S && RbTree(Snap(S), node) && (n.left == null || n.right == null)
      modifies this`node, this`S, S
      ensures S == old(S) - {n} && n in old(Snap(S)) && Vacated(old(Snap(S)), Snap(S), n, null)
      ensures rebalance == null ==> RbTree(Snap(S), node)
      ensures rebalance != null ==> rebalance in S && ShortRb(Snap(S), node, rebalance, left)
      ensures rebalance != null ==> if left then rebalance.left == null else rebalance.right == null
    {
      hide *;
      ghost var F, root := Snap(S), node;
      SnapKeys(S);
      SnapAt(S, n);
      OpenRbTree(F, root);
      Neighbours(F, root, n);
      var child, tmp, parent := n.right, n.left, n.parent;
      left := false;
      if tmp == null {
        if child != null { SnapAt(S, child); }
        UnlinkRb(F, root, n);
        ghost var p := F[n].parent;
        if p != null {
          left := F[p].left == n;
          if child == null { UnlinkSide(F, root, n); }
        }
        SwappedCases(root, n, child);
        rebalance := UnlinkRight(n);
      } else {
        SnapAt(S, tmp);
        UnlinkLeftRb(F, root, n);
        SwappedCases(root, n, tmp);
        UnlinkLeftOnly(n);
        rebalance := null;
      }
      ghost var G := Snap(S);
      SnapKeys(S);
      OneParent(parent);
      PropagateUp(parent);
      ghost var H := Snap(S);
      SnapKeys(S);
      Propagated(G, H, node, rebalance, left);
      MakeVacated(F, G, H, n, null);
      if rebalance != null {
        SnapAt(S, rebalance);
        SameButAugmentedLinks(G, H, rebalance);
      }
    }

    /** The copy callback, for a successor that is the right child of n. */
    method CopyAugmented(n: Node, s: Node)
      requires n in S && s in S && n != s && s.parent == n
      modifies S
      ensures n in old(Snap(S)) && s in old(Snap(S)) && Snap(S) == Mid(old(Snap(S)), n, s)
    {
      hide *;
      ghost var F := Snap(S);
      SnapKeys(S);
      forall m | m in S ensures F[m] == m.Get() { SnapAt(S, m); }
      SnapAt(S, s);
      SnapAt(S, n);
      s.augmented := n.augmented;
      SnapAt(S, s);
      SnapMid(F, S, n, s);
    }

    /** Finds the successor of a node with two children and takes it out of its place. */
    method DetachSuccessor(n: Node) returns (successor: Node, parent: Node, child2: Node?)
      requires n in S && RbTree(Snap(S), node) && n.left != null && n.right != null
      modifies S
      ensures n in old(Snap(S)) && Successor(old(Snap(S)), n, successor)
      ensures successor in old(Snap(S))
      ensures var f := old(Snap(S))[successor];
        parent == (if f.parent == n then successor else f.parent) && child2 == f.right
      ensures SameButAugmented(Mid(old(Snap(S)), n, successor), Snap(S)) && Augmented(Snap(S), {n, successor})
      ensures n in Snap(S) && successor in Snap(S) && Snap(S)[n].augmented == Snap(S)[successor].augmented
    {
      hide *;
      ghost var F, root := Snap(S), node;
      SnapKeys(S);
      SnapAt(S, n);
      OpenRbTree(F, root);
      Neighbours(F, root, n);
      var child := n.right;
      SnapAt(S, child);
      if child.left == null {
        successor, parent := child, child;
        RightChild(F, root, n);
        MakeSuccessor(F, n, child);
        SuccessorFacts(F, root, n, child);
        MidAugmented(F, root, n, child);
        ghost var same := {n, child} + {F[child].parent};
        assert same == {n, child};
        child2 := successor.right;
        CopyAugmented(n, successor);
        SameButAugmentedSelf(Snap(S));
      } else {
        ghost var path;
        parent, successor, path := FindSuccessor(n);
        SnapAt(S, successor);
        SpineEnd(F, root, n, successor, path);
        SuccessorFacts(F, root, n, successor);
        SnapAt(S, parent);
        MidAugmented(F, root, n, successor);
        MidChain(F, root, n, successor, path);
        SpineIn(F, n, successor, path);
        MidChildren(F, root, n, successor, path);
        child2 := successor.right;
        SpliceSuccessor(n, child, parent, successor);
        OneNode({n, successor}, parent);
        ghost var M0 := Snap(S);
        Propagate(parent, successor, path, {n, successor});
      }
      ghost var M := Snap(S);
      SnapKeys(S);
      OpenSuccessor(F, n, successor);
      MidIs(F, n, successor, n);
      MidTop(F, n, successor);
    }

    /** The node has two children. */
    method EraseFull(n: Node) returns (rebalance: Node?, ghost left: bool, ghost s: Node)
      requires n in S && RbTree(Snap(S), node) && n.left != null && n.right != null
      modifies this`node, this`S, S
      ensures S == old(S) - {n} && n in old(Snap(S)) && Vacated(old(Snap(S)), Snap(S), n, s)
      ensures rebalance == null ==> RbTree(Snap(S), node)
      ensures rebalance != null ==> rebalance in S && ShortRb(Snap(S), node, rebalance, left)
      ensures rebalance != null ==> if left then rebalance.left == null else rebalance.right == null
    {
      hide *;
      ghost var F, root := Snap(S), node;
      var successor, parent, child2 := DetachSuccessor(n);
      s := successor;
      ghost var M := Snap(S);
      SnapKeys(S);
      FullTree(F, root, n, s, M);
      MidAround(F, root, n, s, M);
      SnapAt(S, n);
      SnapAt(S, s);
      ghost var u := n.parent;
      if u != null { SnapAt(S, u); }
      SwappedCases(F[s].parent, n, s);
      SwappedCases(root, n, s);
      left := F[F[s].parent].left == s;
      var red := successor.red;
      TakePlace(n, successor, parent, child2);
      ghost var H0, G := Snap(S), Rename(Unlink(F, s), n, s);
      SnapKeys(S);
      SameButAugmentedKeys(G, H0);
      VacatedIn(F, G, n, s);
      rebalance := if child2 == null && !red then parent else null;
      PropagateUp(successor);
      ghost var H := Snap(S);
      SnapKeys(S);
      SameButAugmentedThrough(G, H0, H);
      Propagated(G, H, node, rebalance, left);
      VacatedThrough(F, G, H, n, s);
      if rebalance != null {
        SnapAt(S, rebalance);
        SameButAugmentedLinks(G, H, rebalance);
      }
    }

    /** rb_erase_augmented_cached */
    method Erase(n: Node)
      requires Good(Snap(S), node, leftmost) && n in S
      modifies this, S
      ensures S == old(S) - {n} && Good(Snap(S), node, leftmost)
      ensures Shape(old(Snap(S)), old(node)) && Shape(Snap(S), node)
      ensures ErasedFrom(old(Order()), Order(), n)
    {
      hide *;
      ghost var F, root, first := Snap(S), node, leftmost;
      OpenGood(F, root, leftmost);
      OrderIs();
      SnapKeys(S);
      ghost var next: Node? := null;
      if n == leftmost {
        leftmost := Next(n);
        next := leftmost;
      }
      var rebalance;
      ghost var left, s: Node?;
      if n.left == null || n.right == null {
        rebalance, left := EraseFew(n);
        s := null;
      } else {
        rebalance, left, s := EraseFull(n);
      }
      ghost var H := Snap(S);
      PlacesSame(H);
      if rebalance != null {
        EraseColor(rebalance, left);
      }
      EraseDone(F, root, first, n, s, next, H, Snap(S), node);
      OrderIs();
    }
  }
}
