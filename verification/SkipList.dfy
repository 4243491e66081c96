/** The skip list in place: searching, inserting, deleting and the queries by rank and by range. */
module SkipList {
  import opened Ordering
  import opened SkipModel
  import opened SkipOps

  datatype Range = Range(min: int, max: int, minex: bool, maxex: bool)

  // ----- cuts of the sequence

  function Less(cmp: Cmp, obj: int): int -> bool {
    a => cmp(a, obj) < 0
  }

  function AtMost(cmp: Cmp, obj: int): int -> bool {
    a => cmp(a, obj) <= 0
  }

  /** The predicate holds of a prefix of the objects only. */
  ghost predicate PrefixClosed(L: seq<Node>, before: int -> bool) {
    forall p, q :: 1 <= p < q < |L| && before(L[q].obj) ==> before(L[p].obj)
  }

  lemma {:induction false} CutExists(L: seq<Node>, before: int -> bool, n: nat) returns (t: nat)
    requires PrefixClosed(L, before) && n < |L| && forall p :: n < p < |L| ==> !before(L[p].obj)
    ensures Cut(L, before, t)
  {
    if n == 0 || before(L[n].obj) {
      t := n;
    } else {
      t := CutExists(L, before, n - 1);
    }
  }

  lemma LessClosed(cmp: Cmp, L: seq<Node>, obj: int)
    requires TotalPreorder(cmp) && Sorted(cmp, L)
    ensures PrefixClosed(L, Less(cmp, obj)) && PrefixClosed(L, AtMost(cmp, obj))
  {
    forall p, q | 1 <= p < q < |L| && cmp(L[q].obj, obj) < 0 ensures cmp(L[p].obj, obj) < 0 {
      assert cmp(L[p].obj, L[q].obj) <= 0;
      LessThrough(cmp, L[p].obj, L[q].obj, obj);
    }
    forall p, q | 1 <= p < q < |L| && cmp(L[q].obj, obj) <= 0 ensures cmp(L[p].obj, obj) <= 0 {
      assert cmp(L[p].obj, L[q].obj) <= 0;
    }
  }

  // ----- the heap and its snapshot

  lemma SnapKeys(S: set<Node>)
    ensures Snap(S).Keys == S
  {
  }

  lemma SnapAt(S: set<Node>, n: Node)
    requires n in S
    ensures n in Snap(S) && Snap(S)[n].level == n.level && Snap(S)[n].backward == n.backward
  {
  }

  class SkipList {
    const cmp: Cmp
    const header: Node
    var tail: Node?
    var length: nat
    var level: nat
    ghost var S: set<Node>
    ghost var L: seq<Node>  // the header, then the nodes by rank

    ghost predicate Valid()
      reads this, S
    {
      && TotalPreorder(cmp) && Indexed(Snap(S), L, level, tail) && Tight(Snap(S), L, level)
      && Sorted(cmp, L) && L[0] == header && length == |L| - 1
    }

    lemma Opened()
      requires Valid()
      ensures TotalPreorder(cmp) && Indexed(Snap(S), L, level, tail) && Lists(Snap(S), L) && Tight(Snap(S), L, level)
      ensures Sorted(cmp, L) && |L| > 0 && L[0] == header && length == |L| - 1
      ensures forall p :: 0 <= p < |L| ==> L[p] in S
      ensures HeightsOk(Snap(S), L, level) && LinksOk(Snap(S), L, level) && BackOk(Snap(S), L, tail)
      ensures 1 <= level <= MAXLEVEL && header in S && |header.level| == MAXLEVEL
    {
    }

    lemma Basics()
      requires Valid()
      ensures TotalPreorder(cmp) && Sorted(cmp, L) && |L| > 0 && L[0] == header && length == |L| - 1
      ensures Indexed(Snap(S), L, level, tail) && header in S && 1 <= level <= MAXLEVEL && |header.level| == MAXLEVEL
    {
    }

    lemma TightIs()
      requires Valid()
      ensures level > 1 ==> level - 1 < |header.level| && header.level[level - 1].forward != null
    {
    }

    lemma Close()
      requires TotalPreorder(cmp) && Indexed(Snap(S), L, level, tail) && Lists(Snap(S), L) && Tight(Snap(S), L, level)
      requires Sorted(cmp, L) && |L| > 0 && L[0] == header && length == |L| - 1
      ensures Valid()
    {
    }

    /** zslCreate */
    constructor (cmp: Cmp)
      requires TotalPreorder(cmp)
      ensures Valid() && this.cmp == cmp && |L| == 1 && fresh(S) && level == 1 && |header.level| == 32
    {
      this.cmp := cmp;
      var h := new Node(MAXLEVEL, 0);
      header := h;
      level, length, tail := 1, 0, null;
      S, L := {h}, [h];
    }

    /** On level i, goes forward from x while the next object comes before; counts the ranks crossed. */
    method SkipWhile(x0: Node, i: nat, rank0: nat, before: int -> bool, ghost t: nat) returns (x: Node, rank: nat)
      requires
        && Lists(Snap(S), L) && LinksOk(Snap(S), L, level) && i < level && Cut(L, before, t)
        && rank0 <= t && Stands(Snap(S), L, x0, rank0, i)
      ensures rank0 <= rank <= t && Settled(Snap(S), L, x, rank, i, t)
      ensures Snap(S) == old(Snap(S))
    {
      hide *;
      ghost var F := Snap(S);
      SnapKeys(S);
      CutBound(L, before, t);
      StandsIs(F, L, x0, rank0, i);
      x, rank := x0, rank0;
      SnapAt(S, x);
      ghost var q := LookAhead(F, L, level, x, rank, i);
      while x.level[i].forward != null && before(x.level[i].forward.obj)
        invariant
          && rank0 <= rank <= t && x in S && x in F && i < |x.level| && Ahead(F, L, x, rank, i, q)
          && x.level == F[x].level
        decreases t - rank
      {
        TakeLink(F, L, x, rank, i, q);
        CutAt(L, before, t, q);
        rank := rank + x.level[i].span;
        x := x.level[i].forward;
        StandsIs(F, L, x, rank, i);
        SnapAt(S, x);
        q := LookAhead(F, L, level, x, rank, i);
      }
      if x.level[i].forward != null {
        TakeLink(F, L, x, rank, i, q);
        CutAt(L, before, t, q);
      }
      Settle(F, L, x, rank, i, q, t);
    }

    /** On level i, goes forward from x while the rank reached stays below the bound. */
    method SkipByRank(x0: Node, i: nat, rank0: nat, bound: nat, ghost t: nat) returns (x: Node, rank: nat)
      requires
        && Lists(Snap(S), L) && LinksOk(Snap(S), L, level) && i < level && rank0 <= t < |L|
        && Stands(Snap(S), L, x0, rank0, i)
      requires t == RankCut(bound, |L|)
      ensures rank0 <= rank <= t && Settled(Snap(S), L, x, rank, i, t)
      ensures Snap(S) == old(Snap(S))
    {
      hide *;
      ghost var F := Snap(S);
      SnapKeys(S);
      RankCutIs(bound, |L|);
      StandsIs(F, L, x0, rank0, i);
      x, rank := x0, rank0;
      SnapAt(S, x);
      ghost var q := LookAhead(F, L, level, x, rank, i);
      while x.level[i].forward != null && rank + x.level[i].span < bound
        invariant
          && rank0 <= rank <= t && x in S && x in F && i < |x.level| && Ahead(F, L, x, rank, i, q)
          && x.level == F[x].level
        decreases t - rank
      {
        TakeLink(F, L, x, rank, i, q);
        rank := rank + x.level[i].span;
        x := x.level[i].forward;
        StandsIs(F, L, x, rank, i);
        SnapAt(S, x);
        q := LookAhead(F, L, level, x, rank, i);
      }
      if x.level[i].forward != null {
        TakeLink(F, L, x, rank, i, q);
      }
      Settle(F, L, x, rank, i, q, t);
    }

    /**
     * The search shared by the operations: the last node on every level that comes before, and its rank; and the
     * loop variable, as the loop leaves it.
     */
    method Descend(before: int -> bool, ghost t: nat) returns (update: seq<Node>, rank: seq<nat>, i: int)
      requires
        && Indexed(Snap(S), L, level, tail) && |L| > 0 && L[0] == header && header in S
        && level <= |header.level| && Cut(L, before, t)
      ensures |update| == |rank| == level && Updates(Snap(S), L, t, level, rank) && i == -1
      ensures forall j :: 0 <= j < level ==> rank[j] < |L| && update[j] == L[rank[j]]
    {
      hide *;
      ghost var F := Snap(S);
      OpenIndexed(F, L, level, tail);
      CutBound(L, before, t);
      var x := header;
      SnapAt(S, header);
      update, rank := seq(level, i => header), seq(level, i => 0);
      FoundNone(F, L, t, level, update, rank);
      i := level - 1;
      StandsIs(F, L, x, 0, i);
      while i >= 0
        invariant Snap(S) == F
        invariant -1 <= i < level && Found(F, L, t, i, level, update, rank) && |update| == |rank| == level
        invariant if i == level - 1 then x == header else rank[i + 1] <= t && Settled(F, L, x, rank[i + 1], i + 1, t)
      {
        var crossed := if i == level - 1 then 0 else rank[i + 1];
        if i < level - 1 { SettledIs(F, L, x, rank[i + 1], i + 1, t); }
        StandsIs(F, L, x, crossed, i);
        x, crossed := SkipWhile(x, i, crossed, before, t);
        SettledIs(F, L, x, crossed, i, t);
        FoundStep(F, L, t, i, level, update, rank, x, crossed);
        rank := rank[i := crossed];
        update := update[i := x];
        i := i - 1;
      }
      FoundAll(F, L, t, level, update, rank);
    }

    // ----- zslInsert

    /** Gives the header's levels from level up to top the span of the whole list. */
    method RaiseSpans(top: nat, update: seq<Node>, rank: seq<nat>) returns (update': seq<Node>, rank': seq<nat>)
      requires level <= top <= |header.level| && |update| == |rank| == level
      modifies header`level
      ensures |header.level| == old(|header.level|)
      ensures forall j :: 0 <= j < |header.level| ==>
          header.level[j] ==
            if level <= j < top then Level(old(header.level)[j].forward, length) else old(header.level)[j]
      ensures |update'| == |rank'| == top && rank'[..level] == rank && update'[..level] == update
      ensures forall j :: level <= j < top ==> rank'[j] == 0 && update'[j] == header
    {
      update', rank' := update, rank;
      var i := level;
      while i < top
        invariant level <= i <= top && |update'| == |rank'| == i && |header.level| == old(|header.level|)
        invariant forall j :: 0 <= j < |header.level| ==>
            header.level[j] ==
              if level <= j < i then Level(old(header.level)[j].forward, length) else old(header.level)[j]
        invariant rank'[..level] == rank && update'[..level] == update
        invariant forall j :: level <= j < i ==> rank'[j] == 0 && update'[j] == header
      {
        rank' := rank' + [0];
        update' := update' + [header];
        header.level := header.level[i := header.level[i].(span := length)];
        i := i + 1;
      }
    }

    /** The header takes part in the levels from level up to top. */
    method RaiseLevel(top: nat, update: seq<Node>, rank: seq<nat>, ghost t: nat)
      returns (update': seq<Node>, rank': seq<nat>)
      requires
        && Indexed(Snap(S), L, level, tail) && |L| > 0 && L[0] == header && header in S
        && length == |L| - 1 && level < top <= MAXLEVEL
      requires
        && Updates(Snap(S), L, t, level, rank) && |update| == level
        && forall i :: 0 <= i < level ==> rank[i] < |L| && update[i] == L[rank[i]]
      modifies header`level, this`level
      ensures level == top && |rank'| == |update'| == level <= |header.level| == old(|header.level|)
      ensures Indexed(Snap(S), L, level, tail)
      ensures
        && Updates(Snap(S), L, t, level, rank')
        && forall i :: 0 <= i < level ==> rank'[i] < |L| && update'[i] == L[rank'[i]]
      ensures rank != [] && rank'[0] == rank[0] && rank'[level - 1] == 0
    {
      hide *;
      ghost var F, lev := Snap(S), level;
      OpenIndexed(F, L, lev, tail);
      OpenHeights(F, L, lev);
      OpenUpdates(F, L, t, lev, rank);
      SnapKeys(S);
      forall m | m in S ensures m in F && F[m].level == m.level && F[m].backward == m.backward { SnapAt(S, m); }
      update', rank' := RaiseSpans(top, update, rank);
      forall m | m in S
        ensures m in Snap(S) && Snap(S)[m].level == m.level && Snap(S)[m].backward == m.backward
      {
        SnapAt(S, m);
      }
      SnapKeys(S);
      MakeRaised(F, Snap(S), header, length, lev, top);
      RaiseIndexed(F, Snap(S), L, lev, top, tail);
      RaisedUpdates(F, Snap(S), L, t, lev, top, tail, rank, rank');
      forall i | 0 <= i < top ensures rank'[i] < |L| && update'[i] == L[rank'[i]] {
        if i < lev { assert rank'[i] == rank'[..lev][i] && update'[i] == update'[..lev][i]; }
      }
      level := top;
    }

    /** One level of x: between up and what followed it, at the given distance behind up. */
    method LinkLevel(x: Node, up: Node, i: nat, distance: nat, ghost T: set<Node>)
      requires x in T && up in T && x != up && i < |x.level| && i < |up.level| && up.level[i].span >= distance
      modifies x`level, up`level
      ensures LevelLinked(old(Snap(T)), Snap(T), x, up, i, distance)
    {
      hide *;
      ghost var F := Snap(T);
      SnapKeys(T);
      forall m | m in T ensures F[m] == m.Get() { SnapGet(T, T, m); }
      GetIs(x);
      GetIs(up);
      x.level := x.level[i := Level(up.level[i].forward, up.level[i].span - distance)];
      up.level := up.level[i := Level(x, distance + 1)];
      forall m | m in T ensures m in Snap(T) && Snap(T)[m] == m.Get() { SnapGet(T, T, m); }
      SnapKeys(T);
      GetIs(x);
      GetIs(up);
      MakeLevelLinked(F, Snap(T), x, up, i, distance);
    }

    method StretchLevel(up: Node, i: nat, ghost T: set<Node>)
      requires up in T && i < |up.level|
      modifies up`level
      ensures LevelStretched(old(Snap(T)), Snap(T), up, i)
    {
      hide *;
      ghost var F := Snap(T);
      SnapKeys(T);
      forall m | m in T ensures F[m] == m.Get() { SnapGet(T, T, m); }
      GetIs(up);
      up.level := up.level[i := up.level[i].(span := up.level[i].span + 1)];
      forall m | m in T ensures m in Snap(T) && Snap(T)[m] == m.Get() { SnapGet(T, T, m); }
      SnapKeys(T);
      GetIs(up);
      MakeLevelStretched(F, Snap(T), up, i);
    }

    /** Links x between its neighbours on the levels it reaches, and stretches the spans above. */
    method LinkLevels(x: Node, h: nat, update: seq<Node>, rank: seq<nat>, ghost t: nat)
      requires Lists(Snap(S), L) && LinksOk(Snap(S), L, level) && 1 <= h <= level && x !in S && |x.level| == h
      requires Updates(Snap(S), L, t, level, rank) && rank != [] && rank[0] == t
      requires |update| == level && forall i :: 0 <= i < level ==> rank[i] < |L| && update[i] == L[rank[i]]
      modifies x`level, S`level
      ensures LinkedIn(old(Snap(S)), Snap(S + {x}), L, t, level, rank, x, h)
    {
      hide *;
      ghost var F, T := Snap(S), S + {x};
      OpenUpdates(F, L, t, level, rank);
      SnapKeys(S);
      SnapKeys(T);
      forall m | m in S ensures m in Snap(T) && m in F && Snap(T)[m] == F[m] { SnapGet(S, T, m); }
      SnapAt(T, x);
      PartlyLinkedNone(F, Snap(T), L, t, level, rank, x, h);
      var i := 0;
      while i < h
        invariant i <= h && PartlyLinked(F, Snap(T), L, t, level, rank, x, h, i)
      {
        ghost var G := Snap(T);
        SpanAt(F, L, level, t, rank, i);
        PartlyLinkedAt(F, G, L, t, level, rank, x, h, i);
        var up := update[i];
        SnapKeys(T);
        SnapAt(T, x);
        SnapAt(T, up);
        LinkLevel(x, up, i, rank[0] - rank[i], T);
        LinkStepLow(F, G, Snap(T), L, t, level, rank, x, h, i);
        i := i + 1;
      }
      while i < level
        invariant h <= i <= level && PartlyLinked(F, Snap(T), L, t, level, rank, x, h, i)
      {
        ghost var G := Snap(T);
        SpanAt(F, L, level, t, rank, i);
        PartlyLinkedAt(F, G, L, t, level, rank, x, h, i);
        var up := update[i];
        SnapKeys(T);
        SnapAt(T, up);
        StretchLevel(up, i, T);
        LinkStepHigh(F, G, Snap(T), L, t, level, rank, x, h, i);
        i := i + 1;
      }
      PartlyLinkedAll(F, Snap(T), L, t, level, rank, x, h);
    }

    /** The backward links around x, and the tail. */
    method LinkBack(x: Node, up: Node, ghost F: Heap, ghost t: nat, ghost T: set<Node>)
      requires Lists(F, L) && F.Keys == S && t < |L| && up == L[t] && L[0] == header && x !in S && T == S + {x}
      requires x.level != [] && x.level[0].forward == if t + 1 < |L| then L[t + 1] else null
      requires forall m :: m in S ==> m in F && m.backward == F[m].backward && |m.level| == |F[m].level|
      modifies T, this`tail
      ensures BackLinkedIn(F, Snap(T), L, t, x, old(tail), tail)
      ensures SameLevels(old(Snap(T)), Snap(T))
    {
      hide *;
      ghost var tail0, G := tail, Snap(T);
      SnapKeys(T);
      forall m | m in T ensures m in G && G[m].level == m.level { SnapAt(T, m); }
      forall p | 0 <= p < |L| ensures L[p] in F && L[p] in S { InList(F, L, p); }
      DistinctHead(F, L, t);
      SetBack(x, up);
      forall m | m in T
        ensures m in Snap(T) && Snap(T)[m].level == m.level && Snap(T)[m].backward == m.backward
      {
        SnapAt(T, m);
      }
      SnapKeys(T);
      ghost var next := x.level[0].forward;
      forall p | 0 <= p < |L| ensures L[p].backward == if p == t + 1 then x else F[L[p]].backward {
        if t + 1 < |L| && p != t + 1 { DistinctAt(F, L, p, t + 1); }
      }
      MakeBackLinkedIn(F, Snap(T), L, t, x, tail0, tail);
      MakeSameLevels(G, Snap(T));
    }

    method SetBack(x: Node, up: Node)
      requires x.level != [] && x.level[0].forward != x
      modifies x, x.level[0].forward, this`tail
      ensures
        && x.level == old(x.level)
        && (x.level[0].forward != null ==> x.level[0].forward.level == old(x.level[0].forward.level))
      ensures x.backward == if up == header then null else up
      ensures
        var next := x.level[0].forward; if next != null then next.backward == x && tail == old(tail) else tail == x
    {
      x.backward := if up == header then null else up;
      var next := x.level[0].forward;
      if next != null {
        next.backward := x;
      } else {
        tail := x;
      }
    }

    /** Links, spans and backward links around a new node. */
    method LinkIn(x: Node, h: nat, update: seq<Node>, rank: seq<nat>, ghost t: nat)
      requires
        && Indexed(Snap(S), L, level, tail) && Lists(Snap(S), L) && |L| > 0 && L[0] == header
        && 1 <= h <= level && x !in S && |x.level| == h
      requires Updates(Snap(S), L, t, level, rank) && rank != [] && rank[0] == t < |L|
      requires |update| == level && forall i :: 0 <= i < level ==> rank[i] < |L| && update[i] == L[rank[i]]
      modifies x, S, this`tail
      ensures Lists(old(Snap(S)), L)
      ensures LinkedIn(old(Snap(S)), Snap(S + {x}), L, t, level, rank, x, h)
      ensures BackLinkedIn(old(Snap(S)), Snap(S + {x}), L, t, x, old(tail), tail)
    {
      hide *;
      ghost var F, T, lev := Snap(S), S + {x}, level;
      OpenIndexed(F, L, lev, tail);
      SnapKeys(S);
      forall m | m in S ensures m in F && F[m].backward == m.backward { SnapAt(S, m); }
      LinkLevels(x, h, update, rank, t);
      ghost var G := Snap(T);
      OpenLinkedIn(F, G, L, t, lev, rank, x, h);
      HeightsKept(F, G);
      ForwardZero(F, G, L, lev, tail, t, rank, x, h);
      forall m | m in T ensures m in G && G[m].level == m.level { SnapAt(T, m); }
      LinkBack(x, update[0], F, t, T);
      LinkedInSame(F, G, Snap(T), L, t, lev, rank, x, h);
    }

    /** The new node, linked in behind the update positions. */
    method InsertNode(obj: int, h: nat, update: seq<Node>, rank: seq<nat>, ghost t: nat) returns (x: Node)
      requires TotalPreorder(cmp) && Sorted(cmp, L) && Cut(L, Less(cmp, obj), t) && length == |L| - 1
      requires Indexed(Snap(S), L, level, tail) && |L| > 0 && L[0] == header && header in S && 1 <= h <= level
      requires Updates(Snap(S), L, t, level, rank) && rank != [] && rank[0] == t < |L| && |rank| == level
      requires |update| == level && forall i :: 0 <= i < level ==> rank[i] < |L| && update[i] == L[rank[i]]
      requires level > 1 ==>
          && level - 1 < |header.level|
          && (header.level[level - 1].forward != null || (h == level && rank[level - 1] == 0))
      modifies this, S
      ensures Valid() && fresh(x) && x.obj == obj && S == old(S) + {x} && L == Inserted(old(L), t, x)
      ensures |x.level| == h && level == old(level)
      ensures forall m :: m in old(S) ==> |m.level| == old(|m.level|)
    {
      hide *;
      ghost var F, tail0 := Snap(S), tail;
      forall m | m in S ensures m in F && F[m].level == m.level { SnapAt(S, m); }
      OpenIndexed(F, L, level, tail);
      OpenHeights(F, L, level);
      SnapAt(S, header);
      x := new Node(h, obj);
      assert Snap(S) == F;
      LinkIn(x, h, update, rank, t);
      LinkedHeights(F, Snap(S + {x}), L, t, level, rank, x, h);
      forall m | m in S + {x} ensures m in Snap(S + {x}) && Snap(S + {x})[m].level == m.level { SnapAt(S + {x}, m); }
      InsertDone(cmp, F, Snap(S + {x}), L, t, level, rank, x, h, tail0, tail);
      length := length + 1;
      S := S + {x};
      L := Inserted(L, t, x);
      Close();
    }

    /** Where obj goes, on every level in use once a node of height h is there. */
    method FindPlace(obj: int, h: nat) returns (update: seq<Node>, rank: seq<nat>, ghost t: nat)
      requires Valid() && 1 <= h <= MAXLEVEL
      modifies header, this`level
      ensures TotalPreorder(cmp) && Sorted(cmp, L) && Cut(L, Less(cmp, obj), t) && length == |L| - 1
      ensures Indexed(Snap(S), L, level, tail) && |L| > 0 && L[0] == header && header in S && 1 <= h <= level
      ensures Updates(Snap(S), L, t, level, rank) && rank != [] && rank[0] == t < |L| && |update| == |rank| == level
      ensures forall i :: 0 <= i < level ==> rank[i] < |L| && update[i] == L[rank[i]]
      ensures level > 1 ==>
          && level - 1 < |header.level|
          && (header.level[level - 1].forward != null || (h == level && rank[level - 1] == 0))
      ensures level == if h > old(level) then h else old(level)
      ensures forall m :: m in old(S) ==> |m.level| == old(|m.level|)
    {
      hide *;
      Basics();
      LessClosed(cmp, L, obj);
      t := CutExists(L, Less(cmp, obj), |L| - 1);
      var i;
      update, rank, i := Descend(Less(cmp, obj), t);
      UpdateZero(Snap(S), L, t, level, rank, tail);
      CutBound(L, Less(cmp, obj), t);
      if h > level {
        update, rank := RaiseLevel(h, update, rank, t);
      } else {
        TightIs();
      }
    }

    /**
     * zslInsert, for a node of height h: obj goes before the objects that do not compare less. The level in use rises
     * to h if it was lower, and all other nodes keep their heights.
     */
    method Insert(obj: int, h: nat) returns (x: Node)
      requires Valid() && 1 <= h <= 32
      modifies this, S
      ensures Valid() && fresh(x) && x.obj == obj && S == old(S) + {x}
      ensures exists t :: Cut(old(L), Less(cmp, obj), t) && L == Inserted(old(L), t, x)
      ensures |x.level| == h && level == if h > old(level) then h else old(level)
      ensures forall m :: m in old(S) ==> |m.level| == old(|m.level|)
    {
      assert MAXLEVEL == 32;
      hide *;
      Basics();
      var update, rank;
      ghost var t;
      update, rank, t := FindPlace(obj, h);
      x := InsertNode(obj, h, update, rank, t);
    }

    // ----- zslDeleteNode

    method UnlinkLevel(x: Node, up: Node, i: nat, ghost T: set<Node>)
      requires
        && x in T && up in T && x != up && i < |up.level| && up.level[i].span > 0
        && (up.level[i].forward == x ==> i < |x.level|)
      modifies up`level
      ensures LevelUnlinked(old(Snap(T)), Snap(T), x, up, i)
    {
      hide *;
      ghost var G := Snap(T);
      SnapKeys(T);
      forall m | m in T ensures G[m] == m.Get() { SnapGet(T, T, m); }
      GetIs(x);
      GetIs(up);
      if up.level[i].forward == x {
        up.level := up.level[i := Level(x.level[i].forward, up.level[i].span + x.level[i].span - 1)];
      } else {
        up.level := up.level[i := up.level[i].(span := up.level[i].span - 1)];
      }
      forall m | m in T ensures m in Snap(T) && Snap(T)[m] == m.Get() { SnapGet(T, T, m); }
      SnapKeys(T);
      GetIs(x);
      GetIs(up);
      MakeLevelUnlinked(G, Snap(T), x, up, i);
    }

    method UnlinkLevels(x: Node, update: seq<Node>, ghost t: nat, ghost u: seq<nat>)
      requires
        && Lists(Snap(S), L) && LinksOk(Snap(S), L, level) && Updates(Snap(S), L, t, level, u)
        && t + 1 < |L| && L[t + 1] == x && x in S
      requires |update| >= level && forall i :: 0 <= i < level ==> u[i] < |L| && update[i] == L[u[i]]
      modifies S`level
      ensures PartlyTaken(old(Snap(S)), Snap(S), L, t, level, u, x, level)
    {
      hide *;
      ghost var F := Snap(S);
      OpenUpdates(F, L, t, level, u);
      SnapKeys(S);
      PartlyTakenNone(F, L, t, level, u, x);
      var i := 0;
      while i < level
        invariant i <= level && PartlyTaken(F, Snap(S), L, t, level, u, x, i)
      {
        ghost var G := Snap(S);
        PartlyTakenAt(F, G, L, t, level, u, x, i);
        var up := update[i];
        SnapKeys(S);
        SnapAt(S, up);
        SnapAt(S, x);
        SpanAt(F, L, level, t, u, i);
        UnlinkLevel(x, up, i, S);
        TakeStep(F, G, Snap(S), L, t, level, u, x, i);
        i := i + 1;
      }
    }

    method UnlinkBack(x: Node, ghost F: Heap, ghost t: nat)
      requires Lists(F, L) && F.Keys == S && t + 1 < |L| && L[t + 1] == x
      requires x.level != [] && x.level[0].forward == if t + 2 < |L| then L[t + 2] else null
      requires forall m :: m in S ==> m in F && m.backward == F[m].backward
      modifies S`backward, this`tail
      ensures BackTakenOut(F, Snap(S - {x}), L, t, old(tail), tail)
      ensures SameLevelsBut(old(Snap(S)), Snap(S - {x}), x)
    {
      hide *;
      ghost var tail0, G, T := tail, Snap(S), S - {x};
      SnapKeys(S);
      SnapKeys(T);
      forall m | m in S ensures m in G && G[m].level == m.level { SnapAt(S, m); }
      forall p | 0 <= p < |L| ensures L[p] in F && L[p] in S { InList(F, L, p); }
      DistinctAt(F, L, t, t + 1);
      if x.level[0].forward != null {
        DistinctAt(F, L, t + 1, t + 2);
        x.level[0].forward.backward := x.backward;
      } else {
        tail := x.backward;
      }
      forall m | m in T
        ensures m in Snap(T) && Snap(T)[m].level == m.level && Snap(T)[m].backward == m.backward
      {
        SnapAt(T, m);
      }
      SnapKeys(T);
      forall p | 0 <= p < |L| && p != t + 1
        ensures L[p] in T && L[p].backward == if p == t + 2 then F[x].backward else F[L[p]].backward
      {
        DistinctAt(F, L, p, t + 1);
        if t + 2 < |L| && p != t + 2 { DistinctAt(F, L, p, t + 2); }
      }
      MakeBackTakenOut(F, Snap(T), L, t, tail0, tail);
      MakeSameLevelsBut(G, Snap(T), x);
    }

    /** The level in use sinks while the header has nothing on it. */
    method Sink()
      requires Indexed(Snap(S), L, level, tail) && |L| > 0 && L[0] == header
      modifies this`level
      ensures Indexed(Snap(S), L, level, tail) && Lists(Snap(S), L) && Tight(Snap(S), L, level) && level <= old(level)
    {
      hide *;
      OpenIndexed(Snap(S), L, level, tail);
      OpenHeights(Snap(S), L, level);
      SnapKeys(S);
      SnapAt(S, header);
      while level > 1 && header.level[level - 1].forward == null
        invariant Indexed(Snap(S), L, level, tail) && 1 <= level <= old(level) && level <= |header.level|
      {
        LowerIndexed(Snap(S), L, level, tail);
        level := level - 1;
      }
      MakeTight(Snap(S), L, level);
    }

    /** Unlinks x from its neighbours in both directions. */
    method TakeOut(x: Node, update: seq<Node>, ghost t: nat, ghost u: seq<nat>)
      requires
        && TotalPreorder(cmp) && Indexed(Snap(S), L, level, tail) && Sorted(cmp, L)
        && Updates(Snap(S), L, t, level, u) && t + 1 < |L| && L[t + 1] == x
      requires |update| >= level && forall i :: 0 <= i < level ==> u[i] < |L| && update[i] == L[u[i]]
      modifies S, this`tail
      ensures AfterDelete(cmp, Snap(S - {x}), L, t, level, u, tail)
      ensures forall m :: m in old(S) && m != x ==> |m.level| == old(|m.level|)
    {
      hide *;
      ghost var F, tail0 := Snap(S), tail;
      OpenIndexed(F, L, level, tail);
      SnapKeys(S);
      InList(F, L, t + 1);
      LinkZero(F, L, level, tail, t + 1);
      forall m | m in S ensures m in F && F[m].backward == m.backward && F[m].level == m.level { SnapAt(S, m); }
      OpenUpdates(F, L, t, level, u);
      UnlinkLevels(x, update, t, u);
      ghost var G := Snap(S);
      TakenHeights(F, G, L, t, level, u, x);
      PartlyTakenSelf(F, G, L, t, level, u, x, level);
      SnapAt(S, x);
      UnlinkBack(x, F, t);
      SameLevelsButIs(G, Snap(S - {x}), x);
      forall m | m in S - {x} ensures m in Snap(S - {x}) && Snap(S - {x})[m].level == m.level { SnapAt(S - {x}, m); }
      DeleteDone(cmp, F, G, Snap(S - {x}), L, t, level, u, x, tail0, tail);
    }

    /** The search has found the update positions for the cut at t. */
    ghost predicate Path(update: seq<Node>, t: nat, u: seq<nat>)
      reads this, S
    {
      && Updates(Snap(S), L, t, level, u) && |update| >= level
      && forall i :: 0 <= i < level ==> u[i] < |L| && update[i] == L[u[i]]
    }

    lemma OpenPath(update: seq<Node>, t: nat, u: seq<nat>)
      ensures Path(update, t, u) <==>
          && Updates(Snap(S), L, t, level, u) && |update| >= level
          && forall i :: 0 <= i < level ==> u[i] < |L| && update[i] == L[u[i]]
    {
    }

    /** zslDeleteNode, for the node behind the update positions. */
    method DeleteNode(x: Node, update: seq<Node>, ghost t: nat, ghost u: seq<nat>) returns (ghost v: seq<nat>)
      requires Valid() && Path(update, t, u) && t + 1 < |L| && L[t + 1] == x
      modifies this, S
      ensures Valid() && S == old(S) - {x} && L == Deleted(old(L), t) && level <= old(level)
      ensures forall m :: m in S ==> |m.level| == old(|m.level|)
      ensures Path(update, t, v)
    {
      hide *;
      Opened();
      OpenPath(update, t, u);
      ghost var L0, lev := L, level;
      TakeOut(x, update, t, u);
      OpenAfterDelete(cmp, Snap(S - {x}), L, t, level, u, tail);
      S := S - {x};
      L := Deleted(L, t);
      ghost var H := Snap(S);
      Sink();
      length := length - 1;
      UpdatesLess(H, L, t, lev, level, u);
      v := u[..level];
      OpenPath(update, t, v);
      Close();
    }

    /** The node behind the one at position p. */
    method Following(x: Node, ghost p: nat) returns (next: Node?)
      requires Valid() && p < |L| && L[p] == x
      ensures next == if p + 1 < |L| then L[p + 1] else null
    {
      hide *;
      Opened();
      LinkZero(Snap(S), L, level, tail, p);
      SnapAt(S, x);
      next := x.level[0].forward;
    }

    /** The search, and the node behind the place it finds. */
    method Seek(before: int -> bool, ghost t: nat) returns (update: seq<Node>, x: Node?, i: int, ghost u: seq<nat>)
      requires Valid() && Cut(L, before, t)
      ensures Path(update, t, u) && t < |L| && x == (if t + 1 < |L| then L[t + 1] else null) && i == -1
    {
      hide *;
      Basics();
      var rank;
      update, rank, i := Descend(before, t);
      u := rank;
      UpdateZero(Snap(S), L, t, level, rank, tail);
      CutBound(L, before, t);
      OpenPath(update, t, u);
      x := Following(update[0], t);
    }

    /**
     * zslDelete: the first object that compares equal goes. The indices into a level array with which the
     * comparison behind the search reads are recorded; the comparison itself is made with the node found.
     */
    method Delete(obj: int) returns (found: bool, ghost indices: seq<int>)
      requires Valid()
      modifies this, S
      ensures Valid()
      ensures found <==> Has(cmp, old(L), obj)
      ensures if found then FirstDeleted(cmp, old(L), L, obj) else L == old(L) && S == old(S)
      ensures S <= old(S) && forall m :: m in S ==> |m.level| == old(|m.level|)
      ensures indices == if SomeNotLess(cmp, old(L), obj) then [-1] else []
    {
      hide *;
      Basics();
      LessClosed(cmp, L, obj);
      ghost var t := CutExists(L, Less(cmp, obj), |L| - 1);
      FirstEqual(cmp, L, obj, t);
      CandidateExists(cmp, L, obj, t);
      var update, x, i;
      ghost var u;
      update, x, i, u := Seek(Less(cmp, obj), t);
      indices := if x != null then [i] else [];
      found := x != null && cmp(x.obj, obj) == 0;
      if found {
        MakeFirstDeleted(cmp, L, obj, t);
        u := DeleteNode(x, update, t, u);
      }
    }

    /** zslDeleteRange: exactly the objects in the range go. */
    method DeleteRange(range: Range) returns (removed: nat)
      requires Valid()
      modifies this, S
      ensures Valid() && removed == |old(L)| - |L|
      ensures RangeDeleted(cmp, range, old(L), L)
      ensures S <= old(S) && forall m :: m in S ==> |m.level| == old(|m.level|)
    {
      hide *;
      Basics();
      ghost var L0, S0 := L, S;
      BelowClosed(cmp, L, range);
      ghost var t := CutExists(L, BelowMin(cmp, range), |L| - 1);
      var update, x, i;
      ghost var u;
      update, x, i, u := Seek(BelowMin(cmp, range), t);
      removed := 0;
      TrimStart(AtMostMax(cmp, range), L0, t, x);
      while x != null && AtMostMax(cmp, range)(x.obj)
        invariant Valid() && S <= S0 && Path(update, t, u) && Trimmed(AtMostMax(cmp, range), L0, L, t, removed, x)
        invariant forall m :: m in S ==> |m.level| == old(|m.level|)
        invariant removed <= |L0|
        decreases |L0| - removed
      {
        TrimNext(AtMostMax(cmp, range), L0, L, t, removed, x);
        var next := Following(x, t + 1);
        TrimStep(AtMostMax(cmp, range), L0, L, t, removed, x, next);
        u := DeleteNode(x, update, t, u);
        removed := removed + 1;
        x := next;
      }
      TrimEnd(cmp, range, L0, L, t, removed, x);
    }

    /** zslDeleteRangeByRank: exactly the ranks from start to end go, counting from 1. */
    method DeleteRangeByRank(start: nat, end: nat) returns (removed: nat)
      requires Valid()
      modifies this, S
      ensures Valid() && removed == |old(L)| - |L|
      ensures RanksDeleted(start, end, old(L), L)
      ensures S <= old(S) && forall m :: m in S ==> |m.level| == old(|m.level|)
    {
      hide *;
      Basics();
      ghost var L0, S0 := L, S;
      ghost var t: nat := RankCut(start, |L|);
      var update, traversed;
      ghost var u;
      update, traversed, u := DescendToRank(start, t);
      traversed := traversed + 1;
      var x := Following(update[0], t);
      removed := 0;
      TrimStart(Any(), L0, t, x);
      AnyIs();
      while x != null && traversed <= end
        invariant Valid() && S <= S0 && Path(update, t, u) && Trimmed(Any(), L0, L, t, removed, x)
        invariant forall m :: m in S ==> |m.level| == old(|m.level|)
        invariant removed <= |L0| && traversed == t + 1 + removed && (removed > 0 ==> t + removed <= end)
        decreases |L0| - removed
      {
        TrimNext(Any(), L0, L, t, removed, x);
        var next := Following(x, t + 1);
        TrimStep(Any(), L0, L, t, removed, x, next);
        u := DeleteNode(x, update, t, u);
        removed := removed + 1;
        traversed := traversed + 1;
        x := next;
      }
      TrimRanks(start, end, L0, L, t, removed, x);
    }

    /** The last node on every level whose rank is below start. */
    method DescendToRank(start: nat, ghost t: nat) returns (update: seq<Node>, traversed: nat, ghost u: seq<nat>)
      requires Valid() && t == RankCut(start, |L|)
      ensures Path(update, t, u) && traversed == t < |L| && |update| > 0 && update[0] == L[t]
    {
      hide *;
      Basics();
      ghost var F := Snap(S);
      OpenIndexed(F, L, level, tail);
      RankCutIs(start, |L|);
      var x := header;
      SnapAt(S, header);
      traversed := 0;
      update, u := seq(level, i => header), seq(level, i => 0);
      FoundNone(F, L, t, level, update, u);
      var i := level - 1;
      while i >= 0
        invariant Snap(S) == F
        invariant -1 <= i < level && Found(F, L, t, i, level, update, u) && |update| == |u| == level
        invariant if i == level - 1 then x == header && traversed == 0
          else traversed <= t && Settled(F, L, x, traversed, i + 1, t) && update[i + 1] == x
      {
        if i < level - 1 { SettledIs(F, L, x, traversed, i + 1, t); }
        StandsIs(F, L, x, traversed, i);
        x, traversed := SkipByRank(x, i, traversed, start, t);
        SettledIs(F, L, x, traversed, i, t);
        FoundStep(F, L, t, i, level, update, u, x, traversed);
        update := update[i := x];
        u := u[i := traversed];
        i := i - 1;
      }
      FoundAll(F, L, t, level, update, u);
      SettledIs(F, L, x, traversed, 0, t);
      ZeroUpdate(F, L, t, level, tail, traversed);
      OpenPath(update, t, u);
    }

    // ----- queries

    /** One level of the search for a rank; it is over when it stops at an equal object. */
    method RankLevel(x0: Node, i: nat, rank0: nat, obj: int, ghost t: nat) returns (x: Node, rank: nat, hit: bool)
      requires TotalPreorder(cmp) && Sorted(cmp, L) && Lists(Snap(S), L) && LinksOk(Snap(S), L, level) && i < level
      requires Cut(L, AtMost(cmp, obj), t) && rank0 <= t && |L| > 0 && L[0] == header
      requires Stands(Snap(S), L, x0, rank0, i) && NoneTaller(cmp, Snap(S), L, obj, i + 1)
      ensures Snap(S) == old(Snap(S)) && rank <= t
      ensures hit ==> rank > 0 && RankOf(cmp, L, obj, rank) && LastTallest(cmp, Snap(S), L, obj, rank)
      ensures !hit ==> Missed(cmp, Snap(S), L, x, rank, i, obj, t) && NoneTaller(cmp, Snap(S), L, obj, i)
    {
      hide *;
      x, rank := SkipWhile(x0, i, rank0, AtMost(cmp, obj), t);
      MissOrHit(cmp, Snap(S), L, x, rank, i, obj, t);
      hit := x != header && cmp(x.obj, obj) == 0;
    }

    /** zslGetRank: the rank of the last one of the tallest nodes whose objects compare equal, or 0. */
    method GetRank(obj: int) returns (rank: nat)
      requires Valid()
      ensures RankOf(cmp, L, obj, rank)
      ensures Lists(Snap(S), L) && (rank > 0 ==> LastTallest(cmp, Snap(S), L, obj, rank))
    {
      hide *;
      Basics();
      ghost var F := Snap(S);
      OpenIndexed(F, L, level, tail);
      LessClosed(cmp, L, obj);
      ghost var t := CutExists(L, AtMost(cmp, obj), |L| - 1);
      CutBound(L, AtMost(cmp, obj), t);
      AllLow(cmp, F, L, level, tail, obj);
      SnapAt(S, header);
      var x, hit := header, false;
      rank := 0;
      var i := level - 1;
      while i >= 0
        invariant Snap(S) == F && -1 <= i < level && rank <= t && NoneTaller(cmp, F, L, obj, i + 1)
        invariant if i == level - 1 then x == header && rank == 0 else Missed(cmp, F, L, x, rank, i + 1, obj, t)
      {
        if i < level - 1 { MissedIs(cmp, F, L, x, rank, i + 1, obj, t); }
        StandsIs(F, L, x, rank, i);
        x, rank, hit := RankLevel(x, i, rank, obj, t);
        if hit {
          return;
        }
        i := i - 1;
      }
      NotFound(cmp, F, L, level, tail, x, rank, obj, t);
      rank := 0;
    }

    /** zslGetElementByRank: indexing; rank 0 is the header. */
    method GetElementByRank(rank: nat) returns (r: Node?)
      requires Valid()
      ensures r == if rank < |L| then L[rank] else null
    {
      hide *;
      Basics();
      ghost var F := Snap(S);
      OpenIndexed(F, L, level, tail);
      ghost var t: nat := RankCut(rank + 1, |L|);
      RankCutIs(rank + 1, |L|);
      var x := header;
      SnapAt(S, header);
      var traversed: nat := 0;
      var i := level - 1;
      while i >= 0
        invariant Snap(S) == F
        invariant -1 <= i < level && traversed <= t
        invariant if i == level - 1 then x == header && traversed == 0
          else Settled(F, L, x, traversed, i + 1, t) && traversed != rank
      {
        if i < level - 1 { SettledIs(F, L, x, traversed, i + 1, t); }
        StandsIs(F, L, x, traversed, i);
        x, traversed := SkipByRank(x, i, traversed, rank + 1, t);
        SettledIs(F, L, x, traversed, i, t);
        if traversed == rank {
          return x;
        }
        i := i - 1;
      }
      SettledIs(F, L, x, traversed, 0, t);
      ZeroUpdate(F, L, t, level, tail, traversed);
      return null;
    }

    /**
     * zslIsInRange: yes exactly if the range is not the empty one at a single value, and neither all objects lie below
     * it nor all above it; no object at all can be in the range when the answer is no.
     */
    method IsInRange(range: Range) returns (r: bool)
      requires Valid()
      ensures !r ==> NoneInRange(cmp, range, L)
      ensures r <==>
        && |L| > 1 && !BelowMin(cmp, range)(L[|L| - 1].obj) && AtMostMax(cmp, range)(L[1].obj)
        && !(range.min == range.max && (range.minex || range.maxex))
    {
      hide *;
      Basics();
      RangeEnds(cmp, range, L);
      if range.min == range.max && (range.minex || range.maxex) {
        EmptyRange(cmp, range, L);
        return false;
      }
      TailIs(Snap(S), L, level, tail);
      var x := tail;
      if x == null || BelowMin(cmp, range)(x.obj) {
        return false;
      }
      x := Following(header, 0);
      if x == null || !AtMostMax(cmp, range)(x.obj) {
        return false;
      }
      return true;
    }

    /** zslFirstInRange */
    method FirstInRange(range: Range) returns (r: Node?)
      requires Valid()
      ensures if r == null then NoneInRange(cmp, range, L) else FirstOf(cmp, range, L, r)
    {
      hide *;
      Basics();
      var some := IsInRange(range);
      if !some {
        return null;
      }
      BelowClosed(cmp, L, range);
      ghost var t := CutExists(L, BelowMin(cmp, range), |L| - 1);
      var update, x, i;
      ghost var u;
      update, x, i, u := Seek(BelowMin(cmp, range), t);
      CutAt(L, BelowMin(cmp, range), t, |L| - 1);
      FirstAfterCut(cmp, range, L, t);
      if !AtMostMax(cmp, range)(x.obj) {
        return null;
      }
      return x;
    }

    /** zslLastInRange */
    method LastInRange(range: Range) returns (r: Node?)
      requires Valid()
      ensures if r == null then NoneInRange(cmp, range, L) else LastOf(cmp, range, L, r)
    {
      hide *;
      Basics();
      var some := IsInRange(range);
      if !some {
        return null;
      }
      BelowClosed(cmp, L, range);
      ghost var t := CutExists(L, AtMostMax(cmp, range), |L| - 1);
      var update, x, i;
      ghost var u;
      update, x, i, u := Seek(AtMostMax(cmp, range), t);
      CutAt(L, AtMostMax(cmp, range), t, 1);
      OpenPath(update, t, u);
      UpdateZero(Snap(S), L, t, level, u, tail);
      x := update[0];
      LastBeforeCut(cmp, range, L, t);
      if BelowMin(cmp, range)(x.obj) {
        return null;
      }
      return x;
    }
  }

  lemma OpenHeights(F: Heap, L: seq<Node>, lev: nat)
    requires Lists(F, L) && HeightsOk(F, L, lev)
    ensures |L| > 0 && L[0] in F && |F[L[0]].level| == MAXLEVEL == 32 && 1 <= lev <= 32
    ensures forall p :: 1 <= p < |L| ==> L[p] in F && 1 <= |F[L[p]].level| <= lev
  {
  }

  lemma CutAt(L: seq<Node>, before: int -> bool, t: nat, q: nat)
    requires Cut(L, before, t) && 1 <= q < |L|
    ensures t < |L| && (before(L[q].obj) <==> q <= t)
  {
  }

  /** The next position on a level, as the links and spans have it. */
  lemma NextOn(F: Heap, L: seq<Node>, lev: nat, r: nat, i: nat) returns (q: nat)
    requires Lists(F, L) && LinksOk(F, L, lev) && i < lev && r < |L| && L[r] in F && i < |F[L[r]].level|
    ensures r < q <= |L| && Gap(F, L, r, q, i)
    ensures F[L[r]].level[i] == if q == |L| then Level(null, |L| - 1 - r) else Level(L[q], q - r)
    ensures q < |L| ==> L[q] in F && i < |F[L[q]].level|
  {
    OpenLinks(F, L, lev, r, i);
    q := OpenLinkOk(F, L, r, i);
  }

  lemma CutBound(L: seq<Node>, before: int -> bool, t: nat)
    requires Cut(L, before, t)
    ensures t < |L|
  {
  }

  /** The levels above i have been searched. */
  ghost predicate Found(F: Heap, L: seq<Node>, t: nat, i: int, lev: nat, update: seq<Node>, rank: seq<nat>)
    requires Lists(F, L)
  {
    && |update| == |rank| == lev
    && forall j: nat :: i < j < lev ==> rank[j] < |L| && IsUpdate(F, L, t, j, rank[j]) && update[j] == L[rank[j]]
  }

  lemma FoundNone(F: Heap, L: seq<Node>, t: nat, lev: nat, update: seq<Node>, rank: seq<nat>)
    requires Lists(F, L) && |update| == |rank| == lev
    ensures Found(F, L, t, lev - 1, lev, update, rank)
  {
  }

  lemma FoundStep(F: Heap, L: seq<Node>, t: nat, i: nat, lev: nat, update: seq<Node>, rank: seq<nat>, x: Node, r: nat)
    requires
      && Lists(F, L) && Found(F, L, t, i, lev, update, rank) && i < lev && |update| == |rank| == lev
      && r < |L| && IsUpdate(F, L, t, i, r) && x == L[r]
    ensures Found(F, L, t, i - 1, lev, update[i := x], rank[i := r])
  {
  }

  lemma FoundAll(F: Heap, L: seq<Node>, t: nat, lev: nat, update: seq<Node>, rank: seq<nat>)
    requires Lists(F, L) && Found(F, L, t, -1, lev, update, rank)
    ensures Updates(F, L, t, lev, rank) && |update| == |rank| == lev
    ensures forall i :: 0 <= i < lev ==> rank[i] < |L| && update[i] == L[rank[i]]
  {
  }

  lemma OpenUpdates(F: Heap, L: seq<Node>, t: nat, lev: nat, u: seq<nat>)
    requires Updates(F, L, t, lev, u)
    ensures |u| == lev
  {
  }

  lemma MakeRaised(F: Heap, G: Heap, header: Node, length: nat, lev: nat, top: nat)
    requires
      && G.Keys == F.Keys && header in F && |G[header].level| == |F[header].level| == MAXLEVEL
      && G[header].backward == F[header].backward
    requires forall j :: 0 <= j < MAXLEVEL ==>
        G[header].level[j] == if lev <= j < top then Level(F[header].level[j].forward, length) else F[header].level[j]
    requires forall m :: m in F && m != header ==> G[m].level == F[m].level && G[m].backward == F[m].backward
    ensures Raised(F, G, header, length, lev, top)
  {
  }

  lemma RaisedUpdates(F: Heap, G: Heap, L: seq<Node>, t: nat, lev: nat, top: nat, tail: Node?, u: seq<nat>, v: seq<nat>)
    requires
      && Indexed(F, L, lev, tail) && Raised(F, G, L[0], |L| - 1, lev, top) && lev < top <= MAXLEVEL
      && Updates(F, L, t, lev, u)
    requires |v| == top && v[..lev] == u && forall j :: lev <= j < top ==> v[j] == 0
    ensures Updates(G, L, t, top, v)
  {
    assert Lists(G, L);
    forall i | 0 <= i < top ensures IsUpdate(G, L, t, i, v[i]) {
      assert IsUpdate(F, L, t, 0, u[0]);
      if i < lev {
        assert v[i] == v[..lev][i] == u[i];
        assert IsUpdate(F, L, t, i, u[i]);
      }
    }
  }

  lemma SnapGet(S: set<Node>, T: set<Node>, m: Node)
    requires m in T
    ensures m in Snap(T) && Snap(T)[m] == m.Get()
    ensures m in S ==> m in Snap(S) && Snap(S)[m] == m.Get()
  {
  }

  lemma GetIs(n: Node)
    ensures n.Get() == Fields(n.level, n.backward)
  {
  }

  lemma SpanAt(F: Heap, L: seq<Node>, lev: nat, t: nat, u: seq<nat>, i: nat)
    requires Lists(F, L) && LinksOk(F, L, lev) && Updates(F, L, t, lev, u) && i < lev
    ensures
      |u| == lev && u[i] <= t < |L| && L[u[i]] in F && i < |F[L[u[i]]].level| && F[L[u[i]]].level[i].span >= t - u[i]
  {
    assert IsUpdate(F, L, t, i, u[i]);
    SpanReaches(F, L, lev, t, i, u[i]);
  }

  ghost predicate LevelLinked(G: Heap, H: Heap, x: Node, up: Node, i: nat, distance: nat) {
    && H.Keys == G.Keys && x in G && up in G && i < |G[x].level| && i < |G[up].level| && G[up].level[i].span >= distance
    && H[x] == G[x].(level := G[x].level[i := Level(G[up].level[i].forward, G[up].level[i].span - distance)])
    && H[up] == G[up].(level := G[up].level[i := Level(x, distance + 1)])
    && forall m :: m in G && m != x && m != up ==> H[m] == G[m]
  }

  lemma MakeLevelLinked(G: Heap, H: Heap, x: Node, up: Node, i: nat, distance: nat)
    requires
      && H.Keys == G.Keys && x in G && up in G && i < |G[x].level| && i < |G[up].level|
      && G[up].level[i].span >= distance
    requires H[x] == G[x].(level := G[x].level[i := Level(G[up].level[i].forward, G[up].level[i].span - distance)])
    requires H[up] == G[up].(level := G[up].level[i := Level(x, distance + 1)])
    requires forall m :: m in G && m != x && m != up ==> H[m] == G[m]
    ensures LevelLinked(G, H, x, up, i, distance)
  {
  }

  ghost predicate LevelStretched(G: Heap, H: Heap, up: Node, i: nat) {
    && H.Keys == G.Keys && up in G && i < |G[up].level|
    && H[up] == G[up].(level := G[up].level[i := Level(G[up].level[i].forward, G[up].level[i].span + 1)])
    && forall m :: m in G && m != up ==> H[m] == G[m]
  }

  lemma MakeLevelStretched(G: Heap, H: Heap, up: Node, i: nat)
    requires H.Keys == G.Keys && up in G && i < |G[up].level|
    requires H[up] == G[up].(level := G[up].level[i := Level(G[up].level[i].forward, G[up].level[i].span + 1)])
    requires forall m :: m in G && m != up ==> H[m] == G[m]
    ensures LevelStretched(G, H, up, i)
  {
  }

  lemma LinkStepLow(F: Heap, G: Heap, H: Heap, L: seq<Node>, t: nat, lev: nat, u: seq<nat>, x: Node, h: nat, k: nat)
    requires PartlyLinked(F, G, L, t, lev, u, x, h, k) && k < h && k < |u| && u[k] <= t < |L|
    requires LevelLinked(G, H, x, L[u[k]], k, t - u[k]) && x != L[u[k]]
    ensures PartlyLinked(F, H, L, t, lev, u, x, h, k + 1)
  {
    assert h <= lev && |G[x].level| == h;
    hide PartlyLinked;
    LinkStep(F, G, H, L, t, lev, u, x, h, k);
  }

  lemma LinkStepHigh(F: Heap, G: Heap, H: Heap, L: seq<Node>, t: nat, lev: nat, u: seq<nat>, x: Node, h: nat, k: nat)
    requires PartlyLinked(F, G, L, t, lev, u, x, h, k) && h <= k < lev && k < |u| && u[k] <= t < |L|
    requires LevelStretched(G, H, L[u[k]], k) && x != L[u[k]]
    ensures PartlyLinked(F, H, L, t, lev, u, x, h, k + 1)
  {
    assert x in G;
    hide PartlyLinked;
    LinkStep(F, G, H, L, t, lev, u, x, h, k);
  }

  lemma DistinctHead(F: Heap, L: seq<Node>, t: nat)
    requires Lists(F, L) && t < |L|
    ensures L[t] == L[0] <==> t == 0
  {
  }

  lemma MakeBackLinkedIn(F: Heap, G: Heap, L: seq<Node>, t: nat, x: Node, tail: Node?, tail': Node?)
    requires
      && Lists(F, L) && t < |L| && G.Keys == F.Keys + {x} && x !in F
      && (forall m :: m in F ==> |G[m].level| == |F[m].level|)
    requires G[x].backward == (if t == 0 then null else L[t])
    requires forall p :: 0 <= p < |L| ==> L[p] in F && G[L[p]].backward == if p == t + 1 then x else F[L[p]].backward
    requires tail' == if t + 1 < |L| then tail else x
    ensures BackLinkedIn(F, G, L, t, x, tail, tail')
  {
  }

  ghost predicate SameLevels(G: Heap, H: Heap) {
    H.Keys == G.Keys && forall m :: m in G ==> H[m].level == G[m].level
  }

  lemma MakeSameLevels(G: Heap, H: Heap)
    requires H.Keys == G.Keys && forall m :: m in G ==> H[m].level == G[m].level
    ensures SameLevels(G, H)
  {
  }

  lemma LinkedInSame(F: Heap, G: Heap, H: Heap, L: seq<Node>, t: nat, lev: nat, u: seq<nat>, x: Node, h: nat)
    requires LinkedIn(F, G, L, t, lev, u, x, h) && SameLevels(G, H)
    ensures LinkedIn(F, H, L, t, lev, u, x, h)
  {
    forall m, j: nat | m in F && j < |F[m].level| ensures OldEntry(F, H, L, t, lev, u, x, h, m, j) {
      assert OldEntry(F, G, L, t, lev, u, x, h, m, j);
    }
    forall j: nat | j < h ensures NewEntry(F, H, L, t, lev, u, x, h, j) {
      assert NewEntry(F, G, L, t, lev, u, x, h, j);
    }
    hide OldEntry, NewEntry, Updates;
  }

  /** On level 0 the update position is the cut itself. */
  lemma UpdateZero(F: Heap, L: seq<Node>, t: nat, lev: nat, u: seq<nat>, tail: Node?)
    requires Indexed(F, L, lev, tail) && Updates(F, L, t, lev, u)
    ensures u != [] && u[0] == t
  {
    assert IsUpdate(F, L, t, 0, u[0]);
    assert t >= 1 ==> Height(F, L[t]) >= 1;
  }

  /** x's first link leads to what followed position t. */
  lemma ForwardZero(F: Heap, G: Heap, L: seq<Node>, lev: nat, tail: Node?, t: nat, u: seq<nat>, x: Node, h: nat)
    requires Indexed(F, L, lev, tail) && LinkedIn(F, G, L, t, lev, u, x, h) && u != [] && u[0] == t && t < |L|
    ensures x in G && |G[x].level| == h && h > 0 && G[x].level[0].forward == if t + 1 < |L| then L[t + 1] else null
  {
    OpenLinkedIn(F, G, L, t, lev, u, x, h);
    assert IsUpdate(F, L, t, 0, u[0]);
    LinkZero(F, L, lev, tail, t);
    NewEntryIs(F, G, L, t, lev, u, x, h, 0);
  }

  /** Level 0 links every node to the next one. */
  lemma LinkZero(F: Heap, L: seq<Node>, lev: nat, tail: Node?, p: nat)
    requires Indexed(F, L, lev, tail) && p < |L|
    ensures
      && L[p] in F && |F[L[p]].level| > 0
      && F[L[p]].level[0] == if p + 1 < |L| then Level(L[p + 1], 1) else Level(null, 0)
  {
    OpenLinks(F, L, lev, p, 0);
    var q := OpenLinkOk(F, L, p, 0);
    assert p + 1 < |L| ==> Height(F, L[p + 1]) >= 1;
  }

  lemma InsertTight(F: Heap, G: Heap, L: seq<Node>, t: nat, lev: nat, u: seq<nat>, x: Node, h: nat)
    requires
      && LinkedIn(F, G, L, t, lev, u, x, h) && t < |L| && L[0] in F && |F[L[0]].level| == MAXLEVEL
      && 1 <= lev <= MAXLEVEL && |u| == lev
    requires lev > 1 ==> F[L[0]].level[lev - 1].forward != null || (h == lev && u[lev - 1] == 0)
    ensures Lists(G, Inserted(L, t, x)) && Tight(G, Inserted(L, t, x), lev)
  {
    OpenLinkedIn(F, G, L, t, lev, u, x, h);
    InsertLists(F, G, L, t, x);
    InsertedAt(L, t, x, 0);
    if lev > 1 { assert OldEntry(F, G, L, t, lev, u, x, h, L[0], lev - 1); }
    hide LinkedIn, Inserted, Lists;
  }

  lemma InsertSorted(cmp: Cmp, L: seq<Node>, t: nat, x: Node)
    requires TotalPreorder(cmp) && Sorted(cmp, L) && Cut(L, Less(cmp, x.obj), t)
    ensures t < |L| && Sorted(cmp, Inserted(L, t, x))
  {
    var M := Inserted(L, t, x);
    InsertedAt(L, t, x, 0);
    hide Inserted;
    forall p, q | 1 <= p < q < |M| ensures cmp(M[p].obj, M[q].obj) <= 0 {
      InsertedAt(L, t, x, p);
      InsertedAt(L, t, x, q);
      if p == t + 1 { assert !Less(cmp, x.obj)(L[q - 1].obj); }
      if q == t + 1 { assert Less(cmp, x.obj)(L[p].obj); }
    }
  }

  /** All that the list promises after an insertion. */
  lemma InsertDone(cmp: Cmp, F: Heap, H: Heap, L: seq<Node>, t: nat, lev: nat, u: seq<nat>, x: Node, h: nat,
      tail: Node?, tail': Node?)
    requires TotalPreorder(cmp) && Sorted(cmp, L) && Cut(L, Less(cmp, x.obj), t) && Indexed(F, L, lev, tail) && t < |L|
    requires LinkedIn(F, H, L, t, lev, u, x, h) && Lists(F, L) && BackLinkedIn(F, H, L, t, x, tail, tail')
    requires L[0] in F && |F[L[0]].level| == MAXLEVEL && 1 <= lev <= MAXLEVEL && |u| == lev
    requires lev > 1 ==> F[L[0]].level[lev - 1].forward != null || (h == lev && u[lev - 1] == 0)
    ensures var M := Inserted(L, t, x);
      && Indexed(H, M, lev, tail') && Lists(H, M) && Tight(H, M, lev) && Sorted(cmp, M)
      && |M| == |L| + 1 && M[0] == L[0]
  {
    hide *;
    InsertIndexed(F, H, L, t, lev, u, x, h, tail, tail');
    OpenIndexed(H, Inserted(L, t, x), lev, tail');
    InsertTight(F, H, L, t, lev, u, x, h);
    InsertSorted(cmp, L, t, x);
    InsertedAt(L, t, x, 0);
  }

  lemma HeightsKept(F: Heap, G: Heap)
    requires SameHeights(F, G)
    ensures forall m :: m in F ==> m in G && |G[m].level| == |F[m].level|
  {
  }

  lemma MakeLevelUnlinked(G: Heap, H: Heap, x: Node, up: Node, i: nat)
    requires H.Keys == G.Keys && x in G && up in G && i < |G[up].level| && H[up].backward == G[up].backward
    requires var l := G[up].level[i];
      if l.forward == x then
        && i < |G[x].level| && l.span + G[x].level[i].span >= 1
        && H[up].level == G[up].level[i := Level(G[x].level[i].forward, l.span + G[x].level[i].span - 1)]
      else l.span >= 1 && H[up].level == G[up].level[i := Level(l.forward, l.span - 1)]
    requires forall m :: m in G && m != up ==> H[m] == G[m]
    ensures LevelUnlinked(G, H, x, up, i)
  {
  }

  lemma MakeBackTakenOut(F: Heap, G: Heap, L: seq<Node>, t: nat, tail: Node?, tail': Node?)
    requires Lists(F, L) && t + 1 < |L| && L[t + 1] in F
    requires forall p :: 0 <= p < |L| && p != t + 1 ==>
        L[p] in F && L[p] in G && G[L[p]].backward == if p == t + 2 then F[L[t + 1]].backward else F[L[p]].backward
    requires tail' == if t + 2 < |L| then tail else F[L[t + 1]].backward
    ensures BackTakenOut(F, G, L, t, tail, tail')
  {
  }

  lemma MakeSameLevelsBut(G: Heap, H: Heap, x: Node)
    requires H.Keys == G.Keys - {x} && forall m :: m in H ==> m in G && H[m].level == G[m].level
    ensures SameLevelsBut(G, H, x)
  {
  }

  lemma MakeTight(F: Heap, L: seq<Node>, lev: nat)
    requires
      Lists(F, L) && L[0] in F && (lev > 1 ==> lev - 1 < |F[L[0]].level| && F[L[0]].level[lev - 1].forward != null)
    ensures Tight(F, L, lev)
  {
  }

  lemma PartlyTakenSelf(F: Heap, G: Heap, L: seq<Node>, t: nat, lev: nat, u: seq<nat>, x: Node, k: nat)
    requires PartlyTaken(F, G, L, t, lev, u, x, k)
    ensures
      x in F && x in G && G[x] == F[x] && G.Keys == F.Keys && forall m :: m in F ==> G[m].backward == F[m].backward
  {
  }

  lemma UpdatesKept(F: Heap, H: Heap, L: seq<Node>, t: nat, lev: nat, u: seq<nat>, x: Node)
    requires TakenOut(F, H, L, t, lev, u, x)
    ensures t + 1 < |L| && Updates(H, Deleted(L, t), t, lev, u)
  {
    OpenTakenOut(F, H, L, t, lev, u, x);
    DeleteLists(F, H, L, t);
    hide TakenOut, Deleted, Lists;
    forall i | 0 <= i < lev ensures IsUpdate(H, Deleted(L, t), t, i, u[i]) {
      UpdateAt(F, L, t, lev, u, i);
      UpdateDeleted(F, H, L, t, i, u[i]);
    }
  }

  lemma UpdatesLess(F: Heap, L: seq<Node>, t: nat, lev: nat, lev': nat, u: seq<nat>)
    requires Updates(F, L, t, lev, u) && lev' <= lev
    ensures lev' <= |u| && Updates(F, L, t, lev', u[..lev'])
  {
  }

  lemma DeleteSorted(cmp: Cmp, L: seq<Node>, t: nat)
    requires Sorted(cmp, L) && t + 1 < |L|
    ensures Sorted(cmp, Deleted(L, t))
  {
  }

  /** Object p of the sequence lies in the range. */
  predicate InRange(cmp: Cmp, range: Range, obj: int) {
    && (if range.minex then cmp(obj, range.min) > 0 else cmp(obj, range.min) >= 0)
    && (if range.maxex then cmp(obj, range.max) < 0 else cmp(obj, range.max) <= 0)
  }

  function BelowMin(cmp: Cmp, range: Range): int -> bool {
    a => if range.minex then cmp(a, range.min) <= 0 else cmp(a, range.min) < 0
  }

  function AtMostMax(cmp: Cmp, range: Range): int -> bool {
    a => if range.maxex then cmp(a, range.max) < 0 else cmp(a, range.max) <= 0
  }

  /** L without the positions from a + 1 to b. */
  function Without(L: seq<Node>, a: nat, b: nat): seq<Node>
    requires a <= b < |L|
  {
    L[..a + 1] + L[b + 1..]
  }

  /** The positions from a + 1 to b are those of the objects in the range. */
  ghost predicate RangeIs(cmp: Cmp, range: Range, L: seq<Node>, a: nat, b: nat) {
    forall p :: 1 <= p < |L| ==> (a < p <= b <==> InRange(cmp, range, L[p].obj))
  }

  lemma WithoutNone(L: seq<Node>, a: nat)
    requires a < |L|
    ensures Without(L, a, a) == L
  {
  }

  lemma WithoutAt(L: seq<Node>, a: nat, b: nat)
    requires a <= b < |L|
    ensures |Without(L, a, b)| == |L| - (b - a)
    ensures b + 1 < |L| ==> Without(L, a, b)[a + 1] == L[b + 1] && Deleted(Without(L, a, b), a) == Without(L, a, b + 1)
    ensures b + 2 < |L| ==> Without(L, a, b)[a + 2] == L[b + 2]
  {
  }

  lemma BelowClosed(cmp: Cmp, L: seq<Node>, range: Range)
    requires TotalPreorder(cmp) && Sorted(cmp, L)
    ensures PrefixClosed(L, BelowMin(cmp, range)) && PrefixClosed(L, AtMostMax(cmp, range))
  {
    LessClosed(cmp, L, range.min);
    LessClosed(cmp, L, range.max);
    assert forall p :: 1 <= p < |L| ==>
        BelowMin(cmp, range)(L[p].obj) ==
          if range.minex then AtMost(cmp, range.min)(L[p].obj) else Less(cmp, range.min)(L[p].obj);
    assert forall p :: 1 <= p < |L| ==>
        AtMostMax(cmp, range)(L[p].obj) ==
          if range.maxex then Less(cmp, range.max)(L[p].obj) else AtMost(cmp, range.max)(L[p].obj);
  }

  lemma MakeRangeIs(cmp: Cmp, range: Range, L: seq<Node>, a: nat, b: nat)
    requires TotalPreorder(cmp) && Sorted(cmp, L) && Cut(L, BelowMin(cmp, range), a) && a <= b < |L|
    requires forall p :: a < p <= b ==> AtMostMax(cmp, range)(L[p].obj)
    requires b + 1 < |L| ==> !AtMostMax(cmp, range)(L[b + 1].obj)
    ensures RangeIs(cmp, range, L, a, b)
  {
    BelowClosed(cmp, L, range);
    forall p | 1 <= p < |L| ensures a < p <= b <==> InRange(cmp, range, L[p].obj) {
      LessThrough(cmp, L[p].obj, range.min, range.min);
      assert BelowMin(cmp, range)(L[p].obj) <==> p <= a;
      assert p > b ==> !AtMostMax(cmp, range)(L[p].obj);
    }
  }

  lemma FirstEqual(cmp: Cmp, L: seq<Node>, obj: int, t: nat)
    requires TotalPreorder(cmp) && Sorted(cmp, L) && Cut(L, Less(cmp, obj), t)
    ensures Has(cmp, L, obj) <==> t + 1 < |L| && cmp(L[t + 1].obj, obj) == 0
  {
    forall p | 1 <= p < |L| && cmp(L[p].obj, obj) == 0 ensures t + 1 < |L| && cmp(L[t + 1].obj, obj) == 0 {
      assert Less(cmp, obj)(L[p].obj) == false;
      assert !Less(cmp, obj)(L[t + 1].obj);
      if p > t + 1 { LessThrough(cmp, L[t + 1].obj, L[p].obj, obj); }
    }
  }

  /** The list is intact without the node at position t + 1, and the update positions still serve. */
  ghost predicate AfterDelete(cmp: Cmp, H: Heap, L: seq<Node>, t: nat, lev: nat, u: seq<nat>, tail: Node?) {
    && t + 1 < |L| && Indexed(H, Deleted(L, t), lev, tail) && Sorted(cmp, Deleted(L, t)) && Deleted(L, t)[0] == L[0]
    && Updates(H, Deleted(L, t), t, lev, u)
    && forall i :: 0 <= i < lev ==> u[i] + 1 < |L| && Deleted(L, t)[u[i]] == L[u[i]]
  }

  lemma OpenAfterDelete(cmp: Cmp, H: Heap, L: seq<Node>, t: nat, lev: nat, u: seq<nat>, tail: Node?)
    requires AfterDelete(cmp, H, L, t, lev, u, tail)
    ensures var M := Deleted(L, t);
      && Indexed(H, M, lev, tail) && Sorted(cmp, M) && |M| == |L| - 1 && |M| > 0 && M[0] == L[0]
      && Updates(H, M, t, lev, u)
      && forall i :: 0 <= i < lev ==> u[i] < |M| && u[i] < |L| && M[u[i]] == L[u[i]]
  {
  }

  lemma MakeAfterDelete(cmp: Cmp, H: Heap, L: seq<Node>, t: nat, lev: nat, u: seq<nat>, tail: Node?)
    requires
      && t + 1 < |L| && Indexed(H, Deleted(L, t), lev, tail) && Sorted(cmp, Deleted(L, t))
      && Deleted(L, t)[0] == L[0] && Updates(H, Deleted(L, t), t, lev, u)
    requires forall i :: 0 <= i < lev ==> u[i] < |L| - 1 && Deleted(L, t)[u[i]] == L[u[i]]
    ensures AfterDelete(cmp, H, L, t, lev, u, tail)
  {
  }

  lemma DeleteDone(cmp: Cmp, F: Heap, G: Heap, H: Heap, L: seq<Node>, t: nat, lev: nat, u: seq<nat>, x: Node,
      tail: Node?, tail': Node?)
    requires
      && Indexed(F, L, lev, tail) && Lists(F, L) && Sorted(cmp, L)
      && PartlyTaken(F, G, L, t, lev, u, x, lev) && SameLevelsBut(G, H, x) && t + 1 < |L|
    requires BackTakenOut(F, H, L, t, tail, tail')
    ensures AfterDelete(cmp, H, L, t, lev, u, tail')
  {
    hide *;
    PartlyTakenAll(F, G, H, L, t, lev, u, x);
    DeleteIndexed(F, H, L, t, lev, u, x, tail, tail');
    UpdatesKept(F, H, L, t, lev, u, x);
    OpenTakenOut(F, H, L, t, lev, u, x);
    DeletedAt(L, t, 0);
    DeleteSorted(cmp, L, t);
    forall i | 0 <= i < lev ensures u[i] < |L| - 1 && Deleted(L, t)[u[i]] == L[u[i]] {
      UpdateAt(F, L, t, lev, u, i);
      DeletedAt(L, t, u[i]);
    }
    MakeAfterDelete(cmp, H, L, t, lev, u, tail');
  }

  ghost predicate FirstDeleted(cmp: Cmp, L: seq<Node>, M: seq<Node>, obj: int) {
    exists t: nat :: Cut(L, Less(cmp, obj), t) && t + 1 < |L| && cmp(L[t + 1].obj, obj) == 0 && M == Deleted(L, t)
  }

  ghost predicate RangeDeleted(cmp: Cmp, range: Range, L: seq<Node>, M: seq<Node>) {
    exists a: nat, b: nat :: a <= b < |L| && M == Without(L, a, b) && RangeIs(cmp, range, L, a, b)
  }

  ghost predicate Has(cmp: Cmp, L: seq<Node>, obj: int) {
    exists p :: 1 <= p < |L| && cmp(L[p].obj, obj) == 0
  }

  lemma LinkedHeights(F: Heap, G: Heap, L: seq<Node>, t: nat, lev: nat, u: seq<nat>, x: Node, h: nat)
    requires LinkedIn(F, G, L, t, lev, u, x, h)
    ensures x in G && |G[x].level| == h && forall m :: m in F ==> m in G && |G[m].level| == |F[m].level|
  {
  }

  lemma TakenHeights(F: Heap, G: Heap, L: seq<Node>, t: nat, lev: nat, u: seq<nat>, x: Node)
    requires PartlyTaken(F, G, L, t, lev, u, x, lev)
    ensures G.Keys == F.Keys && forall m :: m in F ==> |G[m].level| == |F[m].level|
  {
  }

  lemma SameLevelsButIs(G: Heap, H: Heap, x: Node)
    requires SameLevelsBut(G, H, x)
    ensures forall m :: m in H && m != x ==> m in G && H[m].level == G[m].level
  {
  }

  /** Some object does not compare less. */
  ghost predicate SomeNotLess(cmp: Cmp, L: seq<Node>, obj: int) {
    exists p :: 1 <= p < |L| && cmp(L[p].obj, obj) >= 0
  }

  /** The search leaves a node behind it exactly when some object does not compare less. */
  lemma CandidateExists(cmp: Cmp, L: seq<Node>, obj: int, t: nat)
    requires Cut(L, Less(cmp, obj), t)
    ensures t + 1 < |L| <==> SomeNotLess(cmp, L, obj)
  {
    if t + 1 < |L| { assert !Less(cmp, obj)(L[t + 1].obj); }
    forall p | 1 <= p < |L| && cmp(L[p].obj, obj) >= 0 ensures p > t {
      assert !Less(cmp, obj)(L[p].obj);
    }
  }

  lemma MakeFirstDeleted(cmp: Cmp, L: seq<Node>, obj: int, t: nat)
    requires Cut(L, Less(cmp, obj), t) && t + 1 < |L| && cmp(L[t + 1].obj, obj) == 0
    ensures FirstDeleted(cmp, L, Deleted(L, t), obj)
  {
  }

  lemma MakeRangeDeleted(cmp: Cmp, range: Range, L: seq<Node>, a: nat, b: nat)
    requires a <= b < |L| && RangeIs(cmp, range, L, a, b)
    ensures RangeDeleted(cmp, range, L, Without(L, a, b))
  {
  }

  /** k nodes behind position t of L0, all satisfying go, have been removed, and x is the next one. */
  ghost predicate Trimmed(go: int -> bool, L0: seq<Node>, L: seq<Node>, t: nat, k: nat, x: Node?) {
    && t + k < |L0| && L == Without(L0, t, t + k)
    && x == (if t + k + 1 < |L0| then L0[t + k + 1] else null)
    && forall p :: t < p <= t + k ==> go(L0[p].obj)
  }

  lemma TrimStart(go: int -> bool, L: seq<Node>, t: nat, x: Node?)
    requires t < |L| && x == (if t + 1 < |L| then L[t + 1] else null)
    ensures Trimmed(go, L, L, t, 0, x)
  {
    WithoutNone(L, t);
  }

  lemma TrimNext(go: int -> bool, L0: seq<Node>, L: seq<Node>, t: nat, k: nat, x: Node)
    requires Trimmed(go, L0, L, t, k, x)
    ensures t + k + 1 < |L0| && t + 1 < |L| && L[t + 1] == x
  {
    WithoutAt(L0, t, t + k);
  }

  lemma TrimStep(go: int -> bool, L0: seq<Node>, L: seq<Node>, t: nat, k: nat, x: Node, next: Node?)
    requires Trimmed(go, L0, L, t, k, x) && go(x.obj) && t + 1 < |L| && next == (if t + 2 < |L| then L[t + 2] else null)
    ensures Trimmed(go, L0, Deleted(L, t), t, k + 1, next)
  {
    WithoutAt(L0, t, t + k);
  }

  lemma TrimEnd(cmp: Cmp, range: Range, L0: seq<Node>, L: seq<Node>, t: nat, k: nat, x: Node?)
    requires
      && TotalPreorder(cmp) && Sorted(cmp, L0) && Cut(L0, BelowMin(cmp, range), t)
      && Trimmed(AtMostMax(cmp, range), L0, L, t, k, x)
    requires x != null ==> !AtMostMax(cmp, range)(x.obj)
    ensures RangeDeleted(cmp, range, L0, L) && k == |L0| - |L|
  {
    WithoutAt(L0, t, t + k);
    MakeRangeIs(cmp, range, L0, t, t + k);
    MakeRangeDeleted(cmp, range, L0, t, t + k);
  }

  function Any(): int -> bool {
    a => true
  }

  lemma AnyIs()
    ensures forall a :: Any()(a)
  {
  }

  /** The position behind which deletion by rank starts. */
  ghost function RankCut(start: nat, n: nat): nat {
    if start <= 1 || n == 0 then 0 else if start - 1 < n then start - 1 else n - 1
  }

  lemma RankCutIs(start: nat, n: nat)
    requires n > 0
    ensures
      && RankCut(start, n) < n
      && (start > 1 ==> RankCut(start, n) == if start - 1 < n then start - 1 else n - 1)
      && (start <= 1 ==> RankCut(start, n) == 0)
  {
  }

  /** The last position that deletion by rank removes. */
  ghost function RankEnd(start: nat, end: nat, n: nat): nat {
    var b := if end < n then end else if n == 0 then 0 else n - 1;
    if b < RankCut(start, n) then RankCut(start, n) else b
  }

  /** The positions between the two are exactly the ranks from start to end. */
  lemma RanksBetween(start: nat, end: nat, n: nat, p: nat)
    requires 1 <= p < n
    ensures RankCut(start, n) <= RankEnd(start, end, n) < n
    ensures RankCut(start, n) < p <= RankEnd(start, end, n) <==> start <= p <= end
  {
  }

  /** M is L without the ranks from start to end. */
  ghost predicate RanksDeleted(start: nat, end: nat, L: seq<Node>, M: seq<Node>) {
    && |L| > 0 && RankEnd(start, end, |L|) < |L| && RankCut(start, |L|) <= RankEnd(start, end, |L|)
    && M == Without(L, RankCut(start, |L|), RankEnd(start, end, |L|))
  }

  lemma TrimRanks(start: nat, end: nat, L0: seq<Node>, L: seq<Node>, t: nat, k: nat, x: Node?)
    requires |L0| > 0 && t == RankCut(start, |L0|) && Trimmed(Any(), L0, L, t, k, x)
    requires (x != null ==> t + 1 + k > end) && (k > 0 ==> t + k <= end)
    ensures RanksDeleted(start, end, L0, L) && k == |L0| - |L|
  {
    WithoutAt(L0, t, t + k);
    assert t + k == RankEnd(start, end, |L0|);
  }

  lemma ZeroUpdate(F: Heap, L: seq<Node>, t: nat, lev: nat, tail: Node?, r: nat)
    requires Indexed(F, L, lev, tail) && IsUpdate(F, L, t, 0, r)
    ensures r == t
  {
    assert t >= 1 ==> Height(F, L[t]) >= 1;
  }

  lemma HeaderOnly(F: Heap, L: seq<Node>, r: nat)
    requires Lists(F, L) && r < |L|
    ensures L[r] == L[0] <==> r == 0
  {
  }

  lemma NotThere(cmp: Cmp, L: seq<Node>, obj: int, t: nat)
    requires TotalPreorder(cmp) && Sorted(cmp, L) && Cut(L, AtMost(cmp, obj), t) && (t > 0 ==> cmp(L[t].obj, obj) != 0)
    ensures !Has(cmp, L, obj)
  {
    forall p | 1 <= p < |L| ensures cmp(L[p].obj, obj) != 0 {
      assert AtMost(cmp, obj)(L[p].obj) <==> p <= t;
      if 1 <= p <= t {
        assert AtMost(cmp, obj)(L[t].obj);
        assert p < t ==> cmp(L[p].obj, L[t].obj) <= 0;
        LessThrough(cmp, L[p].obj, L[t].obj, obj);
      }
    }
  }

  /** The answer of zslGetRank: the rank of an equal object, or 0 when there is none. */
  ghost predicate RankOf(cmp: Cmp, L: seq<Node>, obj: int, rank: nat) {
    if rank == 0 then !Has(cmp, L, obj) else rank < |L| && cmp(L[rank].obj, obj) == 0
  }

  ghost predicate Miss(cmp: Cmp, header: Node, x: Node, obj: int) {
    x == header || cmp(x.obj, obj) != 0
  }

  /** The search of level i has come to a stand, and not at an equal object. */
  ghost predicate Missed(cmp: Cmp, F: Heap, L: seq<Node>, x: Node, r: nat, i: nat, obj: int, t: nat) {
    |L| > 0 && Settled(F, L, x, r, i, t) && Miss(cmp, L[0], x, obj)
  }

  lemma MissedIs(cmp: Cmp, F: Heap, L: seq<Node>, x: Node, r: nat, i: nat, obj: int, t: nat)
    requires Missed(cmp, F, L, x, r, i, obj, t)
    ensures Settled(F, L, x, r, i, t) && Miss(cmp, L[0], x, obj)
    ensures Lists(F, L) && IsUpdate(F, L, t, i, r) && r < |L| && L[r] == x && x in F && i < |F[x].level|
  {
  }

  lemma MissOrHit(cmp: Cmp, F: Heap, L: seq<Node>, x: Node, r: nat, i: nat, obj: int, t: nat)
    requires TotalPreorder(cmp) && Sorted(cmp, L) && Cut(L, AtMost(cmp, obj), t) && Settled(F, L, x, r, i, t)
    requires Lists(F, L) && NoneTaller(cmp, F, L, obj, i + 1)
    ensures if x != L[0] && cmp(x.obj, obj) == 0
      then r > 0 && RankOf(cmp, L, obj, r) && LastTallest(cmp, F, L, obj, r)
      else Missed(cmp, F, L, x, r, i, obj, t) && NoneTaller(cmp, F, L, obj, i)
  {
    SettledIs(F, L, x, r, i, t);
    HeaderOnly(F, L, r);
    EqualsBehind(cmp, F, L, x, r, i, obj, t);
  }

  /** No equal object is in a node of more than h levels. */
  ghost predicate NoneTaller(cmp: Cmp, F: Heap, L: seq<Node>, obj: int, h: nat)
    requires Lists(F, L)
  {
    forall q :: 1 <= q < |L| && cmp(L[q].obj, obj) == 0 ==> Height(F, L[q]) <= h
  }

  /** Equal objects are in lower nodes than that of the given rank, or in equally tall ones of no higher rank. */
  ghost predicate LastTallest(cmp: Cmp, F: Heap, L: seq<Node>, obj: int, rank: nat)
    requires Lists(F, L)
  {
    rank < |L| && forall q :: 1 <= q < |L| && cmp(L[q].obj, obj) == 0 ==>
      Height(F, L[q]) < Height(F, L[rank]) || (Height(F, L[q]) == Height(F, L[rank]) && q <= rank)
  }

  lemma AllLow(cmp: Cmp, F: Heap, L: seq<Node>, lev: nat, tail: Node?, obj: int)
    requires Indexed(F, L, lev, tail)
    ensures Lists(F, L) && NoneTaller(cmp, F, L, obj, lev)
  {
  }

  /** The search on level i stops behind all equal objects that reach the level. */
  lemma EqualsBehind(cmp: Cmp, F: Heap, L: seq<Node>, x: Node, r: nat, i: nat, obj: int, t: nat)
    requires TotalPreorder(cmp) && Sorted(cmp, L) && Cut(L, AtMost(cmp, obj), t) && Settled(F, L, x, r, i, t)
    requires Lists(F, L) && NoneTaller(cmp, F, L, obj, i + 1)
    ensures if x != L[0] && cmp(x.obj, obj) == 0 then LastTallest(cmp, F, L, obj, r) else NoneTaller(cmp, F, L, obj, i)
  {
    SettledIs(F, L, x, r, i, t);
    HeaderOnly(F, L, r);
    forall q | 1 <= q < |L| && cmp(L[q].obj, obj) == 0 && Height(F, L[q]) > i
      ensures q <= r && cmp(x.obj, obj) == 0
    {
      assert AtMost(cmp, obj)(L[q].obj);
      assert q <= t;
      assert q <= r;
      assert AtMost(cmp, obj)(L[r].obj);
      if q < r { LessThrough(cmp, L[q].obj, L[r].obj, obj); }
    }
  }

  /** The search has come to a stand on level 0 without an equal object, so there is none. */
  lemma NotFound(cmp: Cmp, F: Heap, L: seq<Node>, lev: nat, tail: Node?, x: Node, r: nat, obj: int, t: nat)
    requires
      TotalPreorder(cmp) && Sorted(cmp, L) && Cut(L, AtMost(cmp, obj), t) && Indexed(F, L, lev, tail)
    requires Missed(cmp, F, L, x, r, 0, obj, t)
    ensures RankOf(cmp, L, obj, 0)
  {
    MissedIs(cmp, F, L, x, r, 0, obj, t);
    SettledIs(F, L, x, r, 0, t);
    ZeroUpdate(F, L, t, lev, tail, r);
    HeaderOnly(F, L, r);
    hide Indexed, Settled, IsUpdate, Lists;
    NotThere(cmp, L, obj, t);
  }

  /** With pairwise different objects, getting a rank and indexing are inverse. */
  lemma RankInverts(cmp: Cmp, L: seq<Node>, p: nat, rank: nat)
    requires 1 <= p < |L| && (forall q :: 1 <= q < |L| && q != p ==> cmp(L[q].obj, L[p].obj) != 0) && TotalPreorder(cmp)
    requires RankOf(cmp, L, L[p].obj, rank)
    ensures rank == p
  {
    assert cmp(L[p].obj, L[p].obj) < 0 <==> cmp(L[p].obj, L[p].obj) > 0;
  }

  ghost predicate NoneInRange(cmp: Cmp, range: Range, L: seq<Node>) {
    forall p :: 1 <= p < |L| ==> !InRange(cmp, range, L[p].obj)
  }

  ghost predicate FirstAt(cmp: Cmp, range: Range, L: seq<Node>, p: nat) {
    1 <= p < |L| && InRange(cmp, range, L[p].obj) && forall q :: 1 <= q < p ==> !InRange(cmp, range, L[q].obj)
  }

  ghost predicate LastAt(cmp: Cmp, range: Range, L: seq<Node>, p: nat) {
    1 <= p < |L| && InRange(cmp, range, L[p].obj) && forall q :: p < q < |L| ==> !InRange(cmp, range, L[q].obj)
  }

  ghost predicate FirstOf(cmp: Cmp, range: Range, L: seq<Node>, r: Node) {
    exists p: nat :: FirstAt(cmp, range, L, p) && L[p] == r
  }

  ghost predicate LastOf(cmp: Cmp, range: Range, L: seq<Node>, r: Node) {
    exists p: nat :: LastAt(cmp, range, L, p) && L[p] == r
  }

  lemma InRangeIs(cmp: Cmp, range: Range, obj: int)
    requires TotalPreorder(cmp)
    ensures InRange(cmp, range, obj) <==> !BelowMin(cmp, range)(obj) && AtMostMax(cmp, range)(obj)
  {
  }

  lemma RangeEnds(cmp: Cmp, range: Range, L: seq<Node>)
    requires TotalPreorder(cmp) && Sorted(cmp, L) && |L| > 0
    ensures |L| == 1 || BelowMin(cmp, range)(L[|L| - 1].obj) || !AtMostMax(cmp, range)(L[1].obj) ==>
        NoneInRange(cmp, range, L)
  {
    BelowClosed(cmp, L, range);
    forall p | 1 <= p < |L| && (BelowMin(cmp, range)(L[|L| - 1].obj) || !AtMostMax(cmp, range)(L[1].obj))
      ensures !InRange(cmp, range, L[p].obj)
    {
      InRangeIs(cmp, range, L[p].obj);
    }
  }

  lemma EmptyRange(cmp: Cmp, range: Range, L: seq<Node>)
    requires TotalPreorder(cmp) && range.min == range.max && (range.minex || range.maxex)
    ensures NoneInRange(cmp, range, L)
  {
  }

  lemma FirstAfterCut(cmp: Cmp, range: Range, L: seq<Node>, t: nat)
    requires TotalPreorder(cmp) && Sorted(cmp, L) && Cut(L, BelowMin(cmp, range), t) && t + 1 < |L|
    ensures if AtMostMax(cmp, range)(L[t + 1].obj) then FirstOf(cmp, range, L, L[t + 1]) else NoneInRange(cmp, range, L)
  {
    BelowClosed(cmp, L, range);
    forall p | 1 <= p < |L|
      ensures p <= t ==> !InRange(cmp, range, L[p].obj)
      ensures p == t + 1 ==> (InRange(cmp, range, L[p].obj) <==> AtMostMax(cmp, range)(L[p].obj))
      ensures !AtMostMax(cmp, range)(L[t + 1].obj) ==> !InRange(cmp, range, L[p].obj)
    {
      InRangeIs(cmp, range, L[p].obj);
    }
    hide InRange;
    if AtMostMax(cmp, range)(L[t + 1].obj) { assert FirstAt(cmp, range, L, t + 1); }
  }

  lemma LastBeforeCut(cmp: Cmp, range: Range, L: seq<Node>, t: nat)
    requires TotalPreorder(cmp) && Sorted(cmp, L) && Cut(L, AtMostMax(cmp, range), t) && 1 <= t < |L|
    ensures if !BelowMin(cmp, range)(L[t].obj) then LastOf(cmp, range, L, L[t]) else NoneInRange(cmp, range, L)
  {
    BelowClosed(cmp, L, range);
    forall p | 1 <= p < |L|
      ensures p > t ==> !InRange(cmp, range, L[p].obj)
      ensures p == t ==> (InRange(cmp, range, L[p].obj) <==> !BelowMin(cmp, range)(L[p].obj))
      ensures BelowMin(cmp, range)(L[t].obj) ==> !InRange(cmp, range, L[p].obj)
    {
      InRangeIs(cmp, range, L[p].obj);
    }
    hide InRange;
    if !BelowMin(cmp, range)(L[t].obj) { assert LastAt(cmp, range, L, t); }
  }

  /** A search stands at position r, on a node that reaches level i. */
  ghost predicate Stands(F: Heap, L: seq<Node>, x: Node, r: nat, i: int) {
    r < |L| && L[r] == x && x in F && i < |F[x].level|
  }

  lemma StandsIs(F: Heap, L: seq<Node>, x: Node, r: nat, i: int)
    ensures Stands(F, L, x, r, i) <==> r < |L| && L[r] == x && x in F && i < |F[x].level|
  {
  }

  /** The link that a search looks at leads to position q. */
  ghost predicate Ahead(F: Heap, L: seq<Node>, x: Node, r: nat, i: nat, q: nat)
    requires Lists(F, L)
  {
    && Stands(F, L, x, r, i) && r < q <= |L| && Gap(F, L, r, q, i)
    && F[x].level[i] == (if q == |L| then Level(null, |L| - 1 - r) else Level(L[q], q - r))
    && (q < |L| ==> Stands(F, L, L[q], q, i))
  }

  lemma LookAhead(F: Heap, L: seq<Node>, lev: nat, x: Node, r: nat, i: nat) returns (q: nat)
    requires Lists(F, L) && LinksOk(F, L, lev) && i < lev && Stands(F, L, x, r, i)
    ensures Ahead(F, L, x, r, i, q) && x in F && i < |F[x].level| && 1 <= q
  {
    q := NextOn(F, L, lev, r, i);
  }

  lemma TakeLink(F: Heap, L: seq<Node>, x: Node, r: nat, i: nat, q: nat)
    requires Lists(F, L) && Ahead(F, L, x, r, i, q) && x in F && i < |F[x].level| && F[x].level[i].forward != null
    ensures r < q < |L| && F[x].level[i] == Level(L[q], q - r) && L[q] in F && i < |F[L[q]].level|
  {
  }

  /** The search of level i up to position t has come to a stand at position r. */
  ghost predicate Settled(F: Heap, L: seq<Node>, x: Node, r: nat, i: nat, t: nat) {
    Lists(F, L) && IsUpdate(F, L, t, i, r) && Stands(F, L, x, r, i)
  }

  lemma SettledIs(F: Heap, L: seq<Node>, x: Node, r: nat, i: nat, t: nat)
    requires Settled(F, L, x, r, i, t)
    ensures Lists(F, L) && IsUpdate(F, L, t, i, r) && r < |L| && L[r] == x && x in F && i < |F[x].level|
  {
  }

  lemma Settle(F: Heap, L: seq<Node>, x: Node, r: nat, i: nat, q: nat, t: nat)
    requires
      && Lists(F, L) && Ahead(F, L, x, r, i, q) && r <= t < |L| && x in F && i < |F[x].level|
      && (F[x].level[i].forward != null ==> t < q)
    ensures Settled(F, L, x, r, i, t)
  {
  }

  lemma TailIs(F: Heap, L: seq<Node>, lev: nat, tail: Node?)
    requires Indexed(F, L, lev, tail)
    ensures |L| > 0 && tail == if |L| == 1 then null else L[|L| - 1]
  {
  }

  lemma OnlyOne(cmp: Cmp, L0: seq<Node>, L: seq<Node>, x: Node)
    requires TotalPreorder(cmp) && |L0| == 1
    requires exists t :: Cut(L0, Less(cmp, x.obj), t) && L == Inserted(L0, t, x)
    ensures Has(cmp, L, x.obj) && SomeNotLess(cmp, L, x.obj)
  {
    var t :| Cut(L0, Less(cmp, x.obj), t) && L == Inserted(L0, t, x);
    assert L[1] == x && cmp(x.obj, x.obj) == 0;
  }

  method OneObject(cmp: Cmp, obj: int) returns (list: SkipList)
    requires TotalPreorder(cmp)
    ensures list.Valid() && fresh(list) && fresh(list.S) && list.cmp == cmp
    ensures Has(cmp, list.L, obj) && SomeNotLess(cmp, list.L, obj)
  {
    assert 1 <= MAXLEVEL;
    hide *;
    list := new SkipList(cmp);
    ghost var L0 := list.L;
    var x := list.Insert(obj, 1);
    OnlyOne(cmp, L0, list.L, x);
  }

  /** Deleting 5 from the list of 5 reads the entry in front of the first level. */
  method DeleteReadsOutside(cmp: Cmp) returns (found: bool, ghost indices: seq<int>)
    requires TotalPreorder(cmp)
    ensures found && indices == [-1]
  {
    hide *;
    var list := OneObject(cmp, 5);
    found, indices := list.Delete(5);
  }
}
