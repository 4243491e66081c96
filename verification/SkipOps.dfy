/** Inserting and deleting one node, on values. */
module SkipOps {
  import opened SkipModel

  // ----- inserting x behind position t

  function Inserted(L: seq<Node>, t: nat, x: Node): seq<Node>
    requires t < |L|
  {
    L[..t + 1] + [x] + L[t + 1..]
  }

  lemma InsertedAt(L: seq<Node>, t: nat, x: Node, p: nat)
    requires t < |L| && p <= |L|
    ensures |Inserted(L, t, x)| == |L| + 1
    ensures Inserted(L, t, x)[p] == if p <= t then L[p] else if p == t + 1 then x else L[p - 1]
  {
  }

  /** The updates to the levels: u[i] is the position of update[i]. */
  ghost predicate Updates(F: Heap, L: seq<Node>, t: nat, lev: nat, u: seq<nat>) {
    Lists(F, L) && |u| == lev && forall i :: 0 <= i < lev ==> IsUpdate(F, L, t, i, u[i])
  }

  ghost predicate SameHeights(F: Heap, G: Heap) {
    forall m :: m in F ==> m in G && |G[m].level| == |F[m].level|
  }

  /** What the links of a node that was there before become. */
  ghost predicate OldEntry(F: Heap, G: Heap, L: seq<Node>, t: nat, lev: nat, u: seq<nat>, x: Node, h: nat, m: Node,
      j: nat)
    requires Updates(F, L, t, lev, u) && m in F && m in G && j < |F[m].level| && j < |G[m].level|
  {
    G[m].level[j] ==
    if j < lev && m == L[u[j]] then
      if j < h then Level(x, t - u[j] + 1) else Level(F[m].level[j].forward, F[m].level[j].span + 1)
    else F[m].level[j]
  }

  ghost predicate NewEntry(F: Heap, G: Heap, L: seq<Node>, t: nat, lev: nat, u: seq<nat>, x: Node, h: nat, j: nat)
    requires Updates(F, L, t, lev, u) && x in G && h <= lev && j < h && j < |G[x].level|
  {
    var l := F[L[u[j]]].level[j];
    G[x].level[j].forward == l.forward && G[x].level[j].span == l.span - (t - u[j])
  }

  /** G is F with x linked in behind position t. */
  ghost predicate LinkedIn(F: Heap, G: Heap, L: seq<Node>, t: nat, lev: nat, u: seq<nat>, x: Node, h: nat) {
    && Updates(F, L, t, lev, u) && x !in F && G.Keys == F.Keys + {x} && SameHeights(F, G)
    && 1 <= h <= lev && |G[x].level| == h
    && (forall m, j: nat :: m in F && j < |F[m].level| ==> OldEntry(F, G, L, t, lev, u, x, h, m, j))
    && (forall j: nat :: j < h ==> NewEntry(F, G, L, t, lev, u, x, h, j))
  }

  lemma InsertLists(F: Heap, G: Heap, L: seq<Node>, t: nat, x: Node)
    requires Lists(F, L) && t < |L| && x !in F && G.Keys == F.Keys + {x}
    ensures Lists(G, Inserted(L, t, x))
  {
    var M := Inserted(L, t, x);
    InsertedAt(L, t, x, 0);
    hide Inserted;
    forall p | 0 <= p < |M| ensures M[p] in G { InsertedAt(L, t, x, p); }
    forall p, q | 0 <= p < q < |M| ensures M[p] != M[q] {
      InsertedAt(L, t, x, p);
      InsertedAt(L, t, x, q);
    }
    forall n | n in G ensures n in M {
      if n == x {
        InsertedAt(L, t, x, t + 1);
      } else {
        var p :| 0 <= p < |L| && L[p] == n;
        InsertedAt(L, t, x, if p <= t then p else p + 1);
      }
    }
  }

  /** Where a position of the old sequence moves. */
  function Shifted(t: nat, p: nat): nat {
    if p <= t then p else p + 1
  }

  /** Gaps that do not reach over position t move along; a gap over position t now also spans x. */
  lemma GapInsert(F: Heap, G: Heap, L: seq<Node>, t: nat, x: Node, p: nat, q: nat, i: nat)
    requires
      && Lists(F, L) && t < |L| && x !in F && G.Keys == F.Keys + {x} && SameHeights(F, G)
      && p < q <= |L| && Gap(F, L, p, q, i)
    requires q <= t + 1 || p > t || |G[x].level| <= i
    ensures Lists(G, Inserted(L, t, x)) && Shifted(t, q) <= |Inserted(L, t, x)|
    ensures Gap(G, Inserted(L, t, x), Shifted(t, p), if q == t + 1 && |G[x].level| > i then q else Shifted(t, q), i)
  {
    var M := Inserted(L, t, x);
    InsertLists(F, G, L, t, x);
    InsertedAt(L, t, x, 0);
    var q' := if q == t + 1 && |G[x].level| > i then q else Shifted(t, q);
    hide Inserted, Lists;
    forall r | Shifted(t, p) < r < q' ensures M[r] in G && Height(G, M[r]) <= i {
      InsertedAt(L, t, x, r);
      InList(F, L, if r <= t then r else r - 1);
    }
  }

  lemma InList(F: Heap, L: seq<Node>, p: int)
    requires Lists(F, L)
    ensures 0 <= p < |L| ==> L[p] in F
  {
  }

  /** The part of a gap behind position t, seen from x. */
  lemma GapBehind(F: Heap, G: Heap, L: seq<Node>, t: nat, x: Node, p: nat, q: nat, i: nat)
    requires
      && Lists(F, L) && t < |L| && x !in F && G.Keys == F.Keys + {x} && SameHeights(F, G)
      && p <= t < q <= |L| && Gap(F, L, p, q, i)
    ensures Lists(G, Inserted(L, t, x)) && q + 1 <= |Inserted(L, t, x)|
    ensures Gap(G, Inserted(L, t, x), t + 1, q + 1, i)
  {
    var M := Inserted(L, t, x);
    InsertLists(F, G, L, t, x);
    InsertedAt(L, t, x, 0);
    hide Inserted, Lists;
    forall r | t + 1 < r < q + 1 ensures M[r] in G && Height(G, M[r]) <= i {
      InsertedAt(L, t, x, r);
      InList(F, L, r - 1);
    }
  }

  lemma MakeLinkOk(F: Heap, L: seq<Node>, p: nat, i: nat, q: nat)
    requires Lists(F, L) && p < q <= |L| && i < Height(F, L[p]) && Gap(F, L, p, q, i)
    requires F[L[p]].level[i] == if q == |L| then Level(null, |L| - 1 - p) else Level(L[q], q - p)
    requires q < |L| ==> Height(F, L[q]) > i
    ensures LinkOk(F, L, p, i)
  {
  }

  lemma OpenLinkOk(F: Heap, L: seq<Node>, p: nat, i: nat) returns (q: nat)
    requires Lists(F, L) && p < |L| && i < Height(F, L[p]) && LinkOk(F, L, p, i)
    ensures p < q <= |L| && Gap(F, L, p, q, i)
    ensures F[L[p]].level[i] == if q == |L| then Level(null, |L| - 1 - p) else Level(L[q], q - p)
    ensures q < |L| ==> L[q] in F && Height(F, L[q]) > i
  {
    var l := F[L[p]].level[i];
    q := if l.forward == null then |L| else p + l.span;
  }

  /** On level i the next position after p is on the same side of t, unless p is the update position. */
  lemma SideOf(F: Heap, L: seq<Node>, t: nat, i: nat, u: nat, p: nat, q: nat)
    requires Lists(F, L) && IsUpdate(F, L, t, i, u) && p < q <= |L| && Gap(F, L, p, q, i)
    requires p < |L| && Height(F, L[p]) > i && (q < |L| ==> Height(F, L[q]) > i)
    ensures p == u ==> q > t
    ensures p != u ==> p > t || q <= u
  {
  }

  lemma OpenLinkedIn(F: Heap, G: Heap, L: seq<Node>, t: nat, lev: nat, u: seq<nat>, x: Node, h: nat)
    requires LinkedIn(F, G, L, t, lev, u, x, h)
    ensures
      Lists(F, L) && |u| == lev && Updates(F, L, t, lev, u) && x !in F && G.Keys == F.Keys + {x} && SameHeights(F, G)
    ensures 1 <= h <= lev && |G[x].level| == h && x in G && t < |L|
    ensures forall p :: 0 <= p < |L| ==> L[p] in F && L[p] in G && |G[L[p]].level| == |F[L[p]].level|
  {
    assert IsUpdate(F, L, t, 0, u[0]);
  }

  lemma UpdateAt(F: Heap, L: seq<Node>, t: nat, lev: nat, u: seq<nat>, i: nat)
    requires Updates(F, L, t, lev, u) && i < lev
    ensures IsUpdate(F, L, t, i, u[i]) && u[i] <= t < |L| && i < |F[L[u[i]]].level|
  {
  }

  lemma OldEntryIs(F: Heap, G: Heap, L: seq<Node>, t: nat, lev: nat, u: seq<nat>, x: Node, h: nat, p: nat, i: nat)
    requires LinkedIn(F, G, L, t, lev, u, x, h) && p < |L| && i < lev
    ensures L[p] in F && L[p] in G && |G[L[p]].level| == |F[L[p]].level|
    ensures i < |F[L[p]].level| ==>
      G[L[p]].level[i] ==
        if p ==
          u[i] then (if i < h then Level(x, t - p + 1) else Level(F[L[p]].level[i].forward, F[L[p]].level[i].span + 1))
        else F[L[p]].level[i]
    ensures IsUpdate(F, L, t, i, u[i])
  {
    if i < |F[L[p]].level| {
      assert OldEntry(F, G, L, t, lev, u, x, h, L[p], i);
    }
    assert IsUpdate(F, L, t, i, u[i]);
  }

  lemma InsertOldLink(F: Heap, G: Heap, L: seq<Node>, t: nat, lev: nat, u: seq<nat>, x: Node, h: nat, p: nat, i: nat)
    requires
      LinkedIn(F, G, L, t, lev, u, x, h) && t < |L| && p < |L| && i < lev && i < Height(F, L[p]) && LinkOk(F, L, p, i)
    ensures
      Lists(G, Inserted(L, t, x)) && Shifted(t, p) < |Inserted(L, t, x)| && Inserted(L, t, x)[Shifted(t, p)] == L[p]
    ensures i < Height(G, L[p]) && LinkOk(G, Inserted(L, t, x), Shifted(t, p), i)
  {
    hide *;
    OpenLinkedIn(F, G, L, t, lev, u, x, h);
    var M, p' := Inserted(L, t, x), Shifted(t, p);
    HeightIs(F, L[p]);
    HeightIs(G, L[p]);
    HeightIs(G, x);
    ShiftedIs(t, p);
    OldEntryIs(F, G, L, t, lev, u, x, h, p, i);
    var q := OpenLinkOk(F, L, p, i);
    SideOf(F, L, t, i, u[i], p, q);
    UpdateAt(F, L, t, lev, u, i);
    InsertLists(F, G, L, t, x);
    InsertedAt(L, t, x, p');
    InsertedAt(L, t, x, t + 1);
    if p == u[i] && i < h {
      GapShorter(F, L, p, q, t + 1, i);
      GapInsert(F, G, L, t, x, p, t + 1, i);
      MakeLinkOk(G, M, p', i, t + 1);
    } else {
      var q' := Shifted(t, q);
      ShiftedIs(t, q);
      GapInsert(F, G, L, t, x, p, q, i);
      if q < |L| {
        InsertedAt(L, t, x, q');
        HeightIs(F, L[q]);
        HeightIs(G, L[q]);
      }
      GapShorter(G, M, p', q', q', i);
      MakeLinkOk(G, M, p', i, q');
    }
  }

  lemma HeightIs(F: Heap, n: Node)
    requires n in F
    ensures Height(F, n) == |F[n].level|
  {
  }

  lemma ShiftedIs(t: nat, p: nat)
    ensures Shifted(t, p) == if p <= t then p else p + 1
  {
  }

  lemma GapShorter(F: Heap, L: seq<Node>, p: nat, q: nat, q': nat, i: nat)
    requires Lists(F, L) && q <= |L| && q' <= q && Gap(F, L, p, q, i)
    ensures Gap(F, L, p, q', i)
  {
  }

  lemma InsertNewLink(F: Heap, G: Heap, L: seq<Node>, t: nat, lev: nat, u: seq<nat>, x: Node, h: nat, i: nat)
    requires
      && LinkedIn(F, G, L, t, lev, u, x, h) && t < |L| && i < h && u[i] < |L| && L[u[i]] in F
      && i < Height(F, L[u[i]]) && LinkOk(F, L, u[i], i)
    ensures Lists(G, Inserted(L, t, x)) && t + 1 < |Inserted(L, t, x)| && Inserted(L, t, x)[t + 1] == x
    ensures LinkOk(G, Inserted(L, t, x), t + 1, i)
  {
    hide *;
    OpenLinkedIn(F, G, L, t, lev, u, x, h);
    var M := Inserted(L, t, x);
    UpdateAt(F, L, t, lev, u, i);
    NewEntryIs(F, G, L, t, lev, u, x, h, i);
    HeightIs(F, L[u[i]]);
    HeightIs(G, x);
    var q := OpenLinkOk(F, L, u[i], i);
    SideOf(F, L, t, i, u[i], u[i], q);
    InsertLists(F, G, L, t, x);
    InsertedAt(L, t, x, t + 1);
    if q < |L| {
      InsertedAt(L, t, x, q + 1);
      HeightIs(F, L[q]);
      HeightIs(G, L[q]);
    }
    GapBehind(F, G, L, t, x, u[i], q, i);
    MakeLinkOk(G, M, t + 1, i, q + 1);
  }

  lemma NewEntryIs(F: Heap, G: Heap, L: seq<Node>, t: nat, lev: nat, u: seq<nat>, x: Node, h: nat, i: nat)
    requires LinkedIn(F, G, L, t, lev, u, x, h) && i < h && L[u[i]] in F && i < |F[L[u[i]]].level|
    ensures x in G && i < |G[x].level|
    ensures
      var l := F[L[u[i]]].level[i]; G[x].level[i].forward == l.forward && G[x].level[i].span == l.span - (t - u[i])
  {
    assert NewEntry(F, G, L, t, lev, u, x, h, i);
  }

  lemma OpenLinks(F: Heap, L: seq<Node>, lev: nat, p: nat, i: nat)
    requires Lists(F, L) && LinksOk(F, L, lev) && p < |L| && i < lev
    ensures L[p] in F && (i < Height(F, L[p]) ==> LinkOk(F, L, p, i))
  {
    assert LevelOk(F, L, p, i);
  }

  /** Every link of the longer list is right. */
  lemma InsertLinks(F: Heap, G: Heap, L: seq<Node>, t: nat, lev: nat, u: seq<nat>, x: Node, h: nat, p: nat, i: nat)
    requires LinkedIn(F, G, L, t, lev, u, x, h) && t < |L| && Lists(F, L) && LinksOk(F, L, lev) && p <= |L| && i < lev
    ensures Lists(G, Inserted(L, t, x)) && p < |Inserted(L, t, x)|
    ensures i < Height(G, Inserted(L, t, x)[p]) ==> LinkOk(G, Inserted(L, t, x), p, i)
  {
    hide *;
    OpenLinkedIn(F, G, L, t, lev, u, x, h);
    InsertLists(F, G, L, t, x);
    InsertedAt(L, t, x, p);
    HeightIs(G, Inserted(L, t, x)[p]);
    if p == t + 1 {
      if i < h {
        UpdateAt(F, L, t, lev, u, i);
        OpenLinks(F, L, lev, u[i], i);
        HeightIs(F, L[u[i]]);
        InsertNewLink(F, G, L, t, lev, u, x, h, i);
      }
    } else {
      var o := if p <= t then p else p - 1;
      ShiftedIs(t, o);
      OpenLinks(F, L, lev, o, i);
      HeightIs(F, L[o]);
      if i < Height(F, L[o]) { InsertOldLink(F, G, L, t, lev, u, x, h, o, i); }
    }
  }

  /** The backward links and the tail after x was inserted. */
  ghost predicate BackLinkedIn(F: Heap, G: Heap, L: seq<Node>, t: nat, x: Node, tail: Node?, tail': Node?)
    requires Lists(F, L) && t < |L|
  {
    && SameHeights(F, G) && x in G
    && G[x].backward == (if t == 0 then null else L[t])
    && (forall p :: 0 <= p < |L| ==> G[L[p]].backward == if p == t + 1 then x else F[L[p]].backward)
    && tail' == if t + 1 < |L| then tail else x
  }

  lemma PreviousIs(L: seq<Node>, p: nat)
    requires p < |L|
    ensures Previous(L, p) == if p <= 1 then null else L[p - 1]
  {
  }

  lemma OpenBack(F: Heap, L: seq<Node>, tail: Node?, p: nat)
    requires Lists(F, L) && BackOk(F, L, tail) && p < |L|
    ensures L[p] in F && F[L[p]].backward == (if p <= 1 then null else L[p - 1])
    ensures tail == (if |L| == 1 then null else L[|L| - 1])
  {
  }

  lemma MakeBack(F: Heap, L: seq<Node>, tail: Node?)
    requires Lists(F, L) && forall p :: 0 <= p < |L| ==> L[p] in F && F[L[p]].backward == Previous(L, p)
    requires tail == (if |L| == 1 then null else L[|L| - 1])
    ensures BackOk(F, L, tail)
  {
  }

  lemma BackLinkedInAt(F: Heap, G: Heap, L: seq<Node>, t: nat, x: Node, tail: Node?, tail': Node?, p: nat)
    requires Lists(F, L) && t < |L| && BackLinkedIn(F, G, L, t, x, tail, tail') && p < |L|
    ensures x in G && L[p] in G && L[p] in F && G[x].backward == (if t == 0 then null else L[t])
    ensures G[L[p]].backward == if p == t + 1 then x else F[L[p]].backward
    ensures tail' == if t + 1 < |L| then tail else x
  {
  }

  lemma InsertBack(F: Heap, G: Heap, L: seq<Node>, t: nat, x: Node, tail: Node?, tail': Node?)
    requires
      && Lists(F, L) && t < |L| && x !in F && G.Keys == F.Keys + {x} && BackOk(F, L, tail)
      && BackLinkedIn(F, G, L, t, x, tail, tail')
    ensures Lists(G, Inserted(L, t, x)) && BackOk(G, Inserted(L, t, x), tail')
  {
    hide *;
    var M := Inserted(L, t, x);
    InsertLists(F, G, L, t, x);
    InsertedAt(L, t, x, |L|);
    BackLinkedInAt(F, G, L, t, x, tail, tail', t);
    OpenBack(F, L, tail, t);
    forall p | 0 <= p < |M| ensures M[p] in G && G[M[p]].backward == Previous(M, p) {
      PreviousIs(M, p);
      InsertedAt(L, t, x, p);
      if p > 0 { InsertedAt(L, t, x, p - 1); }
      if p != t + 1 {
        var o := if p <= t then p else p - 1;
        BackLinkedInAt(F, G, L, t, x, tail, tail', o);
        OpenBack(F, L, tail, o);
      }
    }
    MakeBack(G, M, tail');
  }

  lemma InsertHeights(F: Heap, G: Heap, L: seq<Node>, t: nat, x: Node, lev: nat)
    requires
      && Lists(F, L) && t < |L| && x !in F && G.Keys == F.Keys + {x} && SameHeights(F, G)
      && HeightsOk(F, L, lev) && 1 <= |G[x].level| <= lev
    ensures Lists(G, Inserted(L, t, x)) && HeightsOk(G, Inserted(L, t, x), lev)
  {
    var M := Inserted(L, t, x);
    InsertLists(F, G, L, t, x);
    InsertedAt(L, t, x, 0);
    InList(F, L, 0);
    hide Inserted, Lists;
    forall p | 1 <= p < |M| ensures M[p] in G && 1 <= Height(G, M[p]) <= lev {
      InsertedAt(L, t, x, p);
      InList(F, L, if p <= t then p else p - 1);
    }
  }

  /** Linking a node in keeps every link, span and backward link right. */
  lemma InsertIndexed(F: Heap, G: Heap, L: seq<Node>, t: nat, lev: nat, u: seq<nat>, x: Node, h: nat, tail: Node?,
      tail': Node?)
    requires Indexed(F, L, lev, tail) && LinkedIn(F, G, L, t, lev, u, x, h) && t < |L|
    requires BackLinkedIn(F, G, L, t, x, tail, tail')
    ensures Indexed(G, Inserted(L, t, x), lev, tail')
  {
    OpenLinkedIn(F, G, L, t, lev, u, x, h);
    var M := Inserted(L, t, x);
    InsertBack(F, G, L, t, x, tail, tail');
    InsertHeights(F, G, L, t, x, lev);
    InsertedAt(L, t, x, 0);
    InsertTop(F, G, L, t, lev, u, x, h);
    hide LinkedIn, Inserted, LinkOk, Gap, BackOk, BackLinkedIn, HeightsOk, Updates, SameHeights;
    forall p: nat, i: nat | p < |M| && i < lev ensures LevelOk(G, M, p, i) {
      InsertLinks(F, G, L, t, lev, u, x, h, p, i);
    }
  }

  lemma InsertTop(F: Heap, G: Heap, L: seq<Node>, t: nat, lev: nat, u: seq<nat>, x: Node, h: nat)
    requires LinkedIn(F, G, L, t, lev, u, x, h) && Lists(F, L) && LinksOk(F, L, lev)
    ensures L[0] in G && forall i: nat :: lev <= i < Height(G, L[0]) ==> G[L[0]].level[i].forward == null
  {
    OpenLinkedIn(F, G, L, t, lev, u, x, h);
    forall i: nat | lev <= i < Height(G, L[0]) ensures G[L[0]].level[i].forward == null {
      assert OldEntry(F, G, L, t, lev, u, x, h, L[0], i);
    }
  }

  // ----- raising the level in use

  /** The header's spare levels from lev up to top are given the span of the whole list. */
  ghost predicate Raised(F: Heap, G: Heap, header: Node, length: nat, lev: nat, top: nat) {
    && G.Keys == F.Keys && header in F && SameHeights(F, G)
    && (forall m :: m in F ==> G[m].backward == F[m].backward)
    && (forall m, j: nat :: m in F && j < |F[m].level| ==>
        G[m].level[j] == if m == header && lev <= j < top then Level(F[m].level[j].forward, length) else F[m].level[j])
  }

  lemma RaiseLink(F: Heap, G: Heap, L: seq<Node>, lev: nat, top: nat, p: nat, i: nat)
    requires
      && Lists(F, L) && HeightsOk(F, L, lev) && LinksOk(F, L, lev)
      && Raised(F, G, L[0], |L| - 1, lev, top) && lev <= top <= MAXLEVEL
    requires p < |L| && i < top && Lists(G, L) && i < Height(G, L[p])
    ensures LinkOk(G, L, p, i)
  {
    assert L[p] in F && |G[L[p]].level| == |F[L[p]].level|;
    if i < lev {
      OpenLinks(F, L, lev, p, i);
      var q := OpenLinkOk(F, L, p, i);
      hide LinksOk, LinkOk;
      MakeLinkOk(G, L, p, i, q);
    } else {
      assert p == 0;
      MakeLinkOk(G, L, p, i, |L|);
    }
  }

  lemma RaiseIndexed(F: Heap, G: Heap, L: seq<Node>, lev: nat, top: nat, tail: Node?)
    requires Indexed(F, L, lev, tail) && Raised(F, G, L[0], |L| - 1, lev, top) && lev <= top <= MAXLEVEL
    ensures Indexed(G, L, top, tail)
  {
    assert Lists(G, L);
    assert HeightsOk(G, L, top);
    hide LinkOk;
    forall p: nat, i: nat | p < |L| && i < top ensures LevelOk(G, L, p, i) {
      if i < Height(G, L[p]) { RaiseLink(F, G, L, lev, top, p, i); }
    }
  }

  // ----- deleting the node at position t + 1

  function Deleted(L: seq<Node>, t: nat): seq<Node>
    requires t + 1 < |L|
  {
    L[..t + 1] + L[t + 2..]
  }

  lemma DeletedAt(L: seq<Node>, t: nat, p: nat)
    requires t + 1 < |L| && p + 1 < |L|
    ensures |Deleted(L, t)| == |L| - 1
    ensures Deleted(L, t)[p] == if p <= t then L[p] else L[p + 1]
  {
  }

  ghost predicate DeletedEntry(F: Heap, G: Heap, L: seq<Node>, t: nat, lev: nat, u: seq<nat>, x: Node, m: Node, j: nat)
    requires Updates(F, L, t, lev, u) && m in F && m in G && x in F && j < |F[m].level| && j < |G[m].level|
  {
    var l := F[m].level[j];
    if j < lev && m == L[u[j]] then
      if l.forward == x && j < |F[x].level| then
        G[m].level[j].forward == F[x].level[j].forward && G[m].level[j].span == l.span + F[x].level[j].span - 1
      else
        G[m].level[j].forward == l.forward && G[m].level[j].span == l.span - 1
    else G[m].level[j] == l
  }

  /** G is F with the node x at position t + 1 taken out. */
  ghost predicate TakenOut(F: Heap, G: Heap, L: seq<Node>, t: nat, lev: nat, u: seq<nat>, x: Node) {
    && Updates(F, L, t, lev, u) && t + 1 < |L| && L[t + 1] == x && x in F && G.Keys == F.Keys - {x}
    && (forall m :: m in G ==> |G[m].level| == |F[m].level|)
    && (forall m, j: nat :: m in G && j < |F[m].level| ==> DeletedEntry(F, G, L, t, lev, u, x, m, j))
  }

  lemma DeleteLists(F: Heap, G: Heap, L: seq<Node>, t: nat)
    requires Lists(F, L) && t + 1 < |L| && G.Keys == F.Keys - {L[t + 1]}
    ensures Lists(G, Deleted(L, t))
  {
    var M := Deleted(L, t);
    DeletedAt(L, t, 0);
    hide Deleted;
    forall p | 0 <= p < |M| ensures M[p] in G { DeletedAt(L, t, p); }
    forall p, q | 0 <= p < q < |M| ensures M[p] != M[q] {
      DeletedAt(L, t, p);
      DeletedAt(L, t, q);
    }
    forall n | n in G ensures n in M {
      var p :| 0 <= p < |L| && L[p] == n;
      DeletedAt(L, t, if p <= t then p else p - 1);
    }
  }

  function Unshifted(t: nat, p: nat): nat {
    if p <= t + 1 then p else p - 1
  }

  lemma GapDelete(F: Heap, G: Heap, L: seq<Node>, t: nat, p: nat, q: nat, i: nat)
    requires
      && Lists(F, L) && t + 1 < |L| && G.Keys == F.Keys - {L[t + 1]}
      && (forall m :: m in G ==> |G[m].level| == |F[m].level|)
    requires p < q <= |L| && Gap(F, L, p, q, i) && p != t + 1
    ensures Lists(G, Deleted(L, t)) && Unshifted(t, q) <= |Deleted(L, t)|
    ensures Gap(G, Deleted(L, t), Unshifted(t, p), Unshifted(t, q), i)
  {
    var M := Deleted(L, t);
    DeleteLists(F, G, L, t);
    DeletedAt(L, t, 0);
    hide Deleted, Lists;
    forall r | Unshifted(t, p) < r < Unshifted(t, q) ensures M[r] in G && Height(G, M[r]) <= i {
      DeletedAt(L, t, r);
      InList(F, L, if r <= t then r else r + 1);
      InList(G, M, r);
    }
  }

  /** Two gaps around the deleted node make one. */
  lemma GapJoin(F: Heap, G: Heap, L: seq<Node>, t: nat, p: nat, q: nat, i: nat)
    requires
      && Lists(F, L) && t + 1 < |L| && G.Keys == F.Keys - {L[t + 1]}
      && (forall m :: m in G ==> |G[m].level| == |F[m].level|)
    requires p <= t && t + 1 < q <= |L| && Gap(F, L, p, t + 1, i) && Gap(F, L, t + 1, q, i)
    ensures Lists(G, Deleted(L, t)) && q - 1 <= |Deleted(L, t)|
    ensures Gap(G, Deleted(L, t), p, q - 1, i)
  {
    var M := Deleted(L, t);
    DeleteLists(F, G, L, t);
    DeletedAt(L, t, 0);
    hide Deleted, Lists;
    forall r | p < r < q - 1 ensures M[r] in G && Height(G, M[r]) <= i {
      DeletedAt(L, t, r);
      InList(F, L, if r <= t then r else r + 1);
      InList(G, M, r);
    }
  }

  lemma OpenTakenOut(F: Heap, G: Heap, L: seq<Node>, t: nat, lev: nat, u: seq<nat>, x: Node)
    requires TakenOut(F, G, L, t, lev, u, x)
    ensures
      && Lists(F, L) && |u| == lev && Updates(F, L, t, lev, u) && t + 1 < |L| && L[t + 1] == x && x in F
      && G.Keys == F.Keys - {x}
    ensures forall m :: m in G ==> m in F && |G[m].level| == |F[m].level|
    ensures forall p :: 0 <= p < |L| ==> L[p] in F && (p != t + 1 ==> L[p] in G)
  {
  }

  lemma DeletedEntryIs(F: Heap, G: Heap, L: seq<Node>, t: nat, lev: nat, u: seq<nat>, x: Node, p: nat, i: nat)
    requires TakenOut(F, G, L, t, lev, u, x) && t + 1 < |L| && p < |L| && p != t + 1 && i < lev
    ensures L[p] in F && L[p] in G && x in F && |G[L[p]].level| == |F[L[p]].level| && |u| == lev
    ensures i < |F[L[p]].level| ==> var l, k := F[L[p]].level[i], G[L[p]].level[i];
      if p != u[i] then k == l
      else if l.forward == x && i < |F[x].level| then
        k.forward == F[x].level[i].forward && k.span == l.span + F[x].level[i].span - 1
      else k.forward == l.forward && k.span == l.span - 1
  {
    if i < |F[L[p]].level| {
      assert L[p] in G;
      assert DeletedEntry(F, G, L, t, lev, u, x, L[p], i);
      assert IsUpdate(F, L, t, i, u[i]);
    }
  }

  /** The link that led to x now leads to what follows x. */
  lemma DeleteLinkOver(F: Heap, G: Heap, L: seq<Node>, t: nat, lev: nat, u: seq<nat>, x: Node, p: nat, i: nat)
    requires
      && TakenOut(F, G, L, t, lev, u, x) && t + 1 < |L| && p <= t && Lists(F, L) && LinksOk(F, L, lev)
      && i < lev && i < Height(F, L[p])
    requires
      && p == u[i] && Gap(F, L, p, t + 1, i) && L[t + 1] in F && Height(F, L[t + 1]) > i
      && F[L[p]].level[i] == Level(L[t + 1], t + 1 - p)
    ensures Lists(G, Deleted(L, t)) && p < |Deleted(L, t)| && Deleted(L, t)[p] == L[p]
    ensures i < Height(G, L[p]) && LinkOk(G, Deleted(L, t), p, i)
  {
    hide *;
    OpenTakenOut(F, G, L, t, lev, u, x);
    HeightIs(F, L[p]);
    HeightIs(G, L[p]);
    HeightIs(F, x);
    DeletedEntryIs(F, G, L, t, lev, u, x, p, i);
    DeleteLists(F, G, L, t);
    DeletedAt(L, t, p);
    OpenLinks(F, L, lev, t + 1, i);
    var r := OpenLinkOk(F, L, t + 1, i);
    GapJoin(F, G, L, t, p, r, i);
    if r < |L| {
      DeletedAt(L, t, r - 1);
      HeightIs(F, L[r]);
      HeightIs(G, L[r]);
    }
    MakeLinkOk(G, Deleted(L, t), p, i, r - 1);
  }

  lemma DeleteLink(F: Heap, G: Heap, L: seq<Node>, t: nat, lev: nat, u: seq<nat>, x: Node, p: nat, i: nat)
    requires
      && TakenOut(F, G, L, t, lev, u, x) && t + 1 < |L| && p < |L| && p != t + 1 && Lists(F, L)
      && LinksOk(F, L, lev) && i < lev && i < Height(F, L[p])
    ensures Lists(G, Deleted(L, t)) && Unshifted(t, p) < |Deleted(L, t)| && Deleted(L, t)[Unshifted(t, p)] == L[p]
    ensures i < Height(G, L[p]) && LinkOk(G, Deleted(L, t), Unshifted(t, p), i)
  {
    hide *;
    OpenTakenOut(F, G, L, t, lev, u, x);
    OpenLinks(F, L, lev, p, i);
    UnshiftedIs(t, p);
    var q := OpenLinkOk(F, L, p, i);
    UpdateAt(F, L, t, lev, u, i);
    SideOf(F, L, t, i, u[i], p, q);
    if q == t + 1 {
      DeleteLinkOver(F, G, L, t, lev, u, x, p, i);
    } else {
      DeleteLinkAway(F, G, L, t, lev, u, x, p, i, q);
    }
  }

  /** A link that did not lead to x leads on to the same node. */
  lemma DeleteLinkAway(F: Heap, G: Heap, L: seq<Node>, t: nat, lev: nat, u: seq<nat>, x: Node, p: nat, i: nat, q: nat)
    requires
      && TakenOut(F, G, L, t, lev, u, x) && t + 1 < |L| && p < |L| && p != t + 1 && Lists(F, L)
      && i < lev && i < Height(F, L[p]) && |u| == lev
    requires
      && p < q <= |L| && q != t + 1 && Gap(F, L, p, q, i)
      && F[L[p]].level[i] == (if q == |L| then Level(null, |L| - 1 - p) else Level(L[q], q - p))
    requires q < |L| ==> L[q] in F && Height(F, L[q]) > i
    requires if p == u[i] then p <= t < q else p > t || q <= t
    ensures Lists(G, Deleted(L, t)) && Unshifted(t, p) < |Deleted(L, t)| && Deleted(L, t)[Unshifted(t, p)] == L[p]
    ensures i < Height(G, L[p]) && LinkOk(G, Deleted(L, t), Unshifted(t, p), i)
  {
    hide *;
    OpenTakenOut(F, G, L, t, lev, u, x);
    var M := Deleted(L, t);
    var p' := if p <= t then p else p - 1;
    UnshiftedIs(t, p);
    HeightIs(F, L[p]);
    HeightIs(G, L[p]);
    DeletedEntryIs(F, G, L, t, lev, u, x, p, i);
    DeleteLists(F, G, L, t);
    DeletedAt(L, t, p');
    GapDelete(F, G, L, t, p, q, i);
    UnshiftedIs(t, q);
    if q < |L| {
      DistinctAt(F, L, q, t + 1);
      DeletedAt(L, t, if q <= t then q else q - 1);
      HeightIs(F, L[q]);
      HeightIs(G, L[q]);
    }
    MakeLinkOk(G, M, p', i, if q <= t then q else q - 1);
  }

  lemma DistinctAt(F: Heap, L: seq<Node>, p: nat, q: nat)
    requires Lists(F, L) && p < |L| && q < |L| && p != q
    ensures L[p] != L[q]
  {
  }

  lemma UnshiftedIs(t: nat, p: nat)
    ensures Unshifted(t, p) == if p <= t + 1 then p else p - 1
  {
  }

  ghost predicate BackTakenOut(F: Heap, G: Heap, L: seq<Node>, t: nat, tail: Node?, tail': Node?)
    requires Lists(F, L) && t + 1 < |L|
  {
    && (forall p :: 0 <= p < |L| && p != t + 1 ==>
          L[p] in G && G[L[p]].backward == if p == t + 2 then F[L[t + 1]].backward else F[L[p]].backward)
    && tail' == if t + 2 < |L| then tail else F[L[t + 1]].backward
  }

  lemma BackTakenOutAt(F: Heap, G: Heap, L: seq<Node>, t: nat, tail: Node?, tail': Node?, p: nat)
    requires Lists(F, L) && t + 1 < |L| && BackTakenOut(F, G, L, t, tail, tail') && p < |L|
    ensures L[p] in F && L[t + 1] in F
    ensures
      p != t + 1 ==> L[p] in G && G[L[p]].backward == if p == t + 2 then F[L[t + 1]].backward else F[L[p]].backward
    ensures tail' == if t + 2 < |L| then tail else F[L[t + 1]].backward
  {
  }

  lemma DeleteBack(F: Heap, G: Heap, L: seq<Node>, t: nat, tail: Node?, tail': Node?)
    requires
      && Lists(F, L) && t + 1 < |L| && G.Keys == F.Keys - {L[t + 1]} && BackOk(F, L, tail)
      && BackTakenOut(F, G, L, t, tail, tail')
    ensures Lists(G, Deleted(L, t)) && BackOk(G, Deleted(L, t), tail')
  {
    hide *;
    var M := Deleted(L, t);
    DeleteLists(F, G, L, t);
    DeletedAt(L, t, 0);
    DeletedAt(L, t, |L| - 2);
    OpenBack(F, L, tail, t + 1);
    BackTakenOutAt(F, G, L, t, tail, tail', t);
    forall p | 0 <= p < |M| ensures M[p] in G && G[M[p]].backward == Previous(M, p) {
      PreviousIs(M, p);
      DeletedAt(L, t, p);
      if p > 0 { DeletedAt(L, t, p - 1); }
      var o := if p <= t then p else p + 1;
      BackTakenOutAt(F, G, L, t, tail, tail', o);
      OpenBack(F, L, tail, o);
    }
    MakeBack(G, M, tail');
  }

  lemma DeleteHeights(F: Heap, G: Heap, L: seq<Node>, t: nat, lev: nat)
    requires Lists(F, L) && t + 1 < |L| && G.Keys == F.Keys - {L[t + 1]} && HeightsOk(F, L, lev)
    requires forall m :: m in G ==> m in F && |G[m].level| == |F[m].level|
    ensures Lists(G, Deleted(L, t)) && HeightsOk(G, Deleted(L, t), lev)
  {
    var M := Deleted(L, t);
    DeleteLists(F, G, L, t);
    DeletedAt(L, t, 0);
    InList(F, L, 0);
    InList(G, M, 0);
    hide Deleted, Lists;
    forall p | 1 <= p < |M| ensures M[p] in G && 1 <= Height(G, M[p]) <= lev {
      DeletedAt(L, t, p);
      InList(F, L, if p <= t then p else p + 1);
      InList(G, M, p);
    }
  }

  /** Taking a node out keeps every link, span and backward link right. */
  lemma DeleteIndexed(F: Heap, G: Heap, L: seq<Node>, t: nat, lev: nat, u: seq<nat>, x: Node, tail: Node?, tail': Node?)
    requires
      && Indexed(F, L, lev, tail) && TakenOut(F, G, L, t, lev, u, x) && t + 1 < |L|
      && BackTakenOut(F, G, L, t, tail, tail')
    ensures Indexed(G, Deleted(L, t), lev, tail')
  {
    hide *;
    OpenTakenOut(F, G, L, t, lev, u, x);
    OpenIndexed(F, L, lev, tail);
    var M := Deleted(L, t);
    DeleteBack(F, G, L, t, tail, tail');
    DeleteHeights(F, G, L, t, lev);
    DeletedAt(L, t, 0);
    DeleteTop(F, G, L, t, lev, u, x);
    forall p: nat, i: nat | p < |M| && i < lev ensures LevelOk(G, M, p, i) {
      DeletedAt(L, t, p);
      var o := if p <= t then p else p + 1;
      UnshiftedIs(t, o);
      HeightIs(G, L[o]);
      HeightIs(F, L[o]);
      if i < |G[L[o]].level| { DeleteLink(F, G, L, t, lev, u, x, o, i); }
      MakeLevel(G, M, p, i);
    }
    MakeLinks(G, M, lev);
    MakeIndexed(G, M, lev, tail');
  }

  lemma OpenIndexed(F: Heap, L: seq<Node>, lev: nat, tail: Node?)
    requires Indexed(F, L, lev, tail)
    ensures Lists(F, L) && HeightsOk(F, L, lev) && LinksOk(F, L, lev) && BackOk(F, L, tail) && |L| > 0
  {
  }

  lemma MakeIndexed(F: Heap, L: seq<Node>, lev: nat, tail: Node?)
    requires Lists(F, L) && HeightsOk(F, L, lev) && LinksOk(F, L, lev) && BackOk(F, L, tail)
    ensures Indexed(F, L, lev, tail)
  {
  }

  lemma MakeLevel(F: Heap, L: seq<Node>, p: nat, i: nat)
    requires Lists(F, L) && p < |L| && L[p] in F && (i < |F[L[p]].level| ==> i < Height(F, L[p]) && LinkOk(F, L, p, i))
    ensures LevelOk(F, L, p, i)
  {
  }

  lemma MakeLinks(F: Heap, L: seq<Node>, lev: nat)
    requires Lists(F, L)
    requires forall p: nat, i: nat :: p < |L| && i < lev ==> LevelOk(F, L, p, i)
    requires L[0] in F && forall i: nat :: lev <= i < |F[L[0]].level| ==> F[L[0]].level[i].forward == null
    ensures LinksOk(F, L, lev)
  {
    hide LinkOk;
  }

  lemma DeleteTop(F: Heap, G: Heap, L: seq<Node>, t: nat, lev: nat, u: seq<nat>, x: Node)
    requires TakenOut(F, G, L, t, lev, u, x) && Lists(F, L) && LinksOk(F, L, lev)
    ensures L[0] in G && forall i: nat :: lev <= i < |G[L[0]].level| ==> G[L[0]].level[i].forward == null
  {
    OpenTakenOut(F, G, L, t, lev, u, x);
    forall i: nat | lev <= i < Height(G, L[0]) ensures G[L[0]].level[i].forward == null {
      assert DeletedEntry(F, G, L, t, lev, u, x, L[0], i);
    }
  }

  // ----- lowering the level in use

  /** When the header has no link on the top level, no node reaches it. */
  lemma LowerIndexed(F: Heap, L: seq<Node>, lev: nat, tail: Node?)
    requires Indexed(F, L, lev, tail) && lev > 1 && lev - 1 < Height(F, L[0]) && F[L[0]].level[lev - 1].forward == null
    ensures Indexed(F, L, lev - 1, tail)
  {
    OpenLinks(F, L, lev, 0, lev - 1);
    forall p | 1 <= p < |L| ensures Height(F, L[p]) <= lev - 1 {}
    forall p: nat, i: nat | p < |L| && i < lev - 1 ensures LevelOk(F, L, p, i) { OpenLinks(F, L, lev, p, i); }
    hide LinkOk, LevelOk;
    assert LinksOk(F, L, lev - 1);
  }

  // ----- the update positions

  lemma UpdateDeleted(F: Heap, G: Heap, L: seq<Node>, t: nat, i: nat, u: nat)
    requires Lists(F, L) && IsUpdate(F, L, t, i, u) && t + 1 < |L| && G.Keys == F.Keys - {L[t + 1]}
    requires forall m :: m in G ==> m in F && |G[m].level| == |F[m].level|
    ensures Lists(G, Deleted(L, t)) && IsUpdate(G, Deleted(L, t), t, i, u)
  {
    DeleteLists(F, G, L, t);
    DeletedAt(L, t, u);
    DeletedAt(L, t, 0);
    DistinctAt(F, L, u, t + 1);
    GapDelete(F, G, L, t, u, t + 1, i);
    UnshiftedIs(t, u);
    UnshiftedIs(t, t + 1);
    InList(G, Deleted(L, t), u);
    hide Deleted, Lists, Gap;
  }

  // ----- linking a node in, level by level

  /** The levels below k have been linked. */
  ghost predicate PartlyLinked(F: Heap, G: Heap, L: seq<Node>, t: nat, lev: nat, u: seq<nat>, x: Node, h: nat, k: nat) {
    && Updates(F, L, t, lev, u) && x !in F && G.Keys == F.Keys + {x} && SameHeights(F, G)
    && 1 <= h <= lev && |G[x].level| == h && k <= lev
    && (forall m :: m in F ==> G[m].backward == F[m].backward)
    && (forall m, j: nat :: m in F && j < |F[m].level| ==>
          if j < k then OldEntry(F, G, L, t, lev, u, x, h, m, j) else G[m].level[j] == F[m].level[j])
    && (forall j: nat :: j < h && j < k ==> NewEntry(F, G, L, t, lev, u, x, h, j))
  }

  lemma PartlyLinkedAll(F: Heap, G: Heap, L: seq<Node>, t: nat, lev: nat, u: seq<nat>, x: Node, h: nat)
    requires PartlyLinked(F, G, L, t, lev, u, x, h, lev)
    ensures LinkedIn(F, G, L, t, lev, u, x, h)
  {
    forall m, j: nat | m in F && j < |F[m].level| ensures OldEntry(F, G, L, t, lev, u, x, h, m, j) {}
  }

  lemma PartlyLinkedNone(F: Heap, G: Heap, L: seq<Node>, t: nat, lev: nat, u: seq<nat>, x: Node, h: nat)
    requires Updates(F, L, t, lev, u) && x !in F && G.Keys == F.Keys + {x} && 1 <= h <= lev && |G[x].level| == h
    requires forall m :: m in F ==> G[m] == F[m]
    ensures PartlyLinked(F, G, L, t, lev, u, x, h, 0)
  {
  }

  /** What a level still to be linked looks like. */
  lemma PartlyLinkedAt(F: Heap, G: Heap, L: seq<Node>, t: nat, lev: nat, u: seq<nat>, x: Node, h: nat, k: nat)
    requires PartlyLinked(F, G, L, t, lev, u, x, h, k) && k < lev
    ensures u[k] <= t < |L| && |u| == lev && L[u[k]] in F && L[u[k]] in G && x in G && x != L[u[k]] && |G[x].level| == h
    ensures
      && k < |F[L[u[k]]].level| == |G[L[u[k]]].level| && G[L[u[k]]].level[k] == F[L[u[k]]].level[k]
      && IsUpdate(F, L, t, k, u[k])
  {
    assert IsUpdate(F, L, t, k, u[k]);
  }

  lemma LinkStep(F: Heap, G: Heap, H: Heap, L: seq<Node>, t: nat, lev: nat, u: seq<nat>, x: Node, h: nat, k: nat)
    requires PartlyLinked(F, G, L, t, lev, u, x, h, k) && k < lev && H.Keys == G.Keys
    requires u[k] < |L| && L[u[k]] in G && x in G && k < |G[L[u[k]]].level|
    requires var up, l := L[u[k]], G[L[u[k]]].level[k];
      && H[up] ==
           G[up].(level := G[up].level[k := if k < h then Level(x, t - u[k] + 1) else Level(l.forward, l.span + 1)])
      && (forall m :: m in G && m != up && m != x ==> H[m] == G[m])
      && (if k < h then
            && k < |G[x].level| && l.span >= t - u[k]
            && H[x] == G[x].(level := G[x].level[k := Level(l.forward, l.span - (t - u[k]))])
          else H[x] == G[x])
    requires u[k] <= t
    ensures PartlyLinked(F, H, L, t, lev, u, x, h, k + 1)
  {
    PartlyLinkedAt(F, G, L, t, lev, u, x, h, k);
    assert SameHeights(F, H) && |H[x].level| == h;
    forall m, j: nat | m in F && j < |F[m].level|
      ensures if j < k + 1 then OldEntry(F, H, L, t, lev, u, x, h, m, j) else H[m].level[j] == F[m].level[j]
    {
      LinkStepAt(F, G, H, L, t, lev, u, x, h, k, m, j);
    }
    forall j: nat | j < h && j < k + 1 ensures NewEntry(F, H, L, t, lev, u, x, h, j) {
      if j < k { assert NewEntry(F, G, L, t, lev, u, x, h, j); }
    }
    hide OldEntry, NewEntry, Updates;
  }

  lemma LinkStepAt(F: Heap, G: Heap, H: Heap, L: seq<Node>, t: nat, lev: nat, u: seq<nat>, x: Node, h: nat, k: nat,
      m: Node, j: nat)
    requires
      && PartlyLinked(F, G, L, t, lev, u, x, h, k) && k < lev && H.Keys == G.Keys && m in F
      && j < |F[m].level| && m in H && |H[m].level| == |F[m].level|
    requires u[k] < |L| && L[u[k]] in G && x in G && k < |G[L[u[k]]].level|
    requires var up, l := L[u[k]], G[L[u[k]]].level[k];
      && u[k] <= t
      && H[up] ==
           G[up].(level := G[up].level[k := if k < h then Level(x, t - u[k] + 1) else Level(l.forward, l.span + 1)])
      && (forall m :: m in G && m != up && m != x ==> H[m] == G[m])
    ensures if j < k + 1 then OldEntry(F, H, L, t, lev, u, x, h, m, j) else H[m].level[j] == F[m].level[j]
  {
    PartlyLinkedAt(F, G, L, t, lev, u, x, h, k);
    assert if j < k then OldEntry(F, G, L, t, lev, u, x, h, m, j) else G[m].level[j] == F[m].level[j];
    hide PartlyLinked, Updates, IsUpdate;
  }

  /** The span of an update position reaches over position t. */
  lemma SpanReaches(F: Heap, L: seq<Node>, lev: nat, t: nat, i: nat, u: nat)
    requires Lists(F, L) && LinksOk(F, L, lev) && i < lev && IsUpdate(F, L, t, i, u)
    ensures u <= t < |L| && L[u] in F && i < |F[L[u]].level| && F[L[u]].level[i].span >= t - u
    ensures t + 1 < |L| ==> F[L[u]].level[i].span >= t + 1 - u
  {
    OpenLinks(F, L, lev, u, i);
    var q := OpenLinkOk(F, L, u, i);
    SideOf(F, L, t, i, u, u, q);
  }

  // ----- taking a node out, level by level

  ghost predicate LevelUnlinked(G: Heap, H: Heap, x: Node, up: Node, i: nat) {
    && H.Keys == G.Keys && x in G && up in G && i < |G[up].level|
    && H[up].backward == G[up].backward && |H[up].level| == |G[up].level|
    && (forall j :: 0 <= j < |G[up].level| && j != i ==> H[up].level[j] == G[up].level[j])
    && (var l := G[up].level[i];
        if l.forward == x && i < |G[x].level| then
          H[up].level[i].forward == G[x].level[i].forward && H[up].level[i].span == l.span + G[x].level[i].span - 1
        else H[up].level[i].forward == l.forward && H[up].level[i].span == l.span - 1)
    && forall m :: m in G && m != up ==> H[m] == G[m]
  }

  /** The levels below k have been unlinked; x itself is still there. */
  ghost predicate PartlyTaken(F: Heap, G: Heap, L: seq<Node>, t: nat, lev: nat, u: seq<nat>, x: Node, k: nat) {
    && Updates(F, L, t, lev, u) && t + 1 < |L| && L[t + 1] == x && x in F && G.Keys == F.Keys
    && k <= lev && G[x] == F[x]
    && (forall m :: m in F ==> G[m].backward == F[m].backward && |G[m].level| == |F[m].level|)
    && (forall m, j: nat :: m in F && m != x && j < |F[m].level| ==>
          if j < k then DeletedEntry(F, G, L, t, lev, u, x, m, j) else G[m].level[j] == F[m].level[j])
  }

  lemma PartlyTakenNone(F: Heap, L: seq<Node>, t: nat, lev: nat, u: seq<nat>, x: Node)
    requires Updates(F, L, t, lev, u) && t + 1 < |L| && L[t + 1] == x && x in F
    ensures PartlyTaken(F, F, L, t, lev, u, x, 0)
  {
  }

  lemma PartlyTakenAt(F: Heap, G: Heap, L: seq<Node>, t: nat, lev: nat, u: seq<nat>, x: Node, k: nat)
    requires PartlyTaken(F, G, L, t, lev, u, x, k) && k < lev && LinksOk(F, L, lev)
    ensures |u| == lev && u[k] <= t < |L| && L[u[k]] in F && L[u[k]] in G && L[u[k]] != x && x in G && G[x] == F[x]
    ensures k < |G[L[u[k]]].level| && G[L[u[k]]].level[k] == F[L[u[k]]].level[k] && F[L[u[k]]].level[k].span > 0
    ensures G[L[u[k]]].level[k].forward == x ==> k < |G[x].level|
  {
    assert IsUpdate(F, L, t, k, u[k]);
    SpanReaches(F, L, lev, t, k, u[k]);
    OpenLinks(F, L, lev, u[k], k);
    var q := OpenLinkOk(F, L, u[k], k);
    assert k < |G[L[u[k]]].level| && L[u[k]] != x;
  }

  lemma TakeStep(F: Heap, G: Heap, H: Heap, L: seq<Node>, t: nat, lev: nat, u: seq<nat>, x: Node, k: nat)
    requires
      && PartlyTaken(F, G, L, t, lev, u, x, k) && k < lev && |u| == lev && u[k] <= t < |L|
      && LevelUnlinked(G, H, x, L[u[k]], k) && L[u[k]] != x
    requires L[u[k]] in F && k < |F[L[u[k]]].level| && G[L[u[k]]].level[k] == F[L[u[k]]].level[k]
    ensures PartlyTaken(F, H, L, t, lev, u, x, k + 1)
  {
    assert H[x] == F[x];
    forall m | m in F ensures H[m].backward == F[m].backward && |H[m].level| == |F[m].level| {}
    forall m, j: nat | m in F && m != x && j < |F[m].level|
      ensures if j < k + 1 then DeletedEntry(F, H, L, t, lev, u, x, m, j) else H[m].level[j] == F[m].level[j]
    {
      TakeStepAt(F, G, H, L, t, lev, u, x, k, m, j);
    }
    hide DeletedEntry, Updates, LevelUnlinked;
  }

  lemma TakeStepAt(F: Heap, G: Heap, H: Heap, L: seq<Node>, t: nat, lev: nat, u: seq<nat>, x: Node, k: nat, m: Node,
      j: nat)
    requires
      && PartlyTaken(F, G, L, t, lev, u, x, k) && k < lev && |u| == lev && u[k] <= t < |L|
      && LevelUnlinked(G, H, x, L[u[k]], k) && L[u[k]] != x
    requires m in F && m != x && j < |F[m].level| && m in H && |H[m].level| == |F[m].level|
    ensures if j < k + 1 then DeletedEntry(F, H, L, t, lev, u, x, m, j) else H[m].level[j] == F[m].level[j]
  {
    assert if j < k then DeletedEntry(F, G, L, t, lev, u, x, m, j) else G[m].level[j] == F[m].level[j];
    assert G[x] == F[x];
    hide PartlyTaken, Updates;
  }

  ghost predicate SameLevelsBut(G: Heap, H: Heap, x: Node) {
    H.Keys == G.Keys - {x} && forall m :: m in H ==> m in G && H[m].level == G[m].level
  }

  lemma PartlyTakenAll(F: Heap, G: Heap, H: Heap, L: seq<Node>, t: nat, lev: nat, u: seq<nat>, x: Node)
    requires PartlyTaken(F, G, L, t, lev, u, x, lev) && SameLevelsBut(G, H, x)
    ensures TakenOut(F, H, L, t, lev, u, x)
  {
    forall m, j: nat | m in H && j < |F[m].level| ensures DeletedEntry(F, H, L, t, lev, u, x, m, j) {
      assert if j < lev then DeletedEntry(F, G, L, t, lev, u, x, m, j) else G[m].level[j] == F[m].level[j];
    }
    hide DeletedEntry, Updates;
  }
}
