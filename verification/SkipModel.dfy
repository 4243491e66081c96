/** The skip list as a value: one sequence of nodes, and the links and spans that index it. */
module SkipModel {
  import opened Ordering

  const MAXLEVEL := 32

  datatype Level = Level(forward: Node?, span: nat)

  class Node {
    const obj: int
    var level: seq<Level>
    var backward: Node?

    constructor (height: nat, obj: int)
      ensures this.obj == obj && backward == null
      ensures level == seq(height, i => Level(null, 0))
    {
      this.obj := obj;
      level := seq(height, i => Level(null, 0));
      backward := null;
    }

    ghost function Get(): Fields
      reads this
    {
      Fields(level, backward)
    }
  }

  datatype Fields = Fields(level: seq<Level>, backward: Node?)

  type Heap = map<Node, Fields>

  ghost function Snap(S: set<Node>): Heap
    reads S
  {
    map n | n in S :: n.Get()
  }

  // ----- one sequence, indexed on many levels

  ghost function Height(F: Heap, n: Node): nat
    requires n in F
  {
    |F[n].level|
  }

  /** L lists the header and then all nodes; position 0 is the header, position r holds the node of rank r. */
  ghost predicate Lists(F: Heap, L: seq<Node>) {
    && |L| > 0
    && (forall p :: 0 <= p < |L| ==> L[p] in F)
    && (forall p, q :: 0 <= p < q < |L| ==> L[p] != L[q])
    && (forall n :: n in F ==> n in L)
  }

  /** No node strictly between positions p and q reaches level i. */
  ghost predicate Gap(F: Heap, L: seq<Node>, p: nat, q: nat, i: nat)
    requires Lists(F, L) && q <= |L|
  {
    forall r :: p < r < q ==> Height(F, L[r]) <= i
  }

  /**
   * The link of position p on level i leads to the next position that reaches level i, and its span is the
   * distance.
   */
  ghost predicate LinkOk(F: Heap, L: seq<Node>, p: nat, i: nat)
    requires Lists(F, L) && p < |L| && i < Height(F, L[p])
  {
    var l := F[L[p]].level[i];
    if l.forward == null then
      l.span == |L| - 1 - p && Gap(F, L, p, |L|, i)
    else
      && 0 < l.span && p + l.span < |L| && l.forward == L[p + l.span]
      && Height(F, L[p + l.span]) > i && Gap(F, L, p, p + l.span, i)
  }

  ghost predicate LevelOk(F: Heap, L: seq<Node>, p: nat, i: nat)
    requires Lists(F, L) && p < |L|
  {
    i < Height(F, L[p]) ==> LinkOk(F, L, p, i)
  }

  ghost predicate HeightsOk(F: Heap, L: seq<Node>, lev: nat)
    requires Lists(F, L)
  {
    && 1 <= lev <= MAXLEVEL && Height(F, L[0]) == MAXLEVEL
    && forall p :: 1 <= p < |L| ==> 1 <= Height(F, L[p]) <= lev
  }

  ghost predicate LinksOk(F: Heap, L: seq<Node>, lev: nat)
    requires Lists(F, L)
  {
    && (forall p: nat, i: nat :: p < |L| && i < lev ==> LevelOk(F, L, p, i))
    && (forall i: nat :: lev <= i < Height(F, L[0]) ==> F[L[0]].level[i].forward == null)
  }

  function Previous(L: seq<Node>, p: nat): Node?
    requires p < |L|
  {
    if p <= 1 then null else L[p - 1]
  }

  ghost predicate BackOk(F: Heap, L: seq<Node>, tail: Node?)
    requires Lists(F, L)
  {
    && (forall p :: 0 <= p < |L| ==> F[L[p]].backward == Previous(L, p))
    && tail == if |L| == 1 then null else L[|L| - 1]
  }

  /** Every link and span of the list agrees with the one sequence L. */
  ghost predicate Indexed(F: Heap, L: seq<Node>, lev: nat, tail: Node?) {
    Lists(F, L) && HeightsOk(F, L, lev) && LinksOk(F, L, lev) && BackOk(F, L, tail)
  }

  /** The level in use is no higher than needed. */
  ghost predicate Tight(F: Heap, L: seq<Node>, lev: nat)
    requires Lists(F, L)
  {
    lev > 1 ==> lev - 1 < Height(F, L[0]) && F[L[0]].level[lev - 1].forward != null
  }

  /** u is the last position up to t that reaches level i. */
  ghost predicate IsUpdate(F: Heap, L: seq<Node>, t: nat, i: nat, u: nat)
    requires Lists(F, L)
  {
    u <= t < |L| && i < Height(F, L[u]) && Gap(F, L, u, t + 1, i)
  }

  // ----- the order of the objects

  /** The objects behind the header ascend. */
  ghost predicate Sorted(cmp: Cmp, L: seq<Node>) {
    forall p, q :: 1 <= p < q < |L| ==> cmp(L[p].obj, L[q].obj) <= 0
  }

  /** Exactly the positions up to t hold objects that satisfy the predicate. */
  ghost predicate Cut(L: seq<Node>, before: int -> bool, t: nat) {
    t < |L| && (forall p :: 1 <= p <= t ==> before(L[p].obj)) && (forall p :: t < p < |L| ==> !before(L[p].obj))
  }
}
