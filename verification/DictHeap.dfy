/** The dictionary in the heap: arrays of linked chains, updated in place as the C code updates them. */
module DictHeap {
  import opened Bits
  import opened DictModel
  import opened DictOps
  import DictScan
  import DictIter
  import ScanCursor
  import ReverseLoop

  class Node {
    const key: Key
    var val: Value
    var next: Node?

    constructor (key: Key, val: Value)
      ensures this.key == key && this.val == val && this.next == null
    {
      this.key, this.val, this.next := key, val, null;
    }
  }

  /** struct dictht */
  datatype Ht = Ht(table: array<Node?>, size: nat, sizemask: nat, used: nat)

  /** The node after position j of a chain, or null at its end. */
  function Succ(c: seq<Node>, j: int): Node?
    requires 0 <= j < |c|
  {
    if j + 1 < |c| then c[j + 1] else null
  }

  /** The chain starting at head consists of the nodes c, which hold the entries e. */
  ghost predicate ChainRep(head: Node?, c: seq<Node>, e: Chain)
    reads c
  {
    && |c| == |e|
    && head == (if c == [] then null else c[0])
    && forall j :: 0 <= j < |c| ==>
      c[j].key == e[j].key && c[j].val == e[j].val && c[j].next == Succ(c, j)
  }

  ghost function Nodes(ch: seq<seq<Node>>): set<Node> {
    set i, j | 0 <= i < |ch| && 0 <= j < |ch[i]| :: ch[i][j]
  }

  /** Every node stays in the chain it is in, except those of the key that is gone. */
  ghost predicate Kept(a: seq<seq<Node>>, b: seq<seq<Node>>, gone: Option<Key>) {
    |a| <= |b| && forall i, n :: 0 <= i < |a| && n in a[i] && gone != Some(n.key) ==> n in b[i]
  }

  lemma KeptSame(a: seq<seq<Node>>, gone: Option<Key>)
    ensures Kept(a, a, gone)
  {
  }

  lemma KeptNone(b: seq<seq<Node>>, gone: Option<Key>)
    ensures Kept([], b, gone)
  {
  }

  lemma KeptThrough(a: seq<seq<Node>>, b: seq<seq<Node>>, c: seq<seq<Node>>)
    requires Kept(a, b, None) && Kept(b, c, None)
    ensures Kept(a, c, None)
  {
  }

  lemma KeptPush(a: seq<seq<Node>>, i: nat, n: Node)
    requires i < |a|
    ensures Kept(a, a[i := [n] + a[i]], None)
  {
  }

  lemma KeptWithout(a: seq<seq<Node>>, i: nat, p: nat)
    requires i < |a| && p < |a[i]|
    ensures Kept(a, a[i := Without(a[i], p)], Some(a[i][p].key))
  {
    var b := a[i := Without(a[i], p)];
    forall j, n | 0 <= j < |a| && n in a[j] && Some(a[i][p].key) != Some(n.key) ensures n in b[j] {
      var q :| 0 <= q < |a[j]| && a[j][q] == n;
      assert j == i ==> n == Without(a[i], p)[if q < p then q else q - 1];
    }
  }

  /** The table h consists of the chains ch, which hold the buckets b. */
  ghost predicate TableRep(h: Ht, ch: seq<seq<Node>>, b: seq<Chain>)
    reads h.table, Nodes(ch)
  {
    && h.table.Length == h.size == |ch| == |b|
    && h.sizemask == (if h.size == 0 then 0 else h.size - 1)
    && h.used == Used(b)
    && forall i :: 0 <= i < |ch| ==> ChainRep(h.table[i], ch[i], b[i])
  }

  /** The node he is the p-th of the chain, after prev. */
  ghost predicate Located(c: seq<Node>, he: Node, prev: Node?, p: nat) {
    p < |c| && c[p] == he && prev == (if p == 0 then null else c[p - 1])
  }

  /** The search for a key along its chain. */
  method FindNode(h: Ht, ghost ch: seq<seq<Node>>, ghost t: Table, k: Key)
    returns (he: Node?, prev: Node?, ghost p: nat)
    requires TableOk(t) && t.buckets != [] && TableRep(h, ch, t.buckets)
    ensures he == null <==> FindIn(t, k) == None
    ensures Index(k, h.size) < h.size
    ensures he != null ==> Located(ch[Index(k, h.size)], he, prev, p) && he.key == k && FindIn(t, k) == Some(he.val)
  {
    IndexInRange(k, h.size);
    var idx := And(k.hash, h.sizemask);
    prev, he, p := null, h.table[idx], 0;
    ghost var c, e := ch[idx], t.buckets[idx];
    assert ChainRep(h.table[idx], c, e);
    while he != null
      invariant p <= |c| && he == (if p == |c| then null else c[p])
      invariant prev == (if p == 0 then null else c[p - 1])
      invariant Find(e[p..], k) == Find(e, k)
      decreases |c| - p
    {
      assert e[p..][1..] == e[p + 1..];
      if he.key == k { return; }
      prev, he, p := he, he.next, p + 1;
    }
  }

  /** Link a node in front of the chain of its bucket. */
  method PushNode(h: Ht, ghost ch: seq<seq<Node>>, ghost t: Table, n: Node) returns (h': Ht, ghost ch': seq<seq<Node>>)
    requires TableOk(t) && t.buckets != [] && TableRep(h, ch, t.buckets)
    requires FindIn(t, n.key) == None
    modifies h.table, n`next
    ensures TableRep(h', ch', Push(t, Entry(n.key, n.val)).buckets)
    ensures h'.table == h.table && h'.size == h.size
    ensures Nodes(ch') == Nodes(ch) + {n} && Kept(ch, ch', None)
  {
    hide *;
    PushShape(h, ch, t, n);
    var i := And(n.key.hash, h.sizemask);
    n.next := h.table[i];
    h.table[i] := n;
    h' := h.(used := h.used + 1);
    ch' := ch[i := [n] + ch[i]];
    NodesPush(ch, i, n);
    KeptPush(ch, i, n);
    ChainRepCons(n, ch[i], t.buckets[i]);
    TableRepUpdate(h', ch, t.buckets, i, ch'[i], [Entry(n.key, n.val)] + t.buckets[i]);
  }

  lemma PushShape(h: Ht, ch: seq<seq<Node>>, t: Table, n: Node)
    requires TableOk(t) && t.buckets != [] && TableRep(h, ch, t.buckets)
    requires FindIn(t, n.key) == None
    ensures var i := And(n.key.hash, h.sizemask);
      && h.size == h.table.Length == |ch| == |t.buckets| && i < h.size
      && Push(t, Entry(n.key, n.val)).buckets == t.buckets[i := [Entry(n.key, n.val)] + t.buckets[i]]
      && Used(Push(t, Entry(n.key, n.val)).buckets) == h.used + 1
      && h.sizemask == h.size - 1
    ensures n !in Nodes(ch)
    ensures forall a :: 0 <= a < |ch| ==> n !in ch[a] && ChainRep(h.table[a], ch[a], t.buckets[a])
  {
    IndexInRange(n.key, h.size);
    PushOk(t, Entry(n.key, n.val));
    KeyElsewhere(h, ch, t, n);
    forall a | 0 <= a < |ch| ensures n !in ch[a] {
      assert forall j :: 0 <= j < |ch[a]| ==> ch[a][j] in Nodes(ch);
    }
  }

  /** A table whose chains are all in place after bucket i has changed. */
  lemma TableRepUpdate(h: Ht, ch: seq<seq<Node>>, b: seq<Chain>, i: nat, c: seq<Node>, e: Chain)
    requires i < |ch| == |b| == h.table.Length == h.size && h.sizemask == h.size - 1
    requires h.used == Used(b[i := e])
    requires ChainRep(h.table[i], c, e)
    requires forall a :: 0 <= a < |ch| && a != i ==> ChainRep(h.table[a], ch[a], b[a])
    ensures TableRep(h, ch[i := c], b[i := e])
  {
    hide Used, ChainRep, Nodes;
  }

  lemma NodesPush(ch: seq<seq<Node>>, i: nat, n: Node)
    requires i < |ch|
    ensures Nodes(ch[i := [n] + ch[i]]) == Nodes(ch) + {n}
  {
    var ch' := ch[i := [n] + ch[i]];
    assert ch'[i][0] == n;
    forall x | x in Nodes(ch) ensures x in Nodes(ch') {
      var a, b :| 0 <= a < |ch| && 0 <= b < |ch[a]| && ch[a][b] == x;
      assert if a == i then ch'[a][b + 1] == x else ch'[a][b] == x;
    }
  }

  /** A node whose key is not in the table is none of its nodes. */
  lemma KeyElsewhere(h: Ht, ch: seq<seq<Node>>, t: Table, n: Node)
    requires TableOk(t) && TableRep(h, ch, t.buckets) && FindIn(t, n.key) == None
    ensures n !in Nodes(ch)
  {
    if n in Nodes(ch) {
      var i, j :| 0 <= i < |ch| && 0 <= j < |ch[i]| && ch[i][j] == n;
      assert ChainRep(h.table[i], ch[i], t.buckets[i]);
      assert ChainOk(t.buckets[i], i, |t.buckets|);
      NotFound(t.buckets[i], n.key);
    }
  }

  lemma ChainRepCons(n: Node, c: seq<Node>, e: Chain)
    requires ChainRep(n.next, c, e)
    ensures ChainRep(n, [n] + c, [Entry(n.key, n.val)] + e)
  {
    var c', e' := [n] + c, [Entry(n.key, n.val)] + e;
    forall j | 0 <= j < |c'|
      ensures c'[j].key == e'[j].key && c'[j].val == e'[j].val && c'[j].next == Succ(c', j)
    {
      if j > 0 { assert c'[j] == c[j - 1] && c[j - 1].next == Succ(c, j - 1); }
    }
  }

  lemma ChainRepTail(n: Node?, c: seq<Node>, e: Chain)
    requires ChainRep(n, c, e) && c != []
    ensures n == c[0] && n.key == e[0].key && n.val == e[0].val && ChainRep(n.next, c[1..], e[1..])
  {
    assert n.next == Succ(c, 0);
    forall j | 0 <= j < |c| - 1 ensures c[1..][j].next == Succ(c[1..], j) {
      assert c[j + 1].next == Succ(c, j + 1);
    }
  }

  // ----- changing and unlinking a node

  lemma SetShape(h: Ht, ch: seq<seq<Node>>, t: Table, he: Node, prev: Node?, p: nat, v: Value)
    requires TableOk(t) && t.buckets != [] && TableRep(h, ch, t.buckets)
    requires FindIn(t, he.key).Some?
    requires Index(he.key, h.size) < |ch| && Located(ch[Index(he.key, h.size)], he, prev, p)
    ensures var (i, b) := (Index(he.key, h.size), t.buckets);
      && h.size == h.table.Length == |ch| == |b| && i < h.size && h.sizemask == h.size - 1
      && ChainRep(h.table[i], ch[i], b[i]) && p < |b[i]| && t.buckets[i][p].key == he.key
      && SetIn(t, he.key, v).buckets == b[i := b[i][p := Entry(he.key, v)]]
      && Used(SetIn(t, he.key, v).buckets) == h.used
    ensures forall a :: 0 <= a < |ch| && a != Index(he.key, h.size) ==>
        he !in ch[a] && ChainRep(h.table[a], ch[a], t.buckets[a])
    ensures var c := ch[Index(he.key, h.size)]; forall j :: 0 <= j < |c| && j != p ==> c[j] != he
  {
    hide Used, FindIn;
    SetInOk(t, he.key, v);
    var i, b := Index(he.key, h.size), t.buckets;
    ChainApart(h, ch, t, i);
    SetValAt(b[i], he.key, v, p);
    assert he in ch[i];
    OwnPlace(h.table[i], ch[i], b[i], p);
  }

  lemma OwnPlace(head: Node?, c: seq<Node>, e: Chain, p: nat)
    requires ChainRep(head, c, e) && p < |c| && forall j, k :: 0 <= j < k < |e| ==> e[j].key != e[k].key
    ensures forall j :: 0 <= j < |c| && j != p ==> c[j] != c[p]
  {
    forall j | 0 <= j < |c| && j != p ensures c[j] != c[p] {
      assert c[j].key == e[j].key && c[p].key == e[p].key;
    }
  }

  /** Chains of different buckets share no node. */
  lemma ChainApart(h: Ht, ch: seq<seq<Node>>, t: Table, i: nat)
    requires TableOk(t) && t.buckets != [] && TableRep(h, ch, t.buckets) && i < |ch|
    ensures ChainRep(h.table[i], ch[i], t.buckets[i]) && ChainOk(t.buckets[i], i, |t.buckets|)
    ensures forall a, x :: 0 <= a < |ch| && a != i && x in ch[i] ==> x !in ch[a]
    ensures forall a :: 0 <= a < |ch| ==> ChainRep(h.table[a], ch[a], t.buckets[a])
  {
    hide Used;
    var b := t.buckets;
    forall a, x | 0 <= a < |ch| && a != i && x in ch[i] ensures x !in ch[a] {
      assert ChainRep(h.table[a], ch[a], b[a]) && ChainOk(b[a], a, |b|);
      assert ChainRep(h.table[i], ch[i], b[i]) && ChainOk(b[i], i, |b|);
      var p :| 0 <= p < |ch[i]| && ch[i][p] == x;
      assert Index(b[i][p].key, |b|) == i;
      forall q | 0 <= q < |ch[a]| ensures ch[a][q] != x {
        assert Index(b[a][q].key, |b|) == a;
      }
    }
  }

  lemma {:induction false} SetValAt(e: Chain, k: Key, v: Value, p: nat)
    requires p < |e| && e[p].key == k && forall j, k :: 0 <= j < k < |e| ==> e[j].key != e[k].key
    ensures SetVal(e, k, v) == e[p := Entry(k, v)]
  {
    if p > 0 {
      assert e[0].key != k;
      SetValAt(e[1..], k, v, p - 1);
    } else {
      assert e[0 := Entry(k, v)] == [Entry(k, v)] + e[1..];
    }
  }

  /** dictSetVal on an entry that is in its chain. */
  method SetNode(h: Ht, ghost ch: seq<seq<Node>>, ghost t: Table, he: Node, ghost prev: Node?, ghost p: nat, v: Value)
    requires TableOk(t) && t.buckets != [] && TableRep(h, ch, t.buckets)
    requires FindIn(t, he.key).Some?
    requires Index(he.key, h.size) < |ch| && Located(ch[Index(he.key, h.size)], he, prev, p)
    modifies he`val
    ensures TableRep(h, ch, SetIn(t, he.key, v).buckets)
  {
    hide *;
    SetShape(h, ch, t, he, prev, p, v);
    ghost var i := Index(he.key, h.size);
    ghost var c, e := ch[i], t.buckets[i];
    LocatedMeans(c, he, prev, p);
    ChainRepOpen(h.table[i], c, e);
    he.val := v;
    ChainRepMade(h.table[i], c, e[p := Entry(he.key, v)]);
    TableRepUpdate(h, ch, t.buckets, i, c, e[p := Entry(he.key, v)]);
    assert ch[i := c] == ch;
  }

  lemma LocatedMeans(c: seq<Node>, he: Node, prev: Node?, p: nat)
    requires Located(c, he, prev, p)
    ensures p < |c| && c[p] == he && prev == (if p == 0 then null else c[p - 1])
  {
  }

  lemma ChainRepOpen(head: Node?, c: seq<Node>, e: Chain)
    requires ChainRep(head, c, e)
    ensures |c| == |e| && head == (if c == [] then null else c[0])
    ensures forall j :: 0 <= j < |c| ==> c[j].key == e[j].key && c[j].val == e[j].val && c[j].next == Succ(c, j)
  {
  }

  lemma ChainRepMade(head: Node?, c: seq<Node>, e: Chain)
    requires |c| == |e| && head == (if c == [] then null else c[0])
    requires forall j :: 0 <= j < |c| ==> c[j].key == e[j].key && c[j].val == e[j].val && c[j].next == Succ(c, j)
    ensures ChainRep(head, c, e)
  {
  }

  function Without<T>(s: seq<T>, p: nat): seq<T>
    requires p < |s|
  {
    s[..p] + s[p + 1..]
  }

  /** The chain once the predecessor of node p, or the table slot, has been redirected. */
  lemma ChainRepUnlinked(head: Node?, c: seq<Node>, e: Chain, p: nat)
    requires p < |c| == |e|
    requires head == (if p == 0 then Succ(c, 0) else c[0])
    requires p > 0 ==> c[p - 1].next == Succ(c, p)
    requires forall j :: 0 <= j < |c| ==> c[j].key == e[j].key && c[j].val == e[j].val
    requires forall j :: 0 <= j < |c| && j + 1 != p && j != p ==> c[j].next == Succ(c, j)
    ensures ChainRep(head, Without(c, p), Without(e, p))
  {
    var c', e' := Without(c, p), Without(e, p);
    forall j | 0 <= j < |c'|
      ensures c'[j].key == e'[j].key && c'[j].val == e'[j].val && c'[j].next == Succ(c', j)
    {
      if j < p { assert c'[j] == c[j]; } else { assert c'[j] == c[j + 1]; }
    }
  }

  lemma RemoveShape(h: Ht, ch: seq<seq<Node>>, t: Table, he: Node, prev: Node?, p: nat)
    requires TableOk(t) && t.buckets != [] && TableRep(h, ch, t.buckets)
    requires FindIn(t, he.key).Some?
    requires Index(he.key, h.size) < |ch| && Located(ch[Index(he.key, h.size)], he, prev, p)
    ensures var (i, b) := (Index(he.key, h.size), t.buckets);
      && h.size == h.table.Length == |ch| == |b| && i < h.size && h.sizemask == h.size - 1
      && i == And(he.key.hash, h.sizemask)
      && ChainRep(h.table[i], ch[i], b[i]) && p < |b[i]| == |ch[i]| && t.buckets[i][p].key == he.key
      && RemoveFrom(t, he.key).buckets == b[i := Without(b[i], p)]
      && Used(RemoveFrom(t, he.key).buckets) == h.used - 1
    ensures forall a, x :: 0 <= a < |ch| && a != Index(he.key, h.size) && x in ch[Index(he.key, h.size)] ==> x !in ch[a]
    ensures forall a :: 0 <= a < |ch| ==> ChainRep(h.table[a], ch[a], t.buckets[a])
    ensures var c := ch[Index(he.key, h.size)]; p > 0 ==> forall j :: 0 <= j < |c| && j != p - 1 ==> c[j] != c[p - 1]
    ensures h.used > 0
  {
    hide Used, FindIn;
    RemoveFromOk(t, he.key);
    var i, b := Index(he.key, h.size), t.buckets;
    ChainApart(h, ch, t, i);
    if p > 0 { OwnPlace(h.table[i], ch[i], b[i], p - 1); }
    RemoveAt(b[i], he.key, p);
  }

  lemma RemoveAt(e: Chain, k: Key, p: nat)
    requires p < |e| && e[p].key == k && forall j, k :: 0 <= j < k < |e| ==> e[j].key != e[k].key
    ensures Remove(e, k) == Without(e, p)
  {
    NotFound(e, k);
    var q := RemoveSplit(e, k);
    assert p == q;
  }

  /** Takes a node out of its chain, at the head or behind the node before it. */
  method Unlink(h: Ht, ghost ch: seq<seq<Node>>, ghost t: Table, he: Node, prev: Node?, ghost p: nat)
    returns (h': Ht, ghost ch': seq<seq<Node>>)
    requires TableOk(t) && t.buckets != [] && TableRep(h, ch, t.buckets)
    requires FindIn(t, he.key).Some?
    requires Index(he.key, h.size) < |ch| && Located(ch[Index(he.key, h.size)], he, prev, p)
    modifies h.table, Nodes(ch)`next
    ensures TableRep(h', ch', RemoveFrom(t, he.key).buckets)
    ensures h'.table == h.table && h'.size == h.size && Nodes(ch') <= Nodes(ch) && Kept(ch, ch', Some(he.key))
  {
    hide *;
    RemoveShape(h, ch, t, he, prev, p);
    ghost var i := Index(he.key, h.size);
    ghost var c, e := ch[i], t.buckets[i];
    LocatedMeans(c, he, prev, p);
    LocatedIn(ch, i, he, prev, p);
    ChainRepOpen(h.table[i], c, e);
    var idx := And(he.key.hash, h.sizemask);
    assert prev != null ==> prev in c;
    assert prev != null ==> forall a :: 0 <= a < |ch| && a != i ==> prev !in ch[a];
    if prev != null {
      prev.next := he.next;
    } else {
      h.table[idx] := he.next;
    }
    h' := h.(used := h.used - 1);
    ch' := ch[i := Without(c, p)];
    ChainRepUnlinked(h.table[i], c, e, p);
    TableRepUpdate(h', ch, t.buckets, i, Without(c, p), Without(e, p));
    WithoutMembers(c, p);
    KeptWithout(ch, i, p);
    NodesShrink(ch, i, Without(c, p));
  }

  lemma WithoutMembers(c: seq<Node>, p: nat)
    requires p < |c|
    ensures forall x :: x in Without(c, p) ==> x in c
  {
  }

  // ----- moving a chain from one table to the other

  /** The nodes c from position p on, starting at de, are still to be pushed into the table. */
  ghost predicate InTransit(h: Ht, ch: seq<seq<Node>>, t: Table, de: Node?, c: seq<Node>, e: Chain, goal: Table)
    reads h.table, Nodes(ch), c
  {
    && TableOk(t) && t.buckets != [] && TableRep(h, ch, t.buckets)
    && ChainRep(de, c, e) && MovesInto(e, t) && MoveChain(e, t) == goal
  }

  lemma TransitStep(h: Ht, ch: seq<seq<Node>>, t: Table, de: Node, c: seq<Node>, e: Chain, goal: Table)
    requires InTransit(h, ch, t, de, c, e, goal)
    ensures c != [] && e != [] && de == c[0] && Entry(de.key, de.val) == e[0]
    ensures FindIn(t, de.key) == None
    ensures TableOk(t) && t.buckets != [] && TableRep(h, ch, t.buckets)
    ensures TableOk(Push(t, e[0])) && Push(t, e[0]).buckets != [] && MovesInto(e[1..], Push(t, e[0]))
    ensures MoveChain(e[1..], Push(t, e[0])) == goal
    ensures ChainRep(de.next, c[1..], e[1..]) && de !in c[1..]
    ensures MovesInto(e, t) && MovesInto(e[1..], Push(t, e[0]))
  {
    hide TableRep, Push, TableOk, FindIn, Nodes;
    assert c != [];
    ChainRepTail(de, c, e);
    PushOk(t, e[0]);
    TailMovesInto(e, t);
    HeadElsewhere(de, c, e);
  }

  lemma HeadElsewhere(de: Node?, c: seq<Node>, e: Chain)
    requires ChainRep(de, c, e) && c != [] && forall j, k :: 0 <= j < k < |e| ==> e[j].key != e[k].key
    ensures c[0] !in c[1..]
  {
    forall j | 0 <= j < |c| - 1 ensures c[1..][j] != c[0] {
      assert e[j + 1].key != e[0].key && c[j + 1].key == e[j + 1].key;
    }
  }

  /** Moves the first node of the chain being migrated to the front of its chain in the second table. */
  method MoveOne(h: Ht, ghost ch: seq<seq<Node>>, ghost t: Table, de: Node, ghost c: seq<Node>, ghost e: Chain,
      ghost goal: Table)
    returns (h': Ht, ghost ch': seq<seq<Node>>, ghost t': Table, nextde: Node?)
    requires InTransit(h, ch, t, de, c, e, goal)
    modifies h.table, de`next
    ensures c != [] && e != [] && de == c[0]
    ensures InTransit(h', ch', t', nextde, c[1..], e[1..], goal)
    ensures h'.table == h.table && Nodes(ch') == Nodes(ch) + {de}
  {
    hide *;
    TransitStep(h, ch, t, de, c, e, goal);
    nextde := de.next;
    h', ch' := PushNode(h, ch, t, de);
    t' := Push(t, e[0]);
    assert ChainRep(nextde, c[1..], e[1..]);
    TransitMade(h', ch', t', nextde, c[1..], e[1..], goal);
  }

  lemma TransitHead(h: Ht, ch: seq<seq<Node>>, t: Table, de: Node, c: seq<Node>, e: Chain, goal: Table)
    requires InTransit(h, ch, t, de, c, e, goal)
    ensures c != [] && de == c[0] && de in c && forall x :: x in c[1..] ==> x in c
  {
  }

  lemma TransitMade(h: Ht, ch: seq<seq<Node>>, t: Table, de: Node?, c: seq<Node>, e: Chain, goal: Table)
    requires TableOk(t) && t.buckets != [] && TableRep(h, ch, t.buckets)
    requires ChainRep(de, c, e) && MovesInto(e, t) && MoveChain(e, t) == goal
    ensures InTransit(h, ch, t, de, c, e, goal)
  {
  }

  class Dict {
    var ht0: Ht
    var ht1: Ht
    var rehashidx: int
    var iterators: int

    ghost var chains0: seq<seq<Node>>
    ghost var chains1: seq<seq<Node>>
    ghost var st: State  // the value the dictionary represents
    ghost var Repr: set<object>

    ghost predicate Valid()
      reads this, Repr
      ensures Valid() ==> this in Repr
    {
      && {this, ht0.table, ht1.table} <= Repr && ht0.table != ht1.table
      && Nodes(chains0) <= Repr && Nodes(chains1) <= Repr
      && Ok(st) && st.rehashidx == rehashidx && st.iterators == iterators
      && TableRep(ht0, chains0, st.ht0.buckets)
      && TableRep(ht1, chains1, st.ht1.buckets)
    }

    constructor ()
      ensures Valid() && fresh(Repr)
      ensures st == State(Table([]), Table([]), NOT_REHASHING, 0)
    {
      var t0, t1 := new Node?[0], new Node?[0];
      ht0, ht1 := Ht(t0, 0, 0, 0), Ht(t1, 0, 0, 0);
      rehashidx, iterators := NOT_REHASHING, 0;
      chains0, chains1 := [], [];
      st := State(Table([]), Table([]), NOT_REHASHING, 0);
      Repr := {this, t0, t1};
      new;
      assert forall k :: FindIn(st.ht0, k) == None;
    }


    /** What is known of the bucket about to be moved. */
    lemma BucketFacts()
      requires Valid() && IsRehashing(st) && rehashidx < ht0.size
      ensures 0 <= rehashidx < ht0.table.Length == ht0.size == |chains0| == |st.ht0.buckets|
      ensures
        && BucketReady(st) && Ok(MoveBucket(st)) && MoveBucket(st).iterators == iterators
        && MoveBucket(st).rehashidx == rehashidx + 1
      ensures MoveBucket(st).ht0.buckets == st.ht0.buckets[rehashidx := []]
      ensures IsRehashing(MoveBucket(st))
      ensures InTransit(ht1, chains1, st.ht1, ht0.table[rehashidx], chains0[rehashidx], st.ht0.buckets[rehashidx],
          MoveBucket(st).ht1)
      ensures ht0.used == Used(st.ht0.buckets[rehashidx := []]) + |chains0[rehashidx]| && ht0.sizemask == ht0.size - 1
      ensures forall i :: 0 <= i < |chains0| ==> ChainRep(ht0.table[i], chains0[i], st.ht0.buckets[i])
      ensures forall i, x :: 0 <= i < |chains0| && i != rehashidx && x in chains0[rehashidx] ==> x !in chains0[i]
      ensures forall x :: x in chains0[rehashidx] ==> x in Repr
    {
      hide MoveChain;
      var r, b := rehashidx, st.ht0.buckets;
      OkBucketReady(st);
      MoveBucketOk(st);
      UsedUpdate(b, r, []);
      assert ChainRep(ht0.table[r], chains0[r], b[r]);
      forall x | x in chains0[r] ensures x in Repr {
        assert x in Nodes(chains0);
      }
      forall i, x | 0 <= i < |chains0| && i != r && x in chains0[r] ensures x !in chains0[i] {
        assert ChainRep(ht0.table[i], chains0[i], b[i]) && ChainOk(b[i], i, |b|) && ChainOk(b[r], r, |b|);
        var p :| 0 <= p < |chains0[r]| && chains0[r][p] == x;
        assert Index(b[r][p].key, |b|) == r;
        forall q | 0 <= q < |chains0[i]| ensures chains0[i][q] != x {
          assert Index(b[i][q].key, |b|) == i;
        }
      }
    }

    /** Move the nodes of bucket rehashidx to the second table, one by one. */
    method MoveChainNodes()
      requires Valid() && IsRehashing(st) && rehashidx < ht0.size
      modifies Repr
      ensures Valid() && Repr == old(Repr)
      ensures BucketReady(old(st)) && st == MoveBucket(old(st))
    {
      hide *;
      Opened();
      BucketFacts();
      ghost var c, e, t := chains0[rehashidx], st.ht0.buckets[rehashidx], st.ht1;
      ghost var st' := MoveBucket(st);
      var de := ht0.table[rehashidx];
      while de != null
        invariant unchanged(`chains0, `st, `rehashidx, `iterators, `Repr)
        invariant ht0 == old(ht0).(used := Used(st'.ht0.buckets) + |c|) && ht1.table == old(ht1.table)
        invariant InTransit(ht1, chains1, t, de, c, e, st'.ht1)
        invariant
          forall i :: 0 <= i < |chains0| && i != rehashidx ==> ChainRep(ht0.table[i], chains0[i], st.ht0.buckets[i])
        invariant forall i, x :: 0 <= i < |chains0| && i != rehashidx && x in c ==> x !in chains0[i]
        invariant forall x :: x in c ==> x in Repr
        invariant Nodes(chains1) <= Repr
        decreases |c|
      {
        TransitHead(ht1, chains1, t, de, c, e, st'.ht1);
        assert forall i :: 0 <= i < |chains0| && i != rehashidx ==> de !in chains0[i];
        ht1, chains1, t, de := MoveOne(ht1, chains1, t, de, c, e, st'.ht1);
        c, e := c[1..], e[1..];
        ht0 := ht0.(used := ht0.used - 1);
      }
      TransitEnd(ht1, chains1, t, c, e, st'.ht1);
      ht0.table[rehashidx] := null;
      ChainRepNil();
      TableRepUpdate(ht0, chains0, st.ht0.buckets, rehashidx, [], []);
      NodesShrink(chains0, rehashidx, []);
      chains0 := chains0[rehashidx := []];
      rehashidx := rehashidx + 1;
      st := st';
      Close();
    }

    /** The loop over empty buckets, which gives up when its visits are used up. */
    method SkipEmptyBuckets(visits: nat) returns (left: nat)
      requires Valid() && IsRehashing(st) && 0 <= rehashidx && visits > 0
      requires Pending(st.ht0.buckets, rehashidx)
      modifies this
      ensures Valid() && Repr == old(Repr) && 0 <= rehashidx && Ok(st) && IsRehashing(st)
      ensures (rehashidx, left) == Skip(old(st).ht0.buckets, old(rehashidx), visits)
      ensures st == old(st).(rehashidx := rehashidx)
      ensures left > 0 ==> rehashidx < ht0.size
    {
      hide *;
      SizeIs();
      Opened();
      ghost var b, st0 := st.ht0.buckets, st;
      left := visits;
      SkipUnfold(b, rehashidx, left);
      EmptyBucket();
      while ht0.table[rehashidx] == null
        invariant Valid() && Ok(st) && Repr == old(Repr) && IsRehashing(st) && unchanged(`ht0)
        invariant 0 <= rehashidx < ht0.size && left > 0
        invariant ht0.size == ht0.table.Length == |b| && (ht0.table[rehashidx] == null <==> b[rehashidx] == [])
        invariant st == st0.(rehashidx := rehashidx) && st0.rehashidx <= rehashidx
        invariant Pending(b, rehashidx) && Skip(b, rehashidx, left) == Skip(b, old(rehashidx), visits)
        invariant forall j :: st0.rehashidx <= j < rehashidx ==> b[j] == []
        decreases ht0.size - rehashidx
      {
        Opened();
        SkipUnfold(b, rehashidx, left);
        SkipOk(st0, rehashidx + 1);
        rehashidx := rehashidx + 1;
        st := st.(rehashidx := rehashidx);
        Close();
        left := left - 1;
        if left == 0 { return; }
        EmptyBucket();
      }
      SkipUnfold(b, rehashidx, left);
    }

    /** dictRehash */
    method Rehash(n: nat) returns (more: bool)
      requires Valid()
      modifies Repr
      ensures Valid() && fresh(Repr - old(Repr))
      ensures Ok(old(st)) && (st, more) == DictOps.Rehash(old(st), n)
    {
      hide *;
      Opened();
      RehashCases(st, n);
      SizeIs();
      if rehashidx == -1 { return false; }
      var left: nat, visits: nat := n, 10 * n;
      ghost var goal := RehashSteps(st, n, 10 * n);
      UsedIs();
      while left != 0 && ht0.used != 0
        invariant Valid() && Ok(st) && IsRehashing(st) && Repr == old(Repr)
        invariant left > 0 ==> visits > 0
        invariant RehashSteps(st, left, visits) == goal
        invariant ht0.used == Used(st.ht0.buckets)
        decreases left
      {
        RehashStepsUnfold(st, left, visits);
        Opened();
        assert ht0.size > rehashidx by { SizeIs(); OkPending(st); }
        visits := SkipEmptyBuckets(visits);
        if visits == 0 { return true; }
        MoveChainNodes();
        left := left - 1;
        UsedIs();
      }
      RehashStepsUnfold(st, left, visits);
      if ht0.used == 0 {
        TakeSecondTable();
        return false;
      }
      return true;
    }

    /** The end of a migration: the second table becomes the first, and the second slot is empty again. */
    method TakeSecondTable()
      requires Valid() && IsRehashing(st) && Ok(Finish(st))
      modifies Repr
      ensures Valid() && fresh(Repr - old(Repr)) && st == Finish(old(st))
    {
      hide *;
      Opened();
      var none := new Node?[0];
      ht0, chains0 := ht1, chains1;
      ht1, chains1 := Ht(none, 0, 0, 0), [];
      rehashidx := NOT_REHASHING;
      Repr := Repr + {none};
      st := Finish(st);
      FinishParts(old(st));
      EmptyTableRep(ht1);
      Close();
    }

    /** _dictRehashStep */
    method RehashStep()
      requires Valid()
      modifies Repr
      ensures Valid() && fresh(Repr - old(Repr))
      ensures Ok(old(st)) && st == DictOps.RehashStep(old(st))
      ensures old(iterators) > 0 ==> chains0 == old(chains0) && chains1 == old(chains1) && iterators > 0
    {
      hide *;
      Opened();
      RehashStepCases(st);
      if iterators == 0 {
        var more := Rehash(1);
      }
    }

    /** dictExpand */
    method Expand(size: nat) returns (ok: bool)
      requires Valid() && size <= SIZE_LIMIT
      modifies Repr
      ensures Valid() && fresh(Repr - old(Repr))
      ensures (st, ok) == DictOps.Expand(old(st), size)
      ensures Kept(old(chains0), chains0, None) && Kept(old(chains1), chains1, None)
    {
      hide *;
      Opened();
      KeptSame(chains0, None);
      KeptSame(chains1, None);
      SizeIs();
      UsedIs();
      ExpandCases(st, size);
      ExpandOk(st, size);
      var realsize := NextPowerLoop(size);
      if rehashidx != -1 || ht0.used > size { return false; }
      if realsize == ht0.size { return false; }
      var table := new Node?[realsize](_ => null);
      var n := Ht(table, realsize, realsize - 1, 0);
      ghost var ch := seq(realsize, _ => []);
      KeptNone(ch, None);
      NoSecondTable(st);
      ClearTableRep(n, ch);
      Repr := Repr + {table};
      if ht0.size == 0 {
        ht0, chains0 := n, ch;
      } else {
        ht1, chains1 := n, ch;
        rehashidx := 0;
      }
      st := DictOps.Expand(st, size).0;
      Close();
      return true;
    }

    /** _dictExpandIfNeeded */
    method ExpandIfNeeded(canResize: bool) returns (ok: bool)
      requires Valid() && 2 * Size(st) <= SIZE_LIMIT
      modifies Repr
      ensures Valid() && fresh(Repr - old(Repr))
      ensures (st, ok) == DictOps.ExpandIfNeeded(old(st), canResize)
      ensures Kept(old(chains0), chains0, None) && Kept(old(chains1), chains1, None)
    {
      hide *;
      Opened();
      KeptSame(chains0, None);
      KeptSame(chains1, None);
      SizeIs();
      UsedIs();
      ExpandIfNeededCases(st, canResize);
      if rehashidx != -1 { return true; }
      if ht0.size == 0 {
        ok := Expand(INITIAL_SIZE);
        return;
      }
      if ht0.used >= ht0.size && (canResize || ht0.used / ht0.size > FORCE_RATIO) {
        ok := Expand(ht0.used * 2);
        return;
      }
      return true;
    }

    /** Search both tables for a key. */
    method Search(k: Key) returns (he: Node?)
      requires Valid() && st.ht0.buckets != []
      ensures Ok(st) && (he == null <==> Get(st, k) == None)
      ensures he != null ==> he in Repr && he.key == k && Get(st, k) == Some(he.val)
    {
      hide *;
      Opened();
      SizeIs();
      GetCases(st, k);
      var prev; ghost var p;
      he, prev, p := FindNode(ht0, chains0, st.ht0, k);
      if he != null {
        LocatedIn(chains0, Index(k, ht0.size), he, prev, p);
        return;
      }
      if rehashidx == -1 { return null; }
      he, prev, p := FindNode(ht1, chains1, st.ht1, k);
      if he != null { LocatedIn(chains1, Index(k, ht1.size), he, prev, p); }
    }

    /** A new entry goes to the front of its chain, in the second table while migrating. */
    method InsertEntry(k: Key, v: Value)
      requires Valid() && st.ht0.buckets != [] && Get(st, k) == None
      modifies Repr
      ensures Valid() && fresh(Repr - old(Repr))
      ensures Ok(old(st)) && TableOk(Target(old(st))) && Target(old(st)).buckets != []
      ensures st == PushEntry(old(st), Entry(k, v))
      ensures Kept(old(chains0), chains0, None) && Kept(old(chains1), chains1, None)
    {
      hide *;
      Opened();
      KeptSame(chains0, None);
      KeptSame(chains1, None);
      PushEntryCases(st, k, v);
      GetCases(st, k);
      SizeIs();
      var entry := new Node(k, v);
      if rehashidx != -1 {
        ht1, chains1 := PushNode(ht1, chains1, st.ht1, entry);
      } else {
        ht0, chains0 := PushNode(ht0, chains0, st.ht0, entry);
      }
      Repr := Repr + {entry};
      st := PushEntry(st, Entry(k, v));
      Close();
    }

    /** dictAdd: dictAddRaw, with the value set in the new entry. */
    method Add(k: Key, v: Value, canResize: bool) returns (added: bool)
      requires Valid() && 2 * Size(st) <= SIZE_LIMIT
      modifies Repr
      ensures Valid() && fresh(Repr - old(Repr))
      ensures Ok(old(st)) && (st, added) == DictOps.Add(old(st), k, v, canResize)
      ensures old(iterators) > 0 ==> Kept(old(chains0), chains0, None) && Kept(old(chains1), chains1, None)
    {
      hide *;
      Opened();
      SizeIs();
      AddCases(st, k, v, canResize);
      if rehashidx != -1 { RehashStep(); }
      Opened();
      ghost var a0, a1 := chains0, chains1;
      var ok := ExpandIfNeeded(canResize);
      if !ok { return false; }
      Opened();
      ghost var b0, b1 := chains0, chains1;
      var he := Search(k);
      if he != null { return false; }
      InsertEntry(k, v);
      KeptThrough(a0, b0, chains0);
      KeptThrough(a1, b1, chains1);
      return true;
    }

    /** dictFind */
    method Find(k: Key) returns (he: Node?)
      requires Valid()
      modifies Repr
      ensures Valid() && fresh(Repr - old(Repr)) && Ok(old(st)) && st == FindOp(old(st), k).0
      ensures FindOp(old(st), k).1 == if he == null then None else Some(he.val)
      ensures he != null ==> he in Repr && he.key == k
      ensures old(iterators) > 0 ==> chains0 == old(chains0) && chains1 == old(chains1)
    {
      hide *;
      Opened();
      SizeIs();
      UsedIs();
      FindCases(st, k);
      if ht0.used + ht1.used == 0 { return null; }
      if rehashidx != -1 { RehashStep(); }
      Opened();
      he := Search(k);
    }

    /** Search for a key that is there and set the value of its entry. */
    method SetFound(k: Key, v: Value)
      requires Valid() && Ok(st) && Get(st, k).Some? && st.ht0.buckets != []
      modifies Repr
      ensures Valid() && Repr == old(Repr) && st == Overwrite(old(st), k, v)
      ensures chains0 == old(chains0) && chains1 == old(chains1)
    {
      hide *;
      Opened();
      SizeIs();
      OverwriteOk(st, k, v);
      OverwriteCases(st, k, v);
      TablesApart();
      var he, prev; ghost var p;
      he, prev, p := FindNode(ht0, chains0, st.ht0, k);
      if he != null {
        LocatedIn(chains0, Index(k, ht0.size), he, prev, p);
        SetNode(ht0, chains0, st.ht0, he, prev, p, v);
      } else {
        he, prev, p := FindNode(ht1, chains1, st.ht1, k);
        LocatedIn(chains1, Index(k, ht1.size), he, prev, p);
        SetNode(ht1, chains1, st.ht1, he, prev, p, v);
      }
      st := Overwrite(st, k, v);
      Close();
    }

    /** dictReplace */
    method Replace(k: Key, v: Value, canResize: bool) returns (added: bool)
      requires Valid() && 2 * Size(st) <= SIZE_LIMIT
      modifies Repr
      ensures Valid() && fresh(Repr - old(Repr))
      ensures Ok(old(st)) && (st, added) == DictOps.Replace(old(st), k, v, canResize)
      ensures old(iterators) > 0 ==> Kept(old(chains0), chains0, None) && Kept(old(chains1), chains1, None)
    {
      hide *;
      Opened();
      ReplaceCases(st, k, v, canResize);
      added := Add(k, v, canResize);
      if added { return true; }
      Opened();
      var entry := Find(k);
      SetFound(k, v);
      return false;
    }

    /** dictGenericDelete */
    method Delete(k: Key) returns (deleted: bool)
      requires Valid()
      modifies Repr
      ensures Valid() && fresh(Repr - old(Repr))
      ensures Ok(old(st)) && (st, deleted) == DictOps.Delete(old(st), k)
      ensures old(iterators) > 0 ==> Kept(old(chains0), chains0, Some(k)) && Kept(old(chains1), chains1, Some(k))
    {
      hide *;
      Opened();
      KeptSame(chains0, Some(k));
      KeptSame(chains1, Some(k));
      SizeIs();
      DeleteCases(st, k);
      if ht0.size == 0 { return false; }
      if rehashidx != -1 { RehashStep(); }
      deleted := UnlinkKey(k);
    }

    /** The loop over the tables: unlink the entry of the key from the first table that has one. */
    method UnlinkKey(k: Key) returns (deleted: bool)
      requires Valid() && Ok(st) && st.ht0.buckets != []
      modifies Repr
      ensures Valid() && Repr == old(Repr)
      ensures (st, deleted) == RemoveKey(old(st), k)
      ensures Kept(old(chains0), chains0, Some(k)) && Kept(old(chains1), chains1, Some(k))
    {
      hide *;
      Opened();
      KeptSame(chains0, Some(k));
      KeptSame(chains1, Some(k));
      SizeIs();
      GetCases(st, k);
      RemoveKeyCases(st, k);
      TablesApart();
      var he, prev; ghost var p;
      he, prev, p := FindNode(ht0, chains0, st.ht0, k);
      if he != null {
        ht0, chains0 := Unlink(ht0, chains0, st.ht0, he, prev, p);
        st := RemoveKey(st, k).0;
        Close();
        return true;
      }
      if rehashidx == -1 { return false; }
      he, prev, p := FindNode(ht1, chains1, st.ht1, k);
      if he != null {
        ht1, chains1 := Unlink(ht1, chains1, st.ht1, he, prev, p);
        st := RemoveKey(st, k).0;
        Close();
        return true;
      }
      return false;
    }

    /** dictScan: the entries passed to fn, in order, and the cursor returned. */
    method Scan(v: nat) returns (v': nat, out: Chain)
      requires Valid() && v < Pow2(WIDTH)
      ensures Ok(st) && (out, v') == (DictScan.Emitted(st, v), DictScan.Next(st, v))
    {
      hide *;
      Opened();
      SizeIs();
      UsedIs();
      ScanCases(st, v);
      if ht0.used + ht1.used == 0 { return 0, []; }
      Masks();
      if rehashidx == -1 {
        out := EmitBucket(ht0, chains0, st.ht0.buckets, And(v, ht0.sizemask));
        v' := Advance(v, v, ht0.sizemask, DictScan.SmallBits(st));
      } else if ht0.size > ht1.size {
        var end: nat;
        end, out := ScanBoth(ht1, chains1, st.ht1.buckets, ht0, chains0, st.ht0.buckets, v, DictScan.SmallBits(st),
          DictScan.BigBits(st));
        v' := Advance(end, v, ht1.sizemask, DictScan.SmallBits(st));
      } else {
        var end: nat;
        end, out := ScanBoth(ht0, chains0, st.ht0.buckets, ht1, chains1, st.ht1.buckets, v, DictScan.SmallBits(st),
          DictScan.BigBits(st));
        v' := Advance(end, v, ht0.sizemask, DictScan.SmallBits(st));
      }
    }

    lemma Masks()
      requires Valid()
      ensures ht0.size > 0 ==> ht0.sizemask == ht0.size - 1
      ensures ht1.size > 0 ==> ht1.sizemask == ht1.size - 1
    {
    }

    // ----- what an iterator needs to know

    function HtOf(t: nat): Ht
      reads this
    {
      if t == 0 then ht0 else ht1
    }

    ghost function ChainsOf(t: nat): seq<seq<Node>>
      reads this
    {
      if t == 0 then chains0 else chains1
    }

    ghost predicate Holds(t: nat, i: int, n: Node)
      reads this
    {
      0 <= i < |ChainsOf(t)| && n in ChainsOf(t)[i]
    }

    /** A safe iterator counts itself when it starts. */
    method CountIterator()
      requires Valid()
      modifies this`iterators, this`st
      ensures Valid() && Ok(st) && iterators == old(iterators) + 1 && st == old(st).(iterators := iterators)
    {
      iterators := iterators + 1;
      st := st.(iterators := iterators);
    }

    lemma TableSizes()
      requires Valid()
      ensures ht0.size == ht0.table.Length == |st.ht0.buckets| == |chains0|
      ensures ht1.size == ht1.table.Length == |st.ht1.buckets| == |chains1|
      ensures forall t :: DictIter.TableOf(st, t) == if t == 0 then st.ht0 else st.ht1
      ensures forall t :: HtOf(t) == if t == 0 then ht0 else ht1
      ensures st.rehashidx == rehashidx
    {
    }

    lemma ChainFacts(t: nat, i: nat)
      requires Valid() && t <= 1 && i < |DictIter.TableOf(st, t).buckets|
      ensures |ChainsOf(t)| == |DictIter.TableOf(st, t).buckets| == HtOf(t).table.Length
      ensures ChainRep(HtOf(t).table[i], ChainsOf(t)[i], DictIter.TableOf(st, t).buckets[i])
      ensures ChainOk(DictIter.TableOf(st, t).buckets[i], i, |DictIter.TableOf(st, t).buckets|)
    {
    }

    lemma HeadOfChain(t: nat, i: nat)
      requires Valid() && t <= 1 && i < |DictIter.TableOf(st, t).buckets|
      ensures i < HtOf(t).table.Length && i < |ChainsOf(t)|
      ensures var e := DictIter.TableOf(st, t).buckets[i];
        RestIs(t, i, HtOf(t).table[i], e)
    {
      ChainFacts(t, i);
      var e := DictIter.TableOf(st, t).buckets[i];
      assert e[0..] == e;
      assert Suffix(HtOf(t).table[i], ChainsOf(t)[i], e, e, 0);
    }

    lemma RestOfChain(t: nat, i: nat, n: Node?)
      requires Valid() && t <= 1 && i < |DictIter.TableOf(st, t).buckets|
      requires n != null ==> Holds(t, i, n)
      ensures i < |ChainsOf(t)|
      ensures RestIs(t, i, n, DictIter.From(DictIter.TableOf(st, t).buckets[i], KeyOf(n)))
    {
      ChainFacts(t, i);
      var e, c := DictIter.TableOf(st, t).buckets[i], ChainsOf(t)[i];
      if n != null {
        var p :| 0 <= p < |c| && c[p] == n;
        DictIter.FromTail(e, e[p..], i, |DictIter.TableOf(st, t).buckets|);
        assert Suffix(n, c, e, e[p..], p);
      } else {
        assert Suffix(n, c, e, [], |c|);
      }
    }

    /** The entries rest are those from node n of chain i on. */
    ghost predicate RestIs(t: nat, i: nat, n: Node?, rest: Chain)
      requires i < |ChainsOf(t)| && i < |DictIter.TableOf(st, t).buckets|
      reads this
    {
      (n == null <==> rest == []) && exists p :: Suffix(n, ChainsOf(t)[i], DictIter.TableOf(st, t).buckets[i], rest, p)
    }

    lemma StepInChain(t: nat, i: nat, n: Node, rest: Chain)
      requires Valid() && t <= 1 && i < |DictIter.TableOf(st, t).buckets| && i < |ChainsOf(t)|
      requires RestIs(t, i, n, rest)
      ensures rest != [] && rest[0] == Entry(n.key, n.val) && EntryOf(n) == Some(rest[0]) && KeyOf(n) == Some(n.key)
      ensures n.next != null ==> Holds(t, i, n.next)
      ensures KeyOf(n.next) == if |rest| > 1 then Some(rest[1].key) else None
    {
      ChainFacts(t, i);
      var p :| Suffix(n, ChainsOf(t)[i], DictIter.TableOf(st, t).buckets[i], rest, p);
      StepSuffix(HtOf(t).table[i], ChainsOf(t)[i], DictIter.TableOf(st, t).buckets[i], rest, p, n);
    }

    lemma HeldIsFound(t: nat, i: nat, n: Node)
      requires Valid() && t <= 1 && i < |DictIter.TableOf(st, t).buckets| && Holds(t, i, n)
      ensures DictModel.Find(DictIter.TableOf(st, t).buckets[i], n.key).Some?
    {
      ChainFacts(t, i);
      var e, c := DictIter.TableOf(st, t).buckets[i], ChainsOf(t)[i];
      var p :| 0 <= p < |c| && c[p] == n;
      NotFound(e, n.key);
      assert e[p].key == n.key;
    }

    /** The two tables share no node. */
    lemma TablesApart()
      requires Valid()
      ensures Nodes(chains0) !! Nodes(chains1)
    {
      forall n | n in Nodes(chains0) ensures n !in Nodes(chains1) {
        var i, j :| 0 <= i < |chains0| && 0 <= j < |chains0[i]| && chains0[i][j] == n;
        assert ChainRep(ht0.table[i], chains0[i], st.ht0.buckets[i]) && ChainOk(st.ht0.buckets[i], i, |st.ht0.buckets|);
        NotFound(st.ht0.buckets[i], n.key);
        assert FindIn(st.ht0, n.key).Some?;
        KeyElsewhere(ht1, chains1, st.ht1, n);
      }
    }

    lemma UsedIs()
      requires Valid()
      ensures ht0.used == Used(st.ht0.buckets) && ht1.used == Used(st.ht1.buckets)
    {
    }

    lemma SizeIs()
      requires Valid()
      ensures ht0.size == ht0.table.Length == |chains0| == |st.ht0.buckets|
      ensures ht1.size == ht1.table.Length == |chains1| == |st.ht1.buckets|
      ensures IsRehashing(st) <==> rehashidx != -1
      ensures IsRehashing(st) ==> 0 <= rehashidx <= ht0.size
    {
    }

    lemma EmptyBucket()
      requires Valid() && 0 <= rehashidx < ht0.size
      ensures ht0.size == ht0.table.Length == |st.ht0.buckets|
      ensures ht0.table[rehashidx] == null <==> st.ht0.buckets[rehashidx] == []
    {
      assert ChainRep(ht0.table[rehashidx], chains0[rehashidx], st.ht0.buckets[rehashidx]);
    }

    lemma Opened()
      requires Valid()
      ensures {this, ht0.table, ht1.table} <= Repr && ht0.table != ht1.table
      ensures Nodes(chains0) <= Repr && Nodes(chains1) <= Repr
      ensures Ok(st) && st.rehashidx == rehashidx && st.iterators == iterators
      ensures TableRep(ht0, chains0, st.ht0.buckets) && TableRep(ht1, chains1, st.ht1.buckets)
    {
    }

    lemma Close()
      requires {this, ht0.table, ht1.table} <= Repr && ht0.table != ht1.table
      requires Nodes(chains0) <= Repr && Nodes(chains1) <= Repr
      requires Ok(st) && st.rehashidx == rehashidx && st.iterators == iterators
      requires TableRep(ht0, chains0, st.ht0.buckets) && TableRep(ht1, chains1, st.ht1.buckets)
      ensures Valid()
    {
    }
  }

  lemma TransitEnd(h: Ht, ch: seq<seq<Node>>, t: Table, c: seq<Node>, e: Chain, goal: Table)
    requires InTransit(h, ch, t, null, c, e, goal)
    ensures c == [] && t == goal && TableRep(h, ch, t.buckets)
  {
  }

  lemma ChainRepNil()
    ensures ChainRep(null, [], [])
  {
  }

  lemma NodesShrink(ch: seq<seq<Node>>, i: nat, c: seq<Node>)
    requires i < |ch| && forall x :: x in c ==> x in ch[i]
    ensures Nodes(ch[i := c]) <= Nodes(ch)
  {
    forall x | x in Nodes(ch[i := c]) ensures x in Nodes(ch) {
      var a, b :| 0 <= a < |ch| && 0 <= b < |ch[i := c][a]| && ch[i := c][a][b] == x;
      assert x in ch[a];
    }
  }

  // ----- the specification of dictRehash, one unfolding at a time

  lemma RehashCases(d: State, n: nat)
    requires Ok(d)
    ensures !IsRehashing(d) ==> DictOps.Rehash(d, n) == (d, false)
    ensures IsRehashing(d) ==>
      var (e, stopped) := RehashSteps(d, n, 10 * n);
      DictOps.Rehash(d, n) == (if !stopped && Used(e.ht0.buckets) == 0 then (Finish(e), false) else (e, true))
  {
  }

  lemma RehashStepsUnfold(d: State, n: nat, visits: nat)
    requires Ok(d) && IsRehashing(d) && (n > 0 ==> visits > 0)
    ensures n == 0 || Used(d.ht0.buckets) == 0 ==> RehashSteps(d, n, visits) == (d, false)
    ensures n == 0 || Used(d.ht0.buckets) == 0 ==> Used(d.ht0.buckets) == 0 ==> Ok(Finish(d))
    ensures n != 0 && Used(d.ht0.buckets) != 0 ==>
      && 0 <= d.rehashidx && Pending(d.ht0.buckets, d.rehashidx)
      && var (i, left) := Skip(d.ht0.buckets, d.rehashidx, visits);
      && (left == 0 ==> RehashSteps(d, n, visits) == (d.(rehashidx := i), true))
      && (left != 0 ==>
          && BucketReady(d.(rehashidx := i)) && Ok(MoveBucket(d.(rehashidx := i)))
          && IsRehashing(MoveBucket(d.(rehashidx := i)))
          && RehashSteps(d, n, visits) == RehashSteps(MoveBucket(d.(rehashidx := i)), n - 1, left))
  {
    hide FindIn, Get, Used, MoveChain;
    if n != 0 && Used(d.ht0.buckets) != 0 {
      OkPending(d);
      var (i, left) := Skip(d.ht0.buckets, d.rehashidx, visits);
      SkipOk(d, i);
      if left != 0 { MoveBucketOk(d.(rehashidx := i)); }
    } else if Used(d.ht0.buckets) == 0 {
      FinishOk(d);
    }
  }

  lemma SkipUnfold(b: seq<Chain>, i: nat, visits: nat)
    requires Pending(b, i) && visits > 0
    ensures i < |b|
    ensures b[i] != [] ==> Skip(b, i, visits) == (i, visits)
    ensures b[i] == [] ==> Pending(b, i + 1) && i + 1 < |b|
    ensures b[i] == [] && visits == 1 ==> Skip(b, i, visits) == (i + 1, 0)
    ensures b[i] == [] && visits > 1 ==> Skip(b, i, visits) == Skip(b, i + 1, visits - 1)
  {
  }

  lemma FinishParts(d: State)
    requires Ok(d)
    ensures
      && Finish(d).ht0 == d.ht1 && Finish(d).ht1.buckets == [] && Finish(d).rehashidx == NOT_REHASHING
      && Finish(d).iterators == d.iterators
  {
  }

  lemma EmptyTableRep(h: Ht)
    requires h.table.Length == 0 && h == Ht(h.table, 0, 0, 0)
    ensures TableRep(h, [], []) && Nodes([]) == {}
  {
  }

  // ----- the other specifications, case by case

  lemma NoSecondTable(d: State)
    requires Ok(d)
    ensures d.rehashidx == -1 ==> d.ht1.buckets == []
  {
  }

  lemma RehashStepCases(d: State)
    requires Ok(d)
    ensures DictOps.RehashStep(d) == if d.iterators == 0 then DictOps.Rehash(d, 1).0 else d
  {
  }

  /** _dictNextPower: the loop that doubles from the initial size. */
  method NextPowerLoop(size: nat) returns (i: nat)
    ensures i == NextPower(size)
  {
    i := INITIAL_SIZE;
    if size >= LONG_MAX { return LONG_MAX; }
    while i < size
      invariant i > 0 && PowerFrom(i, size) == PowerFrom(INITIAL_SIZE, size)
      decreases size - i
    {
      i := i * 2;
    }
  }

  lemma ExpandCases(d: State, size: nat)
    requires Ok(d) && size <= SIZE_LIMIT
    ensures IsRehashing(d) || Used(d.ht0.buckets) > size || NextPower(size) == |d.ht0.buckets| ==>
      DictOps.Expand(d, size) == (d, false)
    ensures !(IsRehashing(d) || Used(d.ht0.buckets) > size || NextPower(size) == |d.ht0.buckets|) ==>
      var n := Table(EmptyBuckets(NextPower(size)));
      DictOps.Expand(d, size) == (if d.ht0.buckets == [] then d.(ht0 := n) else d.(ht1 := n, rehashidx := 0), true)
    ensures NextPower(size) > 0 && Ok(DictOps.Expand(d, size).0)
  {
    NextPowerOk(size);
    ExpandOk(d, size);
  }

  lemma ClearTableRep(h: Ht, ch: seq<seq<Node>>)
    requires h.table.Length == h.size == |ch| > 0 && h.sizemask == h.size - 1 && h.used == 0
    requires forall i :: 0 <= i < h.size ==> h.table[i] == null && ch[i] == []
    ensures TableRep(h, ch, EmptyBuckets(h.size)) && Nodes(ch) == {}
  {
    UsedZero(EmptyBuckets(h.size));
  }

  lemma ExpandIfNeededCases(d: State, canResize: bool)
    requires Ok(d) && 2 * Size(d) <= SIZE_LIMIT
    ensures var (used, size) := (Used(d.ht0.buckets), |d.ht0.buckets|);
      && used * 2 <= SIZE_LIMIT && INITIAL_SIZE <= SIZE_LIMIT
      && DictOps.ExpandIfNeeded(d, canResize) ==
        if IsRehashing(d) then (d, true)
        else if size == 0 then DictOps.Expand(d, INITIAL_SIZE)
        else if used >= size && (canResize || used / size > FORCE_RATIO) then DictOps.Expand(d, used * 2)
        else (d, true)
  {
  }

  lemma GetCases(d: State, k: Key)
    requires Ok(d)
    ensures TableOk(d.ht0) && TableOk(d.ht1)
    ensures IsRehashing(d) ==> d.ht1.buckets != []
    ensures !IsRehashing(d) ==> FindIn(d.ht1, k) == None
    ensures Get(d, k) == if FindIn(d.ht0, k).Some? then FindIn(d.ht0, k) else FindIn(d.ht1, k)
  {
  }

  lemma LocatedIn(ch: seq<seq<Node>>, i: nat, he: Node, prev: Node?, p: nat)
    requires i < |ch| && Located(ch[i], he, prev, p)
    ensures he in Nodes(ch) && (prev != null ==> prev in Nodes(ch))
  {
  }

  /** dictAdd in the order the code takes its decisions. */
  lemma AddCases(d: State, k: Key, v: Value, canResize: bool)
    requires Ok(d) && 2 * Size(d) <= SIZE_LIMIT
    ensures var d1 := if IsRehashing(d) then DictOps.RehashStep(d) else d;
      Ok(d1) && 2 * Size(d1) <= SIZE_LIMIT &&
      var (d2, ok) := DictOps.ExpandIfNeeded(d1, canResize);
      && ok && Ok(d2) && d2.ht0.buckets != []
      && (Get(d2, k) != None ==> DictOps.Add(d, k, v, canResize) == (d2, false))
      && (Get(d2, k) == None ==>
          && Target(d2).buckets != [] && TableOk(Target(d2)) && Ok(PushEntry(d2, Entry(k, v)))
          && DictOps.Add(d, k, v, canResize) == (PushEntry(d2, Entry(k, v)), true))
  {
    hide FindIn, Used, Push;
    RehashOk(d, 1);
    var d1 := if IsRehashing(d) then DictOps.RehashStep(d) else d;
    ExpandIfNeededOk(d1, canResize);
    var d2 := DictOps.ExpandIfNeeded(d1, canResize).0;
    if Get(d2, k) == None { PushEntryOk(d2, Entry(k, v)); }
  }

  lemma PushEntryCases(d: State, k: Key, v: Value)
    requires Ok(d) && d.ht0.buckets != [] && Get(d, k) == None
    ensures TableOk(Target(d)) && Target(d).buckets != [] && Ok(PushEntry(d, Entry(k, v)))
    ensures IsRehashing(d) ==> PushEntry(d, Entry(k, v)) == d.(ht1 := Push(d.ht1, Entry(k, v)))
    ensures !IsRehashing(d) ==> PushEntry(d, Entry(k, v)) == d.(ht0 := Push(d.ht0, Entry(k, v)))
    ensures FindIn(d.ht0, k) == None && FindIn(d.ht1, k) == None
  {
    PushEntryOk(d, Entry(k, v));
  }

  lemma FindCases(d: State, k: Key)
    requires Ok(d)
    ensures Size(d) == Used(d.ht0.buckets) + Used(d.ht1.buckets)
    ensures Size(d) == 0 ==> FindOp(d, k) == (d, None)
    ensures Size(d) != 0 ==>
      var d1 := if IsRehashing(d) then DictOps.RehashStep(d) else d;
      Ok(d1) && d1.ht0.buckets != [] && FindOp(d, k) == (d1, Get(d1, k))
  {
    RehashOk(d, 1);
  }

  lemma OverwriteCases(d: State, k: Key, v: Value)
    requires Ok(d) && Get(d, k).Some?
    ensures TableOk(d.ht0) && TableOk(d.ht1)
    ensures FindIn(d.ht0, k).Some? ==> d.ht0.buckets != [] && Overwrite(d, k, v) == d.(ht0 := SetIn(d.ht0, k, v))
    ensures FindIn(d.ht0, k) == None ==>
      FindIn(d.ht1, k).Some? && d.ht1.buckets != [] && Overwrite(d, k, v) == d.(ht1 := SetIn(d.ht1, k, v))
  {
  }

  lemma ReplaceCases(d: State, k: Key, v: Value, canResize: bool)
    requires Ok(d) && 2 * Size(d) <= SIZE_LIMIT
    ensures var (d1, added) := DictOps.Add(d, k, v, canResize);
      && Ok(d1) && d1.iterators == d.iterators
      && (added ==> DictOps.Replace(d, k, v, canResize) == (d1, true))
      && (!added ==>
          && var d2 := FindOp(d1, k).0;
          && Ok(d2) && d2.ht0.buckets != [] && Get(d2, k).Some?
          && DictOps.Replace(d, k, v, canResize) == (Overwrite(d2, k, v), false))
  {
    hide FindIn, Used, Overwrite, DictOps.Add, FindOp;
    AddOk(d, k, v, canResize);
    var (d1, added) := DictOps.Add(d, k, v, canResize);
    if !added {
      FindOk(d1, k);
      GetNeedsTable(FindOp(d1, k).0, k);
    }
  }

  lemma GetNeedsTable(d: State, k: Key)
    requires Ok(d) && Get(d, k).Some?
    ensures d.ht0.buckets != []
  {
  }

  /** The part of dictGenericDelete after the rehashing step. */
  ghost function RemoveKey(d: State, k: Key): (State, bool)
    requires Ok(d) && d.ht0.buckets != []
  {
    if FindIn(d.ht0, k).Some? then (d.(ht0 := RemoveFrom(d.ht0, k)), true)
    else if IsRehashing(d) && FindIn(d.ht1, k).Some? then (d.(ht1 := RemoveFrom(d.ht1, k)), true)
    else (d, false)
  }

  lemma RemoveKeyCases(d: State, k: Key)
    requires Ok(d) && d.ht0.buckets != []
    ensures Ok(RemoveKey(d, k).0)
    ensures FindIn(d.ht0, k).Some? ==> RemoveKey(d, k) == (d.(ht0 := RemoveFrom(d.ht0, k)), true)
    ensures FindIn(d.ht0, k) == None && IsRehashing(d) && FindIn(d.ht1, k).Some? ==>
      RemoveKey(d, k) == (d.(ht1 := RemoveFrom(d.ht1, k)), true)
    ensures FindIn(d.ht0, k) == None && FindIn(d.ht1, k) == None ==> RemoveKey(d, k) == (d, false)
  {
    if Get(d, k).Some? { RemoveEntryOk(d, k); }
  }

  lemma DeleteCases(d: State, k: Key)
    requires Ok(d)
    ensures d.ht0.buckets == [] ==> DictOps.Delete(d, k) == (d, false)
    ensures d.ht0.buckets != [] ==>
      var d1 := if IsRehashing(d) then DictOps.RehashStep(d) else d;
      Ok(d1) && d1.ht0.buckets != [] && DictOps.Delete(d, k) == RemoveKey(d1, k)
  {
    RehashOk(d, 1);
  }

  // ----- scanning

  /** The entries of one bucket, in the order in which fn sees them. */
  method EmitBucket(h: Ht, ghost ch: seq<seq<Node>>, ghost b: seq<Chain>, i: nat) returns (out: Chain)
    requires TableRep(h, ch, b) && i < h.size
    ensures i < |b| && out == b[i]
  {
    assert ChainRep(h.table[i], ch[i], b[i]);
    ghost var c, p := ch[i], 0;
    var de := h.table[i];
    out := [];
    while de != null
      invariant p <= |c| && de == (if p == |c| then null else c[p])
      invariant out == b[i][..p]
      decreases |c| - p
    {
      assert b[i][..p + 1] == b[i][..p] + [Entry(de.key, de.val)];
      out := out + [Entry(de.key, de.val)];
      de, p := de.next, p + 1;
    }
  }

  /** The bucket of the smaller table, then the do-while loop over its expansions in the larger one. */
  method ScanBoth(t0: Ht, ghost ch0: seq<seq<Node>>, ghost b0: seq<Chain>,
      t1: Ht, ghost ch1: seq<seq<Node>>, ghost b1: seq<Chain>, v: nat, ghost k0: nat, ghost k1: nat)
    returns (u: nat, out: Chain)
    requires TableRep(t0, ch0, b0) && TableRep(t1, ch1, b1)
    requires k0 <= k1 <= WIDTH && v < Pow2(WIDTH)
    requires t0.size == |b0| == Pow2(k0) && t1.size == |b1| == Pow2(k1)
    requires t0.sizemask == Ones(k0) && t1.sizemask == Ones(k1)
    ensures And(v, Ones(k0)) < |b0|
    ensures out == b0[And(v, Ones(k0))] + Gathered(b1, v, k0, k1)
    ensures u < Pow2(WIDTH) && Low(u, k0) == Low(v, k0)
  {
    hide TableRep, ChainRep, And, Or, Low, Shr, Shl, Pow2, Ones, Gathered;
    hide ScanCursor.ExpandCursor, ScanCursor.ExpandDone, ScanCursor.ExtraBits;
    var m0, m1 := t0.sizemask, t1.sizemask;
    MaskedInRange(v, k0);
    ghost var nodes := Nodes(ch1);  // all of them allocated before the first call
    out := EmitBucket(t0, ch0, b0, And(v, m0));
    u := v;
    ghost var goal := out + Gathered(b1, v, k0, k1);
    var more := true;
    MaskFits(k0);
    while more
      invariant TableRep(t1, ch1, b1)
      invariant u < Pow2(WIDTH) && Low(u, k0) == Low(v, k0)
      invariant more ==> out + Gathered(b1, u, k0, k1) == goal
      invariant !more ==> out == goal
      decreases more, Pow2(k1 - k0) - ScanCursor.ExtraBits(u, k0, k1)
    {
      GatheredUnfold(b1, u, k0, k1);
      var emitted := EmitBucket(t1, ch1, b1, And(u, m1));
      out := out + emitted;
      u := ScanCursor.ExpandCursor(WIDTH, u, m0);
      more := !ScanCursor.ExpandDone(u, m0, m1);
    }
  }

  ghost predicate InRange(bs: seq<nat>, size: nat) {
    forall i :: 0 <= i < |bs| ==> bs[i] < size
  }

  lemma ExpansionsRange(v: nat, k0: nat, k1: nat)
    requires k0 <= k1 <= WIDTH && v < Pow2(WIDTH)
    ensures InRange(ScanCursor.Expansions(WIDTH, v, k0, k1), Pow2(k1))
  {
    DictScan.ExpansionsInRange(WIDTH, v, k0, k1);
  }

  lemma MaskedInRange(v: nat, k: nat)
    ensures And(v, Ones(k)) < Pow2(k)
  {
    AndOnes(v, k);
    Decompose(v, k);
  }

  lemma MaskFits(k: nat)
    requires k <= WIDTH
    ensures Ones(k) < Pow2(WIDTH)
  {
    Pow2Mono(k, WIDTH);
  }

  /** What the loop over the larger table emits from cursor u on. */
  ghost function Gathered(b: seq<Chain>, u: nat, k0: nat, k1: nat): Chain
    requires k0 <= k1 <= WIDTH && u < Pow2(WIDTH) && |b| == Pow2(k1)
  {
    ExpansionsRange(u, k0, k1);
    DictScan.Gather(Table(b), ScanCursor.Expansions(WIDTH, u, k0, k1))
  }

  lemma GatherOne(t: Table, i: nat)
    requires i < |t.buckets|
    ensures DictScan.Gather(t, [i]) == t.buckets[i]
  {
    assert [i][1..] == [];
  }

  lemma GatheredUnfold(b: seq<Chain>, u: nat, k0: nat, k1: nat)
    requires k0 <= k1 <= WIDTH && u < Pow2(WIDTH) && |b| == Pow2(k1)
    ensures Ones(k0) < Pow2(WIDTH) && And(u, Ones(k1)) < |b|
    ensures var u' := ScanCursor.ExpandCursor(WIDTH, u, Ones(k0));
      && Low(u', k0) == Low(u, k0)
      && (ScanCursor.ExpandDone(u', Ones(k0), Ones(k1)) ==> Gathered(b, u, k0, k1) == b[And(u, Ones(k1))])
      && (!ScanCursor.ExpandDone(u', Ones(k0), Ones(k1)) ==>
          && Gathered(b, u, k0, k1) == b[And(u, Ones(k1))] + Gathered(b, u', k0, k1)
          && ScanCursor.ExtraBits(u, k0, k1) < ScanCursor.ExtraBits(u', k0, k1) < Pow2(k1 - k0))
  {
    hide And, Or, Low, Shr, Shl, Pow2, Ones, ScanCursor.ExpandCursor, ScanCursor.ExpandDone, ScanCursor.ExtraBits;
    MaskFits(k0);
    MaskedInRange(u, k1);
    ScanCursor.ExpandRound(WIDTH, u, k0, k1);
    ExpansionsRange(u, k0, k1);
    var u' := ScanCursor.ExpandCursor(WIDTH, u, Ones(k0));
    if !ScanCursor.ExpandDone(u', Ones(k0), Ones(k1)) {
      ScanCursor.ExpandRound(WIDTH, u', k0, k1);
      ExpansionsRange(u', k0, k1);
      var rest := ScanCursor.Expansions(WIDTH, u', k0, k1);
      assert ([And(u, Ones(k1))] + rest)[1..] == rest;
    } else {
      GatherOne(Table(b), And(u, Ones(k1)));
    }
  }

  /** The cursor handed back: the bits outside the smaller mask are set, then the word counts up in reversed order. */
  method Advance(u: nat, ghost v: nat, m0: nat, ghost k: nat) returns (w: nat)
    requires k <= WIDTH && m0 == Ones(k) && u < Pow2(WIDTH) && v < Pow2(WIDTH) && Low(u, k) == Low(v, k)
    ensures Ones(k) < Pow2(WIDTH) && w == ScanCursor.NextCursor(WIDTH, v, Ones(k))
  {
    assert Pow2(6) == WIDTH;
    hide And, Or, Low, Shr, Shl, Pow2, Ones, Rev, ScanCursor.Inc, ScanCursor.OrWord, Not;
    MaskFits(k);
    ScanCursor.NextCursorLow(WIDTH, u, v, k);
    w := ScanCursor.OrWord(WIDTH, u, Not(WIDTH, m0));
    w := ReverseLoop.ReverseBits(6, w);
    w := ScanCursor.Inc(WIDTH, w);
    w := ReverseLoop.ReverseBits(6, w);
  }

  /** dictScan case by case. */
  lemma ScanCases(d: State, v: nat)
    requires Ok(d) && v < Pow2(WIDTH)
    ensures Size(d) == Used(d.ht0.buckets) + Used(d.ht1.buckets)
    ensures Size(d) == 0 ==> DictScan.Emitted(d, v) == [] && DictScan.Next(d, v) == 0
    ensures Size(d) != 0 ==>
      var (k0, t0) := (DictScan.SmallBits(d), DictScan.Small(d));
      && d.ht0.buckets != [] && k0 <= WIDTH
      && |t0.buckets| == Pow2(k0) && |t0.buckets| - 1 == Ones(k0) < Pow2(WIDTH)
      && DictScan.Next(d, v) == ScanCursor.NextCursor(WIDTH, v, Ones(k0))
      && And(v, Ones(k0)) < |t0.buckets|
      && (!IsRehashing(d) ==> t0 == d.ht0 && DictScan.Emitted(d, v) == t0.buckets[And(v, Ones(k0))])
    ensures Size(d) != 0 && IsRehashing(d) ==>
      var (k0, t0, k1, t1) := (DictScan.SmallBits(d), DictScan.Small(d), DictScan.BigBits(d), DictScan.Big(d));
      && k0 <= k1 <= WIDTH && |t1.buckets| == Pow2(k1) && |t1.buckets| - 1 == Ones(k1)
      && DictScan.Emitted(d, v) == t0.buckets[And(v, Ones(k0))] + Gathered(t1.buckets, v, k0, k1)
      && (t0, t1) == if |d.ht0.buckets| > |d.ht1.buckets| then (d.ht1, d.ht0) else (d.ht0, d.ht1)
  {
    hide Used, FindIn, Get, Lg, ScanCursor.NextCursor, ScanCursor.Expansions, DictScan.Gather, And;
    if Size(d) != 0 {
      DictScan.SizeNeedsTable(d);
      DictScan.TablesOrdered(d);
      MaskFits(DictScan.SmallBits(d));
      MaskedInRange(v, DictScan.SmallBits(d));
      if IsRehashing(d) { ExpansionsRange(v, DictScan.SmallBits(d), DictScan.BigBits(d)); }
    }
  }

  // ----- iterating

  /** A safe dictIterator. */
  class SafeIterator {
    const d: Dict
    var table: nat
    var index: int
    var entry: Node?
    var nextEntry: Node?

    constructor (d: Dict)
      ensures this.d == d && Position() == DictIter.Fresh && nextEntry == null
    {
      this.d := d;
      table, index, entry, nextEntry := 0, -1, null, null;
    }

    /** Where the iterator stands, its entries named by their keys. */
    ghost function Position(): DictIter.Iter
      reads this
    {
      DictIter.Iter(table, index, KeyOf(entry), KeyOf(nextEntry))
    }

    /** The saved next entry is a node of the chain the iterator is in. */
    ghost predicate Valid()
      reads this, d, d.Repr
    {
      && this !in d.Repr && d.Valid()
      && DictIter.Valid(d.st, Position())
      && (index >= 0 ==> entry != null)
      && (nextEntry != null ==> index >= 0 && d.Holds(table, index, nextEntry))
    }

    /** dictNext */
    method Next() returns (e: Node?)
      requires Valid()
      modifies this, d
      ensures d.Valid() && d.Repr == old(d.Repr)
      ensures d.st == old(d.st).(iterators := d.iterators)
      ensures d.iterators == old(d.iterators) + if old(index) == -1 then 1 else 0
      ensures old(DictIter.Valid(d.st, Position()))
      ensures EntryOf(e) == DictIter.Next(old(d.st), old(Position())).1
      ensures e != null ==> Valid() && Position() == DictIter.Next(old(d.st), old(Position())).0
      ensures index >= 0
    {
      hide *;
      Opened();
      ghost var goal := DictIter.Next(d.st, Position());
      ghost var st0 := d.st;
      NextUnfold(d.st, Position());
      if index == -1 && table == 0 {
        d.CountIterator();
        IteratorsIrrelevant(st0, d.st);
      }
      StartWalk(goal);
      while true
        invariant this !in d.Repr && d.Valid() && Ok(d.st)
        invariant d.Repr == old(d.Repr) && d.st == old(d.st).(iterators := d.iterators)
        invariant d.iterators == old(d.iterators) + if old(index) == -1 then 1 else 0
        invariant InWalk(goal)
        invariant entry != null ==> (nextEntry != null ==> d.Holds(table, index, nextEntry))
        decreases entry != null, if table == 0 then 1 else 0, |DictIter.TableOf(d.st, table).buckets| - index
      {
        WalkOpened(goal);
        ghost var rest;
        if entry == null {
          var more := NextBucket(goal);
          if !more { break; }
          rest := DictIter.TableOf(d.st, table).buckets[index];
        } else {
          rest := DictIter.From(DictIter.TableOf(d.st, table).buckets[index], KeyOf(nextEntry));
          d.RestOfChain(table, index, nextEntry);
          entry := nextEntry;
        }
        if entry != null {
          KeepNext(rest, goal);
          return entry;
        }
        WalkClosed(goal, rest);
      }
      NoEntry();
      return null;
    }

    /** dictReleaseIterator: an iterator that was started no longer holds up rehashing. */
    method Release()
      requires this !in d.Repr && d.Valid()
      modifies d
      ensures d.Valid() && d.Repr == old(d.Repr) && d.st == old(d.st).(iterators := d.iterators)
      ensures d.iterators == old(d.iterators) - if index == -1 && table == 0 then 0 else 1
    {
      if !(index == -1 && table == 0) {
        d.iterators := d.iterators - 1;
        d.st := d.st.(iterators := d.iterators);
      }
    }

    /** What is left of the walk from where the iterator is now. */
    ghost predicate InWalk(goal: (DictIter.Iter, Option<Entry>))
      reads this, d
    {
      && table <= 1 && -1 <= index < |DictIter.TableOf(d.st, table).buckets|
      && (index == -1 ==> table == 0 && entry == null)
      && goal == if index == -1 then Start(d.st) else
           DictIter.Walk(d.st, table, index,
             if entry == null then []
             else DictIter.From(DictIter.TableOf(d.st, table).buckets[index], KeyOf(nextEntry)))
    }

    lemma StartWalk(goal: (DictIter.Iter, Option<Entry>))
      requires table <= 1 && -1 <= index < |DictIter.TableOf(d.st, table).buckets|
      requires index == -1 ==> table == 0 && entry == null
      requires index >= 0 ==> entry != null
      requires goal == if index == -1 then Start(d.st) else
        DictIter.Walk(d.st, table, index, DictIter.From(DictIter.TableOf(d.st, table).buckets[index], KeyOf(nextEntry)))
      ensures InWalk(goal)
    {
    }

    lemma WalkOpened(goal: (DictIter.Iter, Option<Entry>))
      requires InWalk(goal)
      ensures table <= 1 && -1 <= index < |DictIter.TableOf(d.st, table).buckets|
      ensures index == -1 ==> table == 0 && entry == null
      ensures entry != null ==>
        goal ==
          DictIter.Walk(d.st, table, index,
            DictIter.From(DictIter.TableOf(d.st, table).buckets[index], KeyOf(nextEntry)))
    {
    }

    lemma WalkClosed(goal: (DictIter.Iter, Option<Entry>), rest: Chain)
      requires table <= 1 && 0 <= index < |DictIter.TableOf(d.st, table).buckets| && index < |d.ChainsOf(table)|
      requires entry == null && d.RestIs(table, index, entry, rest)
      requires goal == DictIter.Walk(d.st, table, index, rest)
      ensures InWalk(goal)
    {
    }

    /** On to the next bucket, and to the second table at the end of the first one while migrating. */
    method NextBucket(ghost goal: (DictIter.Iter, Option<Entry>)) returns (more: bool)
      requires this !in d.Repr && d.Valid() && Ok(d.st)
      requires InWalk(goal) && entry == null
      modifies this
      ensures index >= 0 && (!more ==> goal.1 == None)
      ensures more ==>
        && table <= 1 && 0 <= index < |DictIter.TableOf(d.st, table).buckets| && index < |d.ChainsOf(table)|
        && goal == DictIter.Walk(d.st, table, index, DictIter.TableOf(d.st, table).buckets[index])
        && d.RestIs(table, index, entry, DictIter.TableOf(d.st, table).buckets[index])
        && (old(table) == 0 || table == 1) && (table == old(table) ==> index > old(index))
    {
      hide *;
      InWalkCases(goal);
      d.TableSizes();
      index := index + 1;
      if index >= d.HtOf(table).size {
        EndOfTable(d.st, table, index - 1);
        if d.rehashidx != -1 && table == 0 {
          table, index := 1, 0;
        } else {
          return false;
        }
      } else {
        NextBucketWalk(d.st, table, index - 1);
      }
      d.HeadOfChain(table, index);
      entry := d.HtOf(table).table[index];
      return true;
    }

    lemma InWalkCases(goal: (DictIter.Iter, Option<Entry>))
      requires InWalk(goal) && entry == null
      ensures table <= 1 && -1 <= index < |DictIter.TableOf(d.st, table).buckets|
      ensures index == -1 ==> table == 0
      ensures goal == if index == -1 then Start(d.st) else DictIter.Walk(d.st, table, index, [])
    {
    }

    /** The entry behind the one returned is saved, as that one may be deleted. */
    method KeepNext(ghost rest: Chain, ghost goal: (DictIter.Iter, Option<Entry>))
      requires this !in d.Repr && d.Valid() && Ok(d.st) && entry != null
      requires table <= 1 && 0 <= index < |DictIter.TableOf(d.st, table).buckets| && index < |d.ChainsOf(table)|
      requires d.RestIs(table, index, entry, rest) && goal == DictIter.Walk(d.st, table, index, rest)
      modifies this`nextEntry
      ensures index >= 0 && Valid() && (Position(), EntryOf(entry)) == goal
    {
      hide *;
      d.StepInChain(table, index, entry, rest);
      WalkReturns(d.st, table, index, rest);
      nextEntry := entry.next;
      Close();
    }

    lemma Opened()
      requires Valid()
      ensures this !in d.Repr && d.Valid() && Ok(d.st) && DictIter.Valid(d.st, Position())
      ensures table <= 1 && -1 <= index < |DictIter.TableOf(d.st, table).buckets|
      ensures index == -1 ==> table == 0 && entry == null && nextEntry == null
      ensures index >= 0 ==> entry != null
      ensures nextEntry != null ==> index >= 0 && d.Holds(table, index, nextEntry)
      ensures Position() == DictIter.Iter(table, index, KeyOf(entry), KeyOf(nextEntry))
    {
    }

    lemma Close()
      requires this !in d.Repr && d.Valid() && Ok(d.st)
      requires table <= 1 && 0 <= index < |DictIter.TableOf(d.st, table).buckets|
      requires entry != null && (nextEntry != null ==> d.Holds(table, index, nextEntry))
      ensures Valid() && Position() == DictIter.Iter(table, index, KeyOf(entry), KeyOf(nextEntry))
    {
      if nextEntry != null {
        d.HeldIsFound(table, index, nextEntry);
      }
    }
  }

  // ----- one round of the walk

  ghost function Start(d: State): (DictIter.Iter, Option<Entry>)
  {
    if |d.ht0.buckets| > 0 then DictIter.Walk(d, 0, 0, d.ht0.buckets[0]) else (DictIter.Iter(0, 0, None, None), None)
  }

  lemma NextUnfold(d: State, it: DictIter.Iter)
    requires DictIter.Valid(d, it)
    ensures it.index == -1 ==> DictIter.Next(d, it) == Start(d)
    ensures var c := if it.index >= 0 then DictIter.TableOf(d, it.table).buckets[it.index] else [];
      it.index >= 0 ==> DictIter.Next(d, it) == DictIter.Walk(d, it.table, it.index, DictIter.From(c, it.nextEntry))
  {
  }

  lemma IteratorsIrrelevant(d: State, e: State)
    requires e == d.(iterators := e.iterators)
    ensures Start(d) == Start(e)
  {
    if |d.ht0.buckets| > 0 { WalkIrrelevant(d, e, 0, 0, d.ht0.buckets[0]); }
  }

  lemma {:induction false} WalkIrrelevant(d: State, e: State, t: nat, i: nat, rest: Chain)
    requires e == d.(iterators := e.iterators) && i <= |DictIter.TableOf(d, t).buckets|
    ensures DictIter.Walk(d, t, i, rest) == DictIter.Walk(e, t, i, rest)
    decreases if t == 0 then 1 else 0, |DictIter.TableOf(d, t).buckets| - i
  {
    var b := DictIter.TableOf(d, t).buckets;
    if rest != [] {
    } else if i + 1 < |b| {
      WalkIrrelevant(d, e, t, i + 1, b[i + 1]);
    } else if IsRehashing(d) && t == 0 && d.ht1.buckets != [] {
      WalkIrrelevant(d, e, 1, 0, d.ht1.buckets[0]);
    }
  }

  lemma WalkReturns(d: State, t: nat, i: nat, rest: Chain)
    requires i <= |DictIter.TableOf(d, t).buckets| && rest != []
    ensures DictIter.Walk(d, t, i, rest) ==
      (DictIter.Iter(t, i, Some(rest[0].key), if |rest| > 1 then Some(rest[1].key) else None), Some(rest[0]))
  {
  }

  lemma NextBucketWalk(d: State, t: nat, i: int)
    requires t <= 1 && -1 <= i && i + 1 < |DictIter.TableOf(d, t).buckets| && (i == -1 ==> t == 0)
    ensures var b := DictIter.TableOf(d, t).buckets;
      (if i == -1 then Start(d) else DictIter.Walk(d, t, i, [])) == DictIter.Walk(d, t, i + 1, b[i + 1])
  {
  }

  lemma EndOfTable(d: State, t: nat, i: int)
    requires Ok(d) && t <= 1 && -1 <= i && i + 1 == |DictIter.TableOf(d, t).buckets| && (i == -1 ==> t == 0)
    ensures IsRehashing(d) <==> d.rehashidx != -1
    ensures IsRehashing(d) && t == 0 ==> d.ht1.buckets != [] && i >= 0
    ensures IsRehashing(d) && t == 0 ==> DictIter.Walk(d, t, i, []) == DictIter.Walk(d, 1, 0, d.ht1.buckets[0])
    ensures !(IsRehashing(d) && t == 0) ==> (if i == -1 then Start(d) else DictIter.Walk(d, t, i, [])).1 == None
  {
  }

  /** The node n is the p-th of chain c, and rest are the entries from there on. */
  ghost predicate Suffix(n: Node?, c: seq<Node>, e: Chain, rest: Chain, p: nat) {
    && p <= |c| == |e| && rest == e[p..] && n == (if p < |c| then c[p] else null)
  }

  lemma StepSuffix(head: Node?, c: seq<Node>, e: Chain, rest: Chain, p: nat, n: Node)
    requires ChainRep(head, c, e) && Suffix(n, c, e, rest, p)
    ensures rest != [] && rest[0] == Entry(n.key, n.val) && EntryOf(n) == Some(rest[0]) && KeyOf(n) == Some(n.key)
    ensures n.next != null ==> n.next in c
    ensures KeyOf(n.next) == if |rest| > 1 then Some(rest[1].key) else None
  {
    assert n.next == Succ(c, p);
    if p + 1 < |c| { assert c[p + 1].key == e[p + 1].key == rest[1].key; }
  }

  lemma NoEntry()
    ensures EntryOf(null) == None && KeyOf(null) == None
  {
  }

  ghost function KeyOf(n: Node?): Option<Key> {
    if n == null then None else Some(n.key)
  }

  ghost function EntryOf(n: Node?): Option<Entry>
    reads n
  {
    if n == null then None else Some(Entry(n.key, n.val))
  }
}
