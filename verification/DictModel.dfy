/** The dictionary as a value: two tables of chains, the rehashing index and the number of safe iterators. */
module DictModel {
  import opened Bits

  const WIDTH: nat := 64          // bits of an unsigned long
  const INITIAL_SIZE: nat := 4
  const LONG_MAX: nat := 0x7FFF_FFFF_FFFF_FFFF
  const FORCE_RATIO: nat := 5     // dict_force_resize_ratio
  const NOT_REHASHING: int := -1

  /** A key with the hash its dictType computes for it: keys that compare equal have equal hashes. */
  datatype Key = Key(id: int, hash: nat)
  type Value = int
  datatype Entry = Entry(key: Key, val: Value)
  type Chain = seq<Entry>

  /** A table of |buckets| chains; no buckets at all stands for a null table. */
  datatype Table = Table(buckets: seq<Chain>)

  datatype State = State(ht0: Table, ht1: Table, rehashidx: int, iterators: int)

  datatype Option<T> = None | Some(value: T)

  // ----- tables

  function Lg(size: nat): nat {
    if size <= 1 then 0 else 1 + Lg(size / 2)
  }

  predicate IsSize(size: nat) {
    size == Pow2(Lg(size)) && Lg(size) <= WIDTH
  }

  lemma {:induction false} LgPow2(k: nat)
    ensures Lg(Pow2(k)) == k
  {
    if k > 0 { LgPow2(k - 1); }
  }

  /** The bucket of a key: hash & sizemask. */
  function Index(k: Key, size: nat): (i: nat)
    requires size > 0
  {
    And(k.hash, size - 1)
  }

  lemma IndexInRange(k: Key, size: nat)
    requires IsSize(size)
    ensures size > 0 && Index(k, size) == Low(k.hash, Lg(size)) < size
  {
    AndOnes(k.hash, Lg(size));
    Decompose(k.hash, Lg(size));
  }

  predicate ChainOk(c: Chain, i: nat, size: nat)
    requires size > 0
  {
    && (forall j :: 0 <= j < |c| ==> Index(c[j].key, size) == i)
    && (forall j, k :: 0 <= j < k < |c| ==> c[j].key != c[k].key)
  }

  predicate TableOk(t: Table) {
    t.buckets != [] ==>
      && IsSize(|t.buckets|)
      && forall i :: 0 <= i < |t.buckets| ==> ChainOk(t.buckets[i], i, |t.buckets|)
  }

  function Find(c: Chain, k: Key): Option<Value> {
    if c == [] then None
    else if c[0].key == k then Some(c[0].val)
    else Find(c[1..], k)
  }

  function FindIn(t: Table, k: Key): Option<Value>
    requires TableOk(t)
  {
    if t.buckets == [] then None else
      IndexInRange(k, |t.buckets|);
      Find(t.buckets[Index(k, |t.buckets|)], k)
  }

  /** Number of entries of a table: what `used` counts. */
  function Used(b: seq<Chain>): nat {
    if b == [] then 0 else |b[0]| + Used(b[1..])
  }

  // ----- the dictionary

  predicate IsRehashing(d: State) {
    d.rehashidx != NOT_REHASHING
  }

  ghost predicate Ok(d: State) {
    && TableOk(d.ht0) && TableOk(d.ht1)
    && (!IsRehashing(d) ==> d.ht1.buckets == [])
    && (IsRehashing(d) ==>
        && d.ht0.buckets != [] && d.ht1.buckets != []
        && 0 <= d.rehashidx <= |d.ht0.buckets|
        && forall i :: 0 <= i < d.rehashidx ==> d.ht0.buckets[i] == [])
    && (forall k: Key :: FindIn(d.ht0, k).Some? ==> FindIn(d.ht1, k).None?)
  }

  /** The finite map the dictionary stands for, seen as a lookup. */
  ghost function Get(d: State, k: Key): Option<Value>
    requires Ok(d)
  {
    if FindIn(d.ht0, k).Some? then FindIn(d.ht0, k) else FindIn(d.ht1, k)
  }

  // ----- migrating one bucket

  function Push(t: Table, e: Entry): Table
    requires TableOk(t) && t.buckets != []
  {
    IndexInRange(e.key, |t.buckets|);
    var i := Index(e.key, |t.buckets|);
    Table(t.buckets[i := [e] + t.buckets[i]])
  }

  lemma PushOk(t: Table, e: Entry)
    requires TableOk(t) && t.buckets != [] && FindIn(t, e.key).None?
    ensures TableOk(Push(t, e)) && |Push(t, e).buckets| == |t.buckets|
    ensures forall k :: FindIn(Push(t, e), k) == if k == e.key then Some(e.val) else FindIn(t, k)
    ensures Used(Push(t, e).buckets) == Used(t.buckets) + 1
  {
    IndexInRange(e.key, |t.buckets|);
    var i := Index(e.key, |t.buckets|);
    var c := t.buckets[i];
    NotFound(c, e.key);
    assert ChainOk([e] + c, i, |t.buckets|);
    UsedUpdate(t.buckets, i, [e] + c);
    forall k ensures FindIn(Push(t, e), k) == if k == e.key then Some(e.val) else FindIn(t, k) {
      IndexInRange(k, |t.buckets|);
      assert ([e] + c)[1..] == c;
    }
  }

  lemma {:induction false} NotFound(c: Chain, k: Key)
    ensures Find(c, k).None? <==> forall j :: 0 <= j < |c| ==> c[j].key != k
  {
    if c != [] {
      NotFound(c[1..], k);
      if Find(c[1..], k).None? && c[0].key != k {
        forall j | 0 <= j < |c| ensures c[j].key != k {
          if j > 0 { assert c[j] == c[1..][j - 1]; }
        }
      } else if Find(c[1..], k).Some? && c[0].key != k {
        var j :| 0 <= j < |c[1..]| && c[1..][j].key == k;
        assert c[j + 1].key == k;
      }
    }
  }

  lemma {:induction false} UsedUpdate(b: seq<Chain>, i: nat, c: Chain)
    requires i < |b|
    ensures Used(b[i := c]) == Used(b) - |b[i]| + |c|
  {
    if i == 0 {
      assert b[0 := c][1..] == b[1..];
    } else {
      assert b[i := c][1..] == b[1..][i - 1 := c];
      UsedUpdate(b[1..], i - 1, c);
    }
  }

  /** Push the entries of a chain one by one, the first one first. */
  function MoveChain(c: Chain, t: Table): Table
    requires TableOk(t) && t.buckets != []
    requires MovesInto(c, t)
  {
    if c == [] then t else
      PushOk(t, c[0]);
      TailMovesInto(c, t);
      MoveChain(c[1..], Push(t, c[0]))
  }

  /** The entries of a chain have distinct keys that are new to the table. */
  predicate MovesInto(c: Chain, t: Table)
    requires TableOk(t)
  {
    && (forall j :: 0 <= j < |c| ==> FindIn(t, c[j].key).None?)
    && (forall j, k :: 0 <= j < k < |c| ==> c[j].key != c[k].key)
  }

  lemma TailMovesInto(c: Chain, t: Table)
    requires TableOk(t) && t.buckets != [] && c != [] && MovesInto(c, t)
    ensures TableOk(Push(t, c[0])) && MovesInto(c[1..], Push(t, c[0]))
  {
    PushOk(t, c[0]);
  }

  lemma {:induction false} MoveChainOk(c: Chain, t: Table)
    requires TableOk(t) && t.buckets != [] && MovesInto(c, t)
    ensures TableOk(MoveChain(c, t)) && |MoveChain(c, t).buckets| == |t.buckets|
    ensures Used(MoveChain(c, t).buckets) == Used(t.buckets) + |c|
    ensures forall k :: FindIn(MoveChain(c, t), k) == if Find(c, k).Some? then Find(c, k) else FindIn(t, k)
    decreases |c|
  {
    if c != [] {
      PushOk(t, c[0]);
      TailMovesInto(c, t);
      MoveChainOk(c[1..], Push(t, c[0]));
      NotFound(c[1..], c[0].key);
    }
  }

  /** The entries of bucket rehashidx go to the second table. */
  function MoveBucket(d: State): State
    requires BucketReady(d)
  {
    State(Table(d.ht0.buckets[d.rehashidx := []]), MoveChain(d.ht0.buckets[d.rehashidx], d.ht1), d.rehashidx + 1,
      d.iterators)
  }

  predicate BucketReady(d: State) {
    && TableOk(d.ht1) && d.ht1.buckets != []
    && 0 <= d.rehashidx < |d.ht0.buckets|
    && MovesInto(d.ht0.buckets[d.rehashidx], d.ht1)
  }

  lemma OkBucketReady(d: State)
    requires Ok(d) && IsRehashing(d) && d.rehashidx < |d.ht0.buckets|
    ensures BucketReady(d)
  {
    var c := d.ht0.buckets[d.rehashidx];
    forall j | 0 <= j < |c| ensures FindIn(d.ht1, c[j].key).None? {
      NotFound(c, c[j].key);
      assert Index(c[j].key, |d.ht0.buckets|) == d.rehashidx;
      assert FindIn(d.ht0, c[j].key).Some?;
    }
    assert ChainOk(c, d.rehashidx, |d.ht0.buckets|);
  }

  lemma {:induction false} FindIndex(c: Chain, i: nat, size: nat, k: Key)
    requires size > 0 && ChainOk(c, i, size) && Find(c, k).Some?
    ensures Index(k, size) == i
  {
    NotFound(c, k);
  }

  lemma MoveBucketOk(d: State)
    requires Ok(d) && IsRehashing(d) && d.rehashidx < |d.ht0.buckets|
    ensures BucketReady(d) && Ok(MoveBucket(d))
    ensures forall k :: Get(MoveBucket(d), k) == Get(d, k)
    ensures Used(MoveBucket(d).ht0.buckets) == Used(d.ht0.buckets) - |d.ht0.buckets[d.rehashidx]|
    ensures Used(MoveBucket(d).ht1.buckets) == Used(d.ht1.buckets) + |d.ht0.buckets[d.rehashidx]|
    ensures |MoveBucket(d).ht0.buckets| == |d.ht0.buckets| && |MoveBucket(d).ht1.buckets| == |d.ht1.buckets|
  {
    OkBucketReady(d);
    var i, b := d.rehashidx, d.ht0.buckets;
    MoveChainOk(b[i], d.ht1);
    UsedUpdate(b, i, []);
    var d' := MoveBucket(d);
    assert ChainOk([], i, |b|);
    assert TableOk(d'.ht0);
    forall k: Key ensures FindIn(d'.ht0, k) == (if Find(b[i], k).Some? then None else FindIn(d.ht0, k)) {
      IndexInRange(k, |b|);
      if Find(b[i], k).Some? { FindIndex(b[i], i, |b|, k); }
    }
    forall k: Key ensures FindIn(d'.ht1, k) == if Find(b[i], k).Some? then FindIn(d.ht0, k) else FindIn(d.ht1, k) {
      IndexInRange(k, |b|);
      if Find(b[i], k).Some? { FindIndex(b[i], i, |b|, k); }
    }
  }
}
