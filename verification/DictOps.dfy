/** The operations of the dictionary on values, and what they promise about the map it stands for. */
module DictOps {
  import opened Bits
  import opened DictModel

  // ----- rehashing

  /** Some bucket from i on holds an entry. */
  predicate Pending(b: seq<Chain>, i: nat) {
    exists j :: i <= j < |b| && b[j] != []
  }

  lemma {:induction false} UsedZero(b: seq<Chain>)
    ensures Used(b) == 0 <==> forall i :: 0 <= i < |b| ==> b[i] == []
  {
    if b != [] {
      UsedZero(b[1..]);
      if Used(b) == 0 {
        forall i | 0 <= i < |b| ensures b[i] == [] {
          if i > 0 { assert b[i] == b[1..][i - 1]; }
        }
      } else if b[0] == [] {
        var i :| 0 <= i < |b[1..]| && b[1..][i] != [];
        assert b[i + 1] != [];
      }
    }
  }

  /** The inner loop: the bucket reached and the visits left; no visit left means the step was given up. */
  function Skip(b: seq<Chain>, i: nat, visits: nat): (r: (nat, nat))
    requires Pending(b, i) && visits > 0
    ensures i <= r.0 < |b| && r.1 <= visits
    ensures forall j :: i <= j < r.0 ==> b[j] == []
    ensures r.1 > 0 ==> b[r.0] != []
    ensures r.1 == 0 ==> r.0 == i + visits
    ensures r.1 > 0 ==> r.0 + r.1 == i + visits
    decreases |b| - i
  {
    if b[i] != [] then (i, visits)
    else if visits == 1 then (i + 1, 0)
    else Skip(b, i + 1, visits - 1)
  }

  lemma OkPending(d: State)
    requires Ok(d) && IsRehashing(d) && Used(d.ht0.buckets) != 0
    ensures 0 <= d.rehashidx < |d.ht0.buckets|
    ensures Pending(d.ht0.buckets, d.rehashidx)
  {
    UsedZero(d.ht0.buckets);
  }

  lemma SkipOk(d: State, i: nat)
    requires Ok(d) && IsRehashing(d) && d.rehashidx <= i < |d.ht0.buckets|
    requires forall j :: d.rehashidx <= j < i ==> d.ht0.buckets[j] == []
    ensures Ok(d.(rehashidx := i))
    ensures forall k :: Get(d.(rehashidx := i), k) == Get(d, k)
  {
  }

  /** At most n bucket moves; the flag tells that the visits ran out in the middle of a move. */
  ghost function RehashSteps(d: State, n: nat, visits: nat): (r: (State, bool))
    requires Ok(d) && IsRehashing(d) && (n > 0 ==> visits > 0)
    ensures Ok(r.0) && IsRehashing(r.0)
    decreases n
  {
    if n == 0 || Used(d.ht0.buckets) == 0 then (d, false) else
      OkPending(d);
      var (i, left) := Skip(d.ht0.buckets, d.rehashidx, visits);
      SkipOk(d, i);
      var d1 := d.(rehashidx := i);
      if left == 0 then (d1, true) else
        MoveBucketOk(d1);
        RehashSteps(MoveBucket(d1), n - 1, left)
  }

  /** An emptied first table is dropped and the second one takes its place. */
  function Finish(d: State): State {
    State(d.ht1, Table([]), NOT_REHASHING, d.iterators)
  }

  /** dictRehash: the new state, and whether there is more to migrate. */
  ghost function Rehash(d: State, n: nat): (r: (State, bool))
    requires Ok(d)
  {
    if !IsRehashing(d) then (d, false) else
      var (d1, stopped) := RehashSteps(d, n, 10 * n);
      if !stopped && Used(d1.ht0.buckets) == 0 then (Finish(d1), false) else (d1, true)
  }

  ghost predicate SameMap(d: State, e: State)
    requires Ok(d) && Ok(e)
  {
    && (forall k :: Get(d, k) == Get(e, k))
    && Size(d) == Size(e)
  }

  function Size(d: State): nat {
    Used(d.ht0.buckets) + Used(d.ht1.buckets)
  }

  /** Nothing observable changed and no table was replaced. */
  ghost predicate Unchanged(d: State, e: State)
    requires Ok(d) && Ok(e)
  {
    SameMap(d, e) && SameTables(d, e) && d.iterators == e.iterators
  }

  lemma RehashRound(d: State, i: nat)
    requires Ok(d) && IsRehashing(d) && d.rehashidx <= i < |d.ht0.buckets|
    requires forall j :: d.rehashidx <= j < i ==> d.ht0.buckets[j] == []
    ensures Ok(d.(rehashidx := i)) && Unchanged(d, d.(rehashidx := i))
    ensures BucketReady(d.(rehashidx := i))
    ensures Ok(MoveBucket(d.(rehashidx := i))) && Unchanged(d, MoveBucket(d.(rehashidx := i)))
  {
    hide FindIn;
    SkipOk(d, i);
    MoveBucketOk(d.(rehashidx := i));
  }

  lemma {:induction false} RehashStepsOk(d: State, n: nat, visits: nat)
    requires Ok(d) && IsRehashing(d) && (n > 0 ==> visits > 0)
    ensures Unchanged(d, RehashSteps(d, n, visits).0)
    ensures d.rehashidx <= RehashSteps(d, n, visits).0.rehashidx
    ensures n > 0 && Used(d.ht0.buckets) != 0 ==> d.rehashidx < RehashSteps(d, n, visits).0.rehashidx
    ensures RehashSteps(d, n, visits).1 ==> Used(RehashSteps(d, n, visits).0.ht0.buckets) != 0
    decreases n
  {
    hide Ok, Get, FindIn, Used, MoveChain;
    if n != 0 && Used(d.ht0.buckets) != 0 {
      OkPending(d);
      var (i, left) := Skip(d.ht0.buckets, d.rehashidx, visits);
      RehashRound(d, i);
      if left != 0 {
        var d1 := MoveBucket(d.(rehashidx := i));
        RehashStepsOk(d1, n - 1, left);
      }
    }
  }

  predicate SameTables(d: State, e: State) {
    |d.ht0.buckets| == |e.ht0.buckets| && |d.ht1.buckets| == |e.ht1.buckets|
  }

  lemma EmptyTable(t: Table, k: Key)
    requires TableOk(t) && Used(t.buckets) == 0
    ensures FindIn(t, k) == None
  {
    UsedZero(t.buckets);
    if t.buckets != [] { IndexInRange(k, |t.buckets|); }
  }

  lemma FinishOk(d: State)
    requires Ok(d) && IsRehashing(d) && Used(d.ht0.buckets) == 0
    ensures Ok(Finish(d)) && SameMap(d, Finish(d))
  {
    forall k ensures FindIn(d.ht0, k) == None {
      EmptyTable(d.ht0, k);
    }
    assert forall k :: Get(Finish(d), k) == Get(d, k);
  }

  /** dictRehash changes no lookup, whatever n is; it can only end by making the second table the first. */
  lemma RehashOk(d: State, n: nat)
    requires Ok(d)
    ensures var (r, more) := Rehash(d, n);
      && Ok(r) && SameMap(d, r) && r.iterators == d.iterators
      && more == IsRehashing(r)
      && (more ==> SameTables(d, r) && Used(r.ht0.buckets) != 0)
      && (IsRehashing(d) && !more ==> r.ht0.buckets != [] && |r.ht0.buckets| == |d.ht1.buckets|)
      && (IsRehashing(d) && n > 0 && more ==> d.rehashidx < r.rehashidx)
  {
    if IsRehashing(d) {
      RehashStepsOk(d, n, 10 * n);
      var (d1, stopped) := RehashSteps(d, n, 10 * n);
      if !stopped && Used(d1.ht0.buckets) == 0 { FinishOk(d1); }
    }
  }

  /** _dictRehashStep */
  ghost function RehashStep(d: State): State
    requires Ok(d)
  {
    if d.iterators == 0 then Rehash(d, 1).0 else d
  }

  // ----- expanding

  function PowerFrom(i: nat, size: nat): nat
    requires i > 0
    decreases size - i
  {
    if i >= size then i else PowerFrom(2 * i, size)
  }

  /** _dictNextPower */
  function NextPower(size: nat): nat {
    if size >= LONG_MAX then LONG_MAX else PowerFrom(INITIAL_SIZE, size)
  }

  const SIZE_LIMIT: nat := 0x8000_0000  // _dictKeyIndex returns a bucket index as an int

  lemma {:induction false} PowerFromOk(k: nat, size: nat)
    requires size <= Pow2(63) && k <= 63
    ensures var r := PowerFrom(Pow2(k), size); IsSize(r) && size <= r && Pow2(k) <= r && (r > Pow2(k) ==> r < 2 * size)
    decreases 63 - k
  {
    LgPow2(k);
    if Pow2(k) < size {
      PowerFromOk(k + 1, size);
    }
  }

  lemma Pow2Of63()
    ensures Pow2(63) == LONG_MAX + 1
  {
    assert Pow2(8) == 0x100;
    assert Pow2(16) == 0x1_0000;
    assert Pow2(24) == 0x100_0000;
    assert Pow2(32) == 0x1_0000_0000;
    assert Pow2(40) == 0x100_0000_0000;
    assert Pow2(48) == 0x1_0000_0000_0000;
    assert Pow2(56) == 0x100_0000_0000_0000;
  }

  lemma SaturatedIsNoSize()
    ensures !IsSize(LONG_MAX)
  {
    var k := Lg(LONG_MAX);
    assert k > 0;
    assert Pow2(k) == 2 * Pow2(k - 1);
  }

  /**
   * The least power of two that is at least size and at least the initial size; but above LONG_MAX the result is
   * LONG_MAX, which is no power of two.
   */
  lemma NextPowerOk(size: nat)
    ensures IsSize(NextPower(size)) <==> size < LONG_MAX
    ensures size < LONG_MAX ==> size <= NextPower(size) && INITIAL_SIZE <= NextPower(size)
    ensures size < LONG_MAX && NextPower(size) > INITIAL_SIZE ==> NextPower(size) < 2 * size
    ensures NextPower(size) > 0
  {
    if size >= LONG_MAX {
      SaturatedIsNoSize();
    } else {
      assert Pow2(2) == INITIAL_SIZE;
      Pow2Of63();
      PowerFromOk(2, size);
    }
  }

  function EmptyBuckets(size: nat): (b: seq<Chain>)
    ensures |b| == size && forall i :: 0 <= i < size ==> b[i] == []
  {
    seq(size, _ => [])
  }

  /** dictExpand */
  function Expand(d: State, size: nat): (State, bool) {
    if IsRehashing(d) || Used(d.ht0.buckets) > size then (d, false)
    else if NextPower(size) == |d.ht0.buckets| then (d, false)
    else
      var n := Table(EmptyBuckets(NextPower(size)));
      if d.ht0.buckets == [] then (d.(ht0 := n), true)
      else (d.(ht1 := n, rehashidx := 0), true)
  }

  lemma EmptyBucketsOk(size: nat)
    requires IsSize(size)
    ensures var t := Table(EmptyBuckets(size)); TableOk(t) && Used(t.buckets) == 0 && forall k :: FindIn(t, k) == None
  {
    var t := Table(EmptyBuckets(size));
    UsedZero(t.buckets);
    assert forall i :: 0 <= i < size ==> ChainOk(t.buckets[i], i, size);
    forall k ensures FindIn(t, k) == None { EmptyTable(t, k); }
  }

  /** The result is well-formed unless a table of the saturated size is made. */
  lemma ExpandOk(d: State, size: nat)
    requires Ok(d)
    ensures var (r, ok) := Expand(d, size);
      && (Ok(r) <==> !ok || size < LONG_MAX)
      && (Ok(r) ==> SameMap(d, r)) && r.iterators == d.iterators
      && (!ok ==> r == d)
      && (ok <==> !IsRehashing(d) && Used(d.ht0.buckets) <= size && NextPower(size) != |d.ht0.buckets|)
      && (ok ==> (IsRehashing(r) <==> d.ht0.buckets != []))
      && (ok ==> |(if IsRehashing(r) then r.ht1 else r.ht0).buckets| == NextPower(size))
  {
    NextPowerOk(size);
    if size < LONG_MAX { EmptyBucketsOk(NextPower(size)); }
  }

  /** _dictExpandIfNeeded */
  function ExpandIfNeeded(d: State, canResize: bool): (State, bool) {
    var used, size := Used(d.ht0.buckets), |d.ht0.buckets|;
    if IsRehashing(d) then (d, true)
    else if size == 0 then Expand(d, INITIAL_SIZE)
    else if used >= size && (canResize || used / size > FORCE_RATIO) then Expand(d, used * 2)
    else (d, true)
  }

  /** The implicit expansion never fails. */
  lemma ExpandIfNeededOk(d: State, canResize: bool)
    requires Ok(d) && 2 * Used(d.ht0.buckets) <= SIZE_LIMIT
    ensures var (r, ok) := ExpandIfNeeded(d, canResize);
      && ok && Ok(r) && SameMap(d, r) && r.iterators == d.iterators
      && r.ht0.buckets != []
  {
    ExpandOk(d, INITIAL_SIZE);
    ExpandOk(d, Used(d.ht0.buckets) * 2);
    NextPowerOk(Used(d.ht0.buckets) * 2);
    NextPowerOk(INITIAL_SIZE);
  }

  // ----- adding, finding, replacing, deleting

  /** The table new entries go to. */
  function Target(d: State): Table {
    if IsRehashing(d) then d.ht1 else d.ht0
  }

  function PushEntry(d: State, e: Entry): State
    requires TableOk(Target(d)) && Target(d).buckets != []
  {
    if IsRehashing(d) then d.(ht1 := Push(d.ht1, e)) else d.(ht0 := Push(d.ht0, e))
  }

  lemma PushEntryOk(d: State, e: Entry)
    requires Ok(d) && d.ht0.buckets != [] && Get(d, e.key) == None
    ensures Target(d).buckets != [] && Ok(PushEntry(d, e))
    ensures forall k :: Get(PushEntry(d, e), k) == if k == e.key then Some(e.val) else Get(d, k)
    ensures Size(PushEntry(d, e)) == Size(d) + 1
    ensures SameTables(d, PushEntry(d, e))
  {
    PushOk(Target(d), e);
  }

  /** dictAdd: the new state, and whether the key was added. */
  ghost function Add(d: State, k: Key, v: Value, canResize: bool): (State, bool)
    requires Ok(d) && 2 * Size(d) <= SIZE_LIMIT
  {
    var d1 := if IsRehashing(d) then RehashStep(d) else d;
    RehashOk(d, 1);
    var (d2, ok) := ExpandIfNeeded(d1, canResize);
    ExpandIfNeededOk(d1, canResize);
    if !ok || Get(d2, k).Some? then (d2, false) else
      PushEntryOk(d2, Entry(k, v));
      (PushEntry(d2, Entry(k, v)), true)
  }

  /** dictAdd succeeds exactly when the key is absent, and then changes the map at that key only. */
  lemma AddOk(d: State, k: Key, v: Value, canResize: bool)
    requires Ok(d) && 2 * Size(d) <= SIZE_LIMIT
    ensures var (r, added) := Add(d, k, v, canResize);
      && Ok(r) && r.iterators == d.iterators
      && (added <==> Get(d, k) == None)
      && (forall x :: Get(r, x) == if added && x == k then Some(v) else Get(d, x))
      && Size(r) == Size(d) + (if added then 1 else 0)
  {
    hide FindIn, Used;
    var d1 := if IsRehashing(d) then RehashStep(d) else d;
    RehashOk(d, 1);
    var (d2, ok) := ExpandIfNeeded(d1, canResize);
    ExpandIfNeededOk(d1, canResize);
    if Get(d2, k) == None { PushEntryOk(d2, Entry(k, v)); }
  }

  /** dictFind */
  ghost function FindOp(d: State, k: Key): (State, Option<Value>)
    requires Ok(d)
  {
    if Size(d) == 0 then (d, None) else
      var d1 := if IsRehashing(d) then RehashStep(d) else d;
      RehashOk(d, 1);
      (d1, Get(d1, k))
  }

  lemma FindOk(d: State, k: Key)
    requires Ok(d)
    ensures Ok(FindOp(d, k).0) && SameMap(d, FindOp(d, k).0) && FindOp(d, k).0.iterators == d.iterators
    ensures FindOp(d, k).1 == Get(d, k)
  {
    RehashOk(d, 1);
    if Size(d) == 0 {
      EmptyTable(d.ht0, k);
      EmptyTable(d.ht1, k);
    }
  }

  /** A chain without its first entry for the key. */
  function Remove(c: Chain, k: Key): (r: Chain)
    ensures Find(c, k) == None ==> r == c
    ensures Find(c, k).Some? ==> |r| == |c| - 1
  {
    if c == [] then [] else if c[0].key == k then c[1..] else
      assert [c[0]] + c[1..] == c;
      [c[0]] + Remove(c[1..], k)
  }

  lemma {:induction false} RemoveSplit(c: Chain, k: Key) returns (p: nat)
    requires Find(c, k).Some?
    ensures p < |c| && c[p].key == k && Remove(c, k) == c[..p] + c[p + 1..]
  {
    if c[0].key == k {
      p := 0;
    } else {
      var q := RemoveSplit(c[1..], k);
      p := q + 1;
      assert c[..p] == [c[0]] + c[1..][..q];
    }
  }

  lemma RemoveOk(c: Chain, k: Key, i: nat, size: nat)
    requires size > 0 && ChainOk(c, i, size) && Find(c, k).Some?
    ensures ChainOk(Remove(c, k), i, size)
    ensures forall x :: Find(Remove(c, k), x) == if x == k then None else Find(c, x)
  {
    var p := RemoveSplit(c, k);
    forall x ensures Find(Remove(c, k), x) == if x == k then None else Find(c, x) {
      RemoveFind(c, k, x);
      if x == k { NotFound(c[..p] + c[p + 1..], k); }
    }
  }

  lemma {:induction false} RemoveFind(c: Chain, k: Key, x: Key)
    ensures x != k ==> Find(Remove(c, k), x) == Find(c, x)
  {
    if c != [] && c[0].key != k { RemoveFind(c[1..], k, x); }
  }

  function RemoveFrom(t: Table, k: Key): Table
    requires TableOk(t) && t.buckets != []
  {
    IndexInRange(k, |t.buckets|);
    var i := Index(k, |t.buckets|);
    Table(t.buckets[i := Remove(t.buckets[i], k)])
  }

  lemma RemoveFromOk(t: Table, k: Key)
    requires TableOk(t) && t.buckets != [] && FindIn(t, k).Some?
    ensures TableOk(RemoveFrom(t, k)) && |RemoveFrom(t, k).buckets| == |t.buckets|
    ensures forall x :: FindIn(RemoveFrom(t, k), x) == if x == k then None else FindIn(t, x)
    ensures Used(RemoveFrom(t, k).buckets) == Used(t.buckets) - 1
  {
    IndexInRange(k, |t.buckets|);
    var i := Index(k, |t.buckets|);
    var c := t.buckets[i];
    RemoveOk(c, k, i, |t.buckets|);
    UsedUpdate(t.buckets, i, Remove(c, k));
    forall x ensures FindIn(RemoveFrom(t, k), x) == if x == k then None else FindIn(t, x) {
      IndexInRange(x, |t.buckets|);
    }
  }

  /** dictGenericDelete: the new state, and whether the key was there. */
  ghost function Delete(d: State, k: Key): (State, bool)
    requires Ok(d)
  {
    if d.ht0.buckets == [] then (d, false) else
      var d1 := if IsRehashing(d) then RehashStep(d) else d;
      RehashOk(d, 1);
      if FindIn(d1.ht0, k).Some? then (d1.(ht0 := RemoveFrom(d1.ht0, k)), true)
      else if IsRehashing(d1) && FindIn(d1.ht1, k).Some? then (d1.(ht1 := RemoveFrom(d1.ht1, k)), true)
      else (d1, false)
  }

  lemma RemoveEntryOk(d: State, k: Key)
    requires Ok(d) && d.ht0.buckets != [] && Get(d, k).Some?
    ensures
      var r := if FindIn(d.ht0, k).Some? then d.(ht0 := RemoveFrom(d.ht0, k)) else d.(ht1 := RemoveFrom(d.ht1, k));
      && Ok(r) && SameTables(d, r) && Size(r) == Size(d) - 1
      && (forall x :: Get(r, x) == if x == k then None else Get(d, x))
  {
    if FindIn(d.ht0, k).Some? {
      RemoveFromOk(d.ht0, k);
      if IsRehashing(d) {
        IndexInRange(k, |d.ht0.buckets|);
        assert Index(k, |d.ht0.buckets|) >= d.rehashidx;
      }
    } else {
      RemoveFromOk(d.ht1, k);
    }
  }

  /** dictDelete succeeds exactly when the key is present, and then changes the map at that key only. */
  lemma DeleteOk(d: State, k: Key)
    requires Ok(d)
    ensures var (r, deleted) := Delete(d, k);
      && Ok(r) && r.iterators == d.iterators
      && (deleted <==> Get(d, k).Some?)
      && (forall x :: Get(r, x) == if x == k then None else Get(d, x))
      && Size(r) == Size(d) - (if deleted then 1 else 0)
  {
    if d.ht0.buckets != [] {
      var d1 := if IsRehashing(d) then RehashStep(d) else d;
      RehashOk(d, 1);
      if Get(d1, k).Some? { RemoveEntryOk(d1, k); }
    } else {
      EmptyTable(d.ht0, k);
    }
  }

  /** A chain with the value of its first entry for the key replaced. */
  function SetVal(c: Chain, k: Key, v: Value): Chain {
    if c == [] then [] else if c[0].key == k then [Entry(k, v)] + c[1..] else [c[0]] + SetVal(c[1..], k, v)
  }

  lemma {:induction false} SetValOk(c: Chain, k: Key, v: Value)
    ensures |SetVal(c, k, v)| == |c|
    ensures forall j :: 0 <= j < |c| ==> SetVal(c, k, v)[j].key == c[j].key
    ensures forall x :: Find(SetVal(c, k, v), x) == if x == k && Find(c, k).Some? then Some(v) else Find(c, x)
  {
    if c != [] && c[0].key != k { SetValOk(c[1..], k, v); }
  }

  function SetIn(t: Table, k: Key, v: Value): Table
    requires TableOk(t) && t.buckets != []
  {
    IndexInRange(k, |t.buckets|);
    var i := Index(k, |t.buckets|);
    Table(t.buckets[i := SetVal(t.buckets[i], k, v)])
  }

  lemma SetInOk(t: Table, k: Key, v: Value)
    requires TableOk(t) && t.buckets != [] && FindIn(t, k).Some?
    ensures TableOk(SetIn(t, k, v)) && |SetIn(t, k, v).buckets| == |t.buckets|
    ensures forall x :: FindIn(SetIn(t, k, v), x) == if x == k then Some(v) else FindIn(t, x)
    ensures Used(SetIn(t, k, v).buckets) == Used(t.buckets)
  {
    IndexInRange(k, |t.buckets|);
    var i := Index(k, |t.buckets|);
    SetValOk(t.buckets[i], k, v);
    UsedUpdate(t.buckets, i, SetVal(t.buckets[i], k, v));
    assert ChainOk(SetVal(t.buckets[i], k, v), i, |t.buckets|);
    forall x ensures FindIn(SetIn(t, k, v), x) == if x == k then Some(v) else FindIn(t, x) {
      IndexInRange(x, |t.buckets|);
    }
  }

  /** The value of a present entry is overwritten where it is. */
  ghost function Overwrite(d: State, k: Key, v: Value): State
    requires Ok(d) && Get(d, k).Some?
  {
    if FindIn(d.ht0, k).Some? then d.(ht0 := SetIn(d.ht0, k, v)) else d.(ht1 := SetIn(d.ht1, k, v))
  }

  lemma OverwriteOk(d: State, k: Key, v: Value)
    requires Ok(d) && Get(d, k).Some?
    ensures Ok(Overwrite(d, k, v)) && Size(Overwrite(d, k, v)) == Size(d)
    ensures SameTables(d, Overwrite(d, k, v)) && Overwrite(d, k, v).rehashidx == d.rehashidx
    ensures Overwrite(d, k, v).iterators == d.iterators
    ensures forall x :: Get(Overwrite(d, k, v), x) == if x == k then Some(v) else Get(d, x)
  {
    if FindIn(d.ht0, k).Some? {
      SetInOk(d.ht0, k, v);
      if IsRehashing(d) { IndexInRange(k, |d.ht0.buckets|); }
    } else {
      SetInOk(d.ht1, k, v);
    }
  }

  /** dictReplace: the new state, and whether the key was new. */
  ghost function Replace(d: State, k: Key, v: Value, canResize: bool): (State, bool)
    requires Ok(d) && 2 * Size(d) <= SIZE_LIMIT
  {
    var (d1, added) := Add(d, k, v, canResize);
    AddOk(d, k, v, canResize);
    if added then (d1, true) else
      FindOk(d1, k);
      (Overwrite(FindOp(d1, k).0, k, v), false)
  }

  /** dictReplace always leaves the key with the new value: the entry it dereferences after a failed add exists. */
  lemma ReplaceOk(d: State, k: Key, v: Value, canResize: bool)
    requires Ok(d) && 2 * Size(d) <= SIZE_LIMIT
    ensures var (r, added) := Replace(d, k, v, canResize);
      && Ok(r) && r.iterators == d.iterators && (added <==> Get(d, k) == None)
      && (forall x :: Get(r, x) == if x == k then Some(v) else Get(d, x))
      && Size(r) == Size(d) + (if added then 1 else 0)
  {
    hide FindIn, Used, Add, FindOp, Overwrite;
    var (d1, added) := Add(d, k, v, canResize);
    AddOk(d, k, v, canResize);
    if !added {
      FindOk(d1, k);
      OverwriteOk(FindOp(d1, k).0, k, v);
    }
  }

  // ----- size is the number of keys

  ghost function ChainKeys(c: Chain): set<Key> {
    set j | 0 <= j < |c| :: c[j].key
  }

  ghost function TableKeys(b: seq<Chain>): set<Key> {
    set i, j | 0 <= i < |b| && 0 <= j < |b[i]| :: b[i][j].key
  }

  lemma {:induction false} ChainKeysCount(c: Chain)
    requires forall j, k :: 0 <= j < k < |c| ==> c[j].key != c[k].key
    ensures |ChainKeys(c)| == |c|
  {
    if c != [] {
      var r := c[..|c| - 1];
      ChainKeysCount(r);
      assert ChainKeys(c) == ChainKeys(r) + {c[|c| - 1].key};
    }
  }

  predicate KeysDistinct(b: seq<Chain>) {
    forall i: nat, j: nat, p: nat, q: nat ::
      i < |b| && j < |b[i]| && p < |b| && q < |b[p]| && (i != p || j != q) ==> b[i][j].key != b[p][q].key
  }

  /** Entries of a table whose keys are pairwise distinct are as many as the keys. */
  lemma {:induction false} TableKeysCount(b: seq<Chain>)
    requires KeysDistinct(b)
    ensures |TableKeys(b)| == Used(b)
  {
    if b != [] {
      var t := b[1..];
      assert KeysDistinct(t) by {
        assert forall i :: 0 <= i < |t| ==> t[i] == b[i + 1];
      }
      TableKeysCount(t);
      ChainKeysCount(b[0]);
      TableKeysSplit(b);
      KeysApart(b);
    }
  }

  lemma KeysApart(b: seq<Chain>)
    requires KeysDistinct(b) && b != []
    ensures ChainKeys(b[0]) !! TableKeys(b[1..])
  {
    var t := b[1..];
    forall x | x in ChainKeys(b[0]) ensures x !in TableKeys(t) {
      var j: nat :| j < |b[0]| && b[0][j].key == x;
      forall p: nat, q: nat | p < |t| && q < |t[p]| ensures t[p][q].key != x {
        assert t[p] == b[p + 1];
      }
    }
  }

  lemma TableKeysSplit(b: seq<Chain>)
    requires b != []
    ensures TableKeys(b) == ChainKeys(b[0]) + TableKeys(b[1..])
  {
    forall x | x in TableKeys(b) ensures x in ChainKeys(b[0]) + TableKeys(b[1..]) {
      var i, j :| 0 <= i < |b| && 0 <= j < |b[i]| && b[i][j].key == x;
      if i > 0 { assert b[1..][i - 1] == b[i]; }
    }
    forall x | x in TableKeys(b[1..]) ensures x in TableKeys(b) {
      var i, j :| 0 <= i < |b[1..]| && 0 <= j < |b[1..][i]| && b[1..][i][j].key == x;
      assert b[i + 1] == b[1..][i];
    }
  }

  lemma TableKeysFound(t: Table, k: Key)
    requires TableOk(t)
    ensures k in TableKeys(t.buckets) <==> FindIn(t, k).Some?
  {
    if t.buckets != [] {
      IndexInRange(k, |t.buckets|);
      var i := Index(k, |t.buckets|);
      NotFound(t.buckets[i], k);
      if k in TableKeys(t.buckets) {
        var i', j :| 0 <= i' < |t.buckets| && 0 <= j < |t.buckets[i']| && t.buckets[i'][j].key == k;
        assert ChainOk(t.buckets[i'], i', |t.buckets|);
      }
    }
  }

  /** The finite map a dictionary stands for. */
  ghost function Contents(d: State): map<Key, Value>
    requires Ok(d)
  {
    map k | k in TableKeys(d.ht0.buckets) + TableKeys(d.ht1.buckets) && Get(d, k).Some? :: Get(d, k).value
  }

  /** A lookup is a lookup in that map, and the two `used` counts add up to its number of keys. */
  lemma ContentsOk(d: State)
    requires Ok(d)
    ensures forall k :: Get(d, k) == if k in Contents(d) then Some(Contents(d)[k]) else None
    ensures |Contents(d)| == Size(d)
  {
    var K0, K1 := TableKeys(d.ht0.buckets), TableKeys(d.ht1.buckets);
    forall k ensures k in K0 <==> FindIn(d.ht0, k).Some? { TableKeysFound(d.ht0, k); }
    forall k ensures k in K1 <==> FindIn(d.ht1, k).Some? { TableKeysFound(d.ht1, k); }
    assert K0 !! K1;
    assert Contents(d).Keys == K0 + K1;
    DistinctKeys(d.ht0);
    DistinctKeys(d.ht1);
    TableKeysCount(d.ht0.buckets);
    TableKeysCount(d.ht1.buckets);
  }

  lemma DistinctKeys(t: Table)
    requires TableOk(t)
    ensures KeysDistinct(t.buckets)
  {
    var b: seq<Chain> := t.buckets;
    forall i: nat, j: nat, p: nat, q: nat | i < |b| && j < |b[i]| && p < |b| && q < |b[p]| && (i != p || j != q)
      ensures b[i][j].key != b[p][q].key
    {
      assert ChainOk(b[i], i, |b|) && ChainOk(b[p], p, |b|);
    }
  }
}
