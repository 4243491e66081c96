/** Exactly what one call of dictScan passes to fn, and how often. */
module DictEmit {
  import opened Bits
  import opened DictModel
  import opened DictOps
  import opened ScanCursor
  import opened DictScan

  lemma {:induction false} ChainCount(c: Chain, k: Key, x: Value)
    requires forall i, j :: 0 <= i < j < |c| ==> c[i].key != c[j].key
    ensures multiset(c)[Entry(k, x)] == if Find(c, k) == Some(x) then 1 else 0
  {
    if c != [] {
      ChainCount(c[1..], k, x);
      assert c == [c[0]] + c[1..];
      if c[0].key == k { NotIn(c[1..], k); }
    }
  }

  lemma {:induction false} NotIn(c: Chain, k: Key)
    requires forall j :: 0 <= j < |c| ==> c[j].key != k
    ensures Find(c, k) == None
  {
    if c != [] { NotIn(c[1..], k); }
  }

  lemma TableCount(t: Table, j: nat, k: Key, x: Value)
    requires TableOk(t) && j < |t.buckets|
    ensures multiset(t.buckets[j])[Entry(k, x)] ==
        if Index(k, |t.buckets|) == j && FindIn(t, k) == Some(x) then 1 else 0
  {
    var c := t.buckets[j];
    assert ChainOk(c, j, |t.buckets|);
    if Index(k, |t.buckets|) == j {
      ChainCount(c, k, x);
    } else {
      assert forall i :: 0 <= i < |c| ==> c[i] != Entry(k, x);
    }
  }

  lemma {:induction false} GatherCount(t: Table, bs: seq<nat>, k: Key, x: Value)
    requires TableOk(t) && t.buckets != [] && (forall i :: 0 <= i < |bs| ==> bs[i] < |t.buckets|)
    requires forall i, j :: 0 <= i < j < |bs| ==> bs[i] != bs[j]
    ensures multiset(Gather(t, bs))[Entry(k, x)] ==
        if Index(k, |t.buckets|) in bs && FindIn(t, k) == Some(x) then 1 else 0
  {
    if bs != [] {
      GatherCount(t, bs[1..], k, x);
      TableCount(t, bs[0], k, x);
      hide TableOk, FindIn, Index;
      assert multiset(Gather(t, bs)) == multiset(t.buckets[bs[0]]) + multiset(Gather(t, bs[1..]));
    }
  }

  /** The loop visits no bucket twice. */
  lemma {:induction false} ExpansionsDistinct(n: nat, u: nat, k0: nat, k1: nat)
    requires k0 <= k1 <= n && u < Pow2(n)
    ensures forall i, j :: 0 <= i < j < |Expansions(n, u, k0, k1)| ==>
        Expansions(n, u, k0, k1)[i] != Expansions(n, u, k0, k1)[j]
    decreases Pow2(k1 - k0) - ExtraBits(u, k0, k1)
  {
    hide Rev, Shl, Shr, Low, Ones, HighMask, Or, And, Pow2, Xor, ExpandCursor, ExpandDone, ExtraBits;
    MaskBound(k0, n);
    ExpandRound(n, u, k0, k1);
    var u' := ExpandCursor(n, u, Ones(k0));
    if !ExpandDone(u', Ones(k0), Ones(k1)) {
      ExpandRound(n, u', k0, k1);
      ExpansionsDistinct(n, u', k0, k1);
      AndOnes(u, k1);
      Decompose(u, k1);
      BucketParts(Low(u, k1), u, k0, k1);
      ExpansionsExact(n, u', k0, k1, Low(u, k1));
    }
  }

  /** The bucket of a present key is among those the call visits. */
  ghost predicate Visited(d: State, v: nat, k: Key)
    requires Ok(d) && Get(d, k).Some?
  {
    PresentMeansSize(d, k);
    SizeNeedsTable(d);
    TablesOrdered(d);
    && Low(k.hash, SmallBits(d)) == Low(v, SmallBits(d))
    && (FindIn(Small(d), k).Some? ||
        ExtraBits(v, SmallBits(d), BigBits(d)) <= ExtraBits(k.hash, SmallBits(d), BigBits(d)))
  }

  lemma SmallCount(d: State, v: nat, k: Key, x: Value)
    requires Ok(d) && v < Pow2(WIDTH) && d.ht0.buckets != []
    ensures TableOk(Small(d)) && Low(v, SmallBits(d)) < |Small(d).buckets|
    ensures multiset(Small(d).buckets[Low(v, SmallBits(d))])[Entry(k, x)] ==
        if Low(k.hash, SmallBits(d)) == Low(v, SmallBits(d)) && FindIn(Small(d), k) == Some(x) then 1 else 0
  {
    TablesOrdered(d);
    Decompose(v, SmallBits(d));
    IndexInRange(k, |Small(d).buckets|);
    TableCount(Small(d), Low(v, SmallBits(d)), k, x);
  }

  lemma BigCount(d: State, v: nat, k: Key, x: Value)
    requires Ok(d) && v < Pow2(WIDTH) && IsRehashing(d)
    ensures TableOk(Big(d)) && SmallBits(d) <= BigBits(d) <= WIDTH
    ensures var bs := Expansions(WIDTH, v, SmallBits(d), BigBits(d));
      && (forall i :: 0 <= i < |bs| ==> bs[i] < |Big(d).buckets|)
      && multiset(Gather(Big(d), bs))[Entry(k, x)] ==
           if Low(k.hash, SmallBits(d)) == Low(v, SmallBits(d)) && FindIn(Big(d), k) == Some(x)
             && ExtraBits(v, SmallBits(d), BigBits(d)) <= ExtraBits(k.hash, SmallBits(d), BigBits(d)) then 1 else 0
  {
    TablesOrdered(d);
    var k0, k1 := SmallBits(d), BigBits(d);
    hide ExtraBits, Expansions, Low, And, Ones, Gather, FindIn;
    ExpansionsInRange(WIDTH, v, k0, k1);
    ExpansionsDistinct(WIDTH, v, k0, k1);
    IndexInRange(k, |Big(d).buckets|);
    LowBucket(k.hash, k0, k1);
    ExpansionsExact(WIDTH, v, k0, k1, Low(k.hash, k1));
    GatherCount(Big(d), Expansions(WIDTH, v, k0, k1), k, x);
  }

  /**
   * A call passes exactly the present entries whose buckets it visits, each of them once; while rehashing it visits the
   * cursor's bucket of the smaller table, and of the larger table the expansions that are not below the cursor.
   */
  lemma EmittedExactly(d: State, v: nat, k: Key, x: Value)
    requires Ok(d) && v < Pow2(WIDTH)
    ensures multiset(Emitted(d, v))[Entry(k, x)] == if Get(d, k) == Some(x) && Visited(d, v, k) then 1 else 0
  {
    if Get(d, k).Some? { PresentMeansSize(d, k); }
    if Size(d) != 0 {
      SizeNeedsTable(d);
      TablesOrdered(d);
      SmallCount(d, v, k, x);
      if IsRehashing(d) { BigCount(d, v, k, x); }
      EmittedIs(d, v);
      FoundWhere(d, k);
      hide Emitted, Low, ExtraBits, Expansions, Gather, FindIn, TableOk, Lg, Ok, Get;
    }
  }

  lemma EmittedIs(d: State, v: nat)
    requires Ok(d) && v < Pow2(WIDTH) && Size(d) != 0
    ensures TableOk(Small(d)) && Low(v, SmallBits(d)) < |Small(d).buckets|
    ensures !IsRehashing(d) ==> Emitted(d, v) == Small(d).buckets[Low(v, SmallBits(d))] + []
    ensures IsRehashing(d) ==>
      && SmallBits(d) <= BigBits(d) <= WIDTH
      && var bs := Expansions(WIDTH, v, SmallBits(d), BigBits(d));
      && (forall i :: 0 <= i < |bs| ==> bs[i] < |Big(d).buckets|)
      && Emitted(d, v) == Small(d).buckets[Low(v, SmallBits(d))] + Gather(Big(d), bs)
  {
    hide And, Low, Ones, ExtraBits, Expansions, Gather, Lg, FindIn, Pow2;
    SizeNeedsTable(d);
    TablesOrdered(d);
    AndOnes(v, SmallBits(d));
    Decompose(v, SmallBits(d));
    if IsRehashing(d) { ExpansionsInRange(WIDTH, v, SmallBits(d), BigBits(d)); }
  }

  lemma FoundWhere(d: State, k: Key)
    requires Ok(d)
    ensures TableOk(Small(d)) && TableOk(Big(d)) && (FindIn(Small(d), k).None? || FindIn(Big(d), k).None?)
    ensures Get(d, k) == if FindIn(Small(d), k).Some? then FindIn(Small(d), k) else FindIn(Big(d), k)
    ensures !IsRehashing(d) ==> FindIn(Big(d), k).None?
  {
  }

  /** An empty dictionary ends the scan at once. */
  lemma EmptyScan(d: State, v: nat)
    requires Ok(d) && v < Pow2(WIDTH) && Size(d) == 0
    ensures Emitted(d, v) == [] && Next(d, v) == 0
  {
  }

  /** A scan of a dictionary that does not change passes every entry in exactly one of its calls, and there once. */
  lemma StaticScanPassesOnce(d: State, run: seq<State>, cur: seq<nat>, k: Key) returns (i: nat)
    requires ScanFrom0(run, cur) && run != [] && cur[|run|] == 0 && forall j :: 0 <= j < |run| ==> run[j] == d
    requires Ok(d) && !IsRehashing(d) && Get(d, k).Some?
    ensures i < |run| && |cur| == |run| + 1
    ensures forall j :: 0 <= j < |run| ==>
      && cur[j] < Pow2(WIDTH)
      && multiset(Emitted(d, cur[j]))[Entry(k, Get(d, k).value)] == if j == i then 1 else 0
  {
    PresentMeansSize(d, k);
    SizeNeedsTable(d);
    TablesOrdered(d);
    var n := |d.ht0.buckets|;
    IndexInRange(k, n);
    var b := Index(k, n);
    StaticScanVisitsOnce(d, run, cur, b);
    ScanWords(run, cur);
    hide Low, ExtraBits, Expansions, FindIn, Ok, Emitted, Index, ScanFrom0, And, TableOk, Used;
    i :| 0 <= i < |run| && And(cur[i], n - 1) == b;
    forall j | 0 <= j < |run|
      ensures multiset(Emitted(d, cur[j]))[Entry(k, Get(d, k).value)] == if j == i then 1 else 0
    {
      OneTable(d, cur[j], k);
    }
  }

  lemma ScanWords(run: seq<State>, cur: seq<nat>)
    requires ScanFrom0(run, cur)
    ensures |cur| == |run| + 1 && forall j :: 0 <= j < |run| ==> cur[j] < Pow2(WIDTH)
  {
  }

  lemma OneTable(d: State, v: nat, k: Key)
    requires Ok(d) && !IsRehashing(d) && Get(d, k).Some? && v < Pow2(WIDTH) && d.ht0.buckets != []
    ensures multiset(Emitted(d, v))[Entry(k, Get(d, k).value)] ==
        if And(v, |d.ht0.buckets| - 1) == Index(k, |d.ht0.buckets|) then 1 else 0
  {
    TablesOrdered(d);
    IndexInRange(k, |d.ht0.buckets|);
    AndOnes(v, SmallBits(d));
    EmittedExactly(d, v, k, Get(d, k).value);
  }
}
