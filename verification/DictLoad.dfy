/** How full the tables get, when a migration starts, and when it ends. */
module DictLoad {
  import opened Bits
  import opened DictModel
  import opened DictOps
  import opened DictScan

  // ----- when a table is made, and of which size

  lemma FourBuckets(d: State, canResize: bool)
    requires !IsRehashing(d) && d.ht0.buckets == []
    ensures ExpandIfNeeded(d, canResize).0 == d.(ht0 := Table(EmptyBuckets(4)))
  {
    assert NextPower(INITIAL_SIZE) == 4;
  }

  /** The first entry goes into a table of 4 buckets. */
  lemma FirstTable(d: State, k: Key, v: Value, canResize: bool)
    requires Ok(d) && d.ht0.buckets == []
    ensures Size(d) == 0
    ensures var (r, added) := Add(d, k, v, canResize);
      added && !IsRehashing(r) && |r.ht0.buckets| == 4 && r.ht1.buckets == []
  {
    assert !IsRehashing(d) && d.ht1.buckets == [] && Used([]) == 0 && Get(d, k) == None;
    hide Ok, FindIn, Used, ExpandIfNeeded, Push, NextPower, TableOk, Get, RehashStep;
    AddOk(d, k, v, canResize);
    FourBuckets(d, canResize);
    ExpandIfNeededOk(d, canResize);
    PushEntryOk(d.(ht0 := Table(EmptyBuckets(4))), Entry(k, v));
  }

  /**
   * With resizing enabled an addition starts a migration exactly when there is an entry for every bucket, and with
   * resizing disabled when there are six; the new table has at least two buckets for every entry, and fewer than four.
   */
  lemma MigrationStarts(d: State, k: Key, v: Value, canResize: bool)
    requires Ok(d) && !IsRehashing(d) && d.ht0.buckets != [] && 2 * Size(d) <= SIZE_LIMIT
    ensures var used, n, r := Used(d.ht0.buckets), |d.ht0.buckets|, Add(d, k, v, canResize).0;
      && (IsRehashing(r) <==> used >= if canResize then n else 6 * n)
      && (IsRehashing(r) ==> 2 * used <= |r.ht1.buckets| && |r.ht0.buckets| == n)
      && (IsRehashing(r) && used > 2 ==> |r.ht1.buckets| < 4 * used)
      && (!IsRehashing(r) ==> |r.ht0.buckets| == n)
  {
    var used, n := Used(d.ht0.buckets), |d.ht0.buckets|;
    SixPerBucket(used, n);
    ExpandIfNeededOk(d, canResize);
    NextPowerOk(2 * used);
    var d1 := ExpandIfNeeded(d, canResize).0;
    if Get(d1, k) == None { PushEntryOk(d1, Entry(k, v)); }
  }

  lemma SixPerBucket(used: nat, n: nat)
    requires n > 0
    ensures used >= n && used / n > FORCE_RATIO <==> used >= 6 * n
  {
    assert used == used / n * n + used % n;
    var q := used / n;
    if q >= 6 { assert q * n >= 6 * n; } else { assert q * n <= 5 * n; }
  }

  // ----- the load over all runs

  /** One entry per bucket as long as resizing is enabled, six in any case. */
  function Capacity(buckets: nat, enabled: bool): nat {
    if enabled then buckets else 6 * buckets
  }

  /**
   * While migrating, the entries plus the buckets still to migrate fit the new table with one entry to spare, and
   * there are buckets to migrate; otherwise the entries fit the table.
   */
  predicate Bounded(d: State, enabled: bool) {
    if IsRehashing(d) then
      && d.rehashidx < |d.ht0.buckets|
      && Size(d) + |d.ht0.buckets| - d.rehashidx <= Capacity(|d.ht1.buckets|, enabled) + 1
    else Used(d.ht0.buckets) <= Capacity(|d.ht0.buckets|, enabled)
  }

  /** There is room for one more entry. */
  predicate Roomy(d: State, enabled: bool) {
    if IsRehashing(d) then
      && d.rehashidx < |d.ht0.buckets|
      && Size(d) + |d.ht0.buckets| - d.rehashidx <= Capacity(|d.ht1.buckets|, enabled)
    else Used(d.ht0.buckets) < Capacity(|d.ht0.buckets|, enabled)
  }

  lemma RoomyBounded(d: State, enabled: bool)
    requires Roomy(d, enabled)
    ensures Bounded(d, enabled)
  {
  }

  /** A rehashing step keeps the bound, and makes room if the migration goes on. */
  lemma RehashBounded(d: State, n: nat, enabled: bool)
    requires Ok(d) && Bounded(d, enabled) && d.iterators == 0
    ensures Bounded(Rehash(d, n).0, enabled)
    ensures n > 0 && IsRehashing(d) && IsRehashing(Rehash(d, n).0) ==> Roomy(Rehash(d, n).0, enabled)
  {
    hide FindIn, Get, RehashSteps;
    RehashOk(d, n);
    if IsRehashing(d) {
      RehashStepsOk(d, n, 10 * n);
      var r := RehashSteps(d, n, 10 * n).0;
      assert Used([]) == 0;
      if Used(r.ht0.buckets) != 0 { OkPending(r); }
    }
  }

  lemma ExpandRoomy(d: State, canResize: bool, enabled: bool)
    requires Ok(d) && 2 * Used(d.ht0.buckets) <= SIZE_LIMIT && (enabled ==> canResize)
    requires if IsRehashing(d) then Roomy(d, enabled) else Bounded(d, enabled)
    ensures Roomy(ExpandIfNeeded(d, canResize).0, enabled)
  {
    if !IsRehashing(d) {
      var used, n := Used(d.ht0.buckets), |d.ht0.buckets|;
      assert Used([]) == 0;
      NextPowerOk(INITIAL_SIZE);
      NextPowerOk(2 * used);
      UsedZero(EmptyBuckets(NextPower(INITIAL_SIZE)));
      UsedZero(EmptyBuckets(NextPower(2 * used)));
      hide Used, Ok, NextPower;
      if n > 0 { SixPerBucket(used, n); }
    }
  }

  lemma PushBounded(d: State, e: Entry, enabled: bool)
    requires Ok(d) && d.ht0.buckets != [] && Get(d, e.key) == None && Roomy(d, enabled)
    ensures Target(d).buckets != [] && Bounded(PushEntry(d, e), enabled)
  {
    hide FindIn;
    PushEntryOk(d, e);
    if !IsRehashing(d) {
      assert Used([]) == 0;
    }
  }

  /** One addition, with the migration step it makes. */
  lemma AddBounded(d: State, k: Key, v: Value, canResize: bool, enabled: bool)
    requires Ok(d) && Bounded(d, enabled) && d.iterators == 0 && 2 * Size(d) <= SIZE_LIMIT && (enabled ==> canResize)
    ensures Bounded(Add(d, k, v, canResize).0, enabled)
  {
    hide FindIn, Used, RehashSteps, Rehash, Bounded, Roomy, ExpandIfNeeded, PushEntry, Get;
    RehashOk(d, 1);
    RehashBounded(d, 1, enabled);
    var d1 := if IsRehashing(d) then RehashStep(d) else d;
    ExpandIfNeededOk(d1, canResize);
    ExpandRoomy(d1, canResize, enabled);
    var d2 := ExpandIfNeeded(d1, canResize).0;
    if Get(d2, k) == None { PushBounded(d2, Entry(k, v), enabled); } else { RoomyBounded(d2, enabled); }
  }

  lemma DeleteBounded(d: State, k: Key, enabled: bool)
    requires Ok(d) && Bounded(d, enabled) && d.iterators == 0
    ensures Bounded(Delete(d, k).0, enabled)
  {
    hide FindIn, Used, RehashSteps, Rehash, Get;
    RehashOk(d, 1);
    RehashBounded(d, 1, enabled);
    var d1 := if IsRehashing(d) then RehashStep(d) else d;
    if d.ht0.buckets != [] { DeleteShrinks(d1, k, enabled); }
  }

  lemma DeleteShrinks(d: State, k: Key, enabled: bool)
    requires Ok(d) && Bounded(d, enabled) && d.ht0.buckets != []
    ensures FindIn(d.ht0, k).Some? ==> Bounded(d.(ht0 := RemoveFrom(d.ht0, k)), enabled)
    ensures IsRehashing(d) && FindIn(d.ht1, k).Some? ==> Bounded(d.(ht1 := RemoveFrom(d.ht1, k)), enabled)
  {
    if FindIn(d.ht0, k).Some? { RemoveFromOk(d.ht0, k); }
    if IsRehashing(d) && FindIn(d.ht1, k).Some? { RemoveFromOk(d.ht1, k); }
  }

  lemma SizesApart(a: nat, b: nat)
    requires IsSize(a) && IsSize(b) && a < b
    ensures 2 * a <= b
  {
    var j, k := Lg(a), Lg(b);
    LgPow2(j);
    LgPow2(k);
    if k <= j { Pow2Mono(k, j); }
    Pow2Mono(j + 1, k);
  }

  /** An explicit resize to more buckets starts with room to spare. */
  lemma ExpandBounded(d: State, size: nat, enabled: bool)
    requires Ok(d) && Bounded(d, enabled) && size <= SIZE_LIMIT && |d.ht0.buckets| <= NextPower(size)
    ensures Bounded(Expand(d, size).0, enabled)
  {
    ExpandOk(d, size);
    NextPowerOk(size);
    UsedZero(EmptyBuckets(NextPower(size)));
    if d.ht0.buckets != [] && |d.ht0.buckets| < NextPower(size) {
      SizesApart(|d.ht0.buckets|, NextPower(size));
    }
  }

  lemma ReplaceBounded(d: State, k: Key, v: Value, canResize: bool, enabled: bool)
    requires Ok(d) && Bounded(d, enabled) && d.iterators == 0 && 2 * Size(d) <= SIZE_LIMIT && (enabled ==> canResize)
    ensures Bounded(Replace(d, k, v, canResize).0, enabled)
  {
    hide FindIn, RehashSteps, Rehash, Add, Overwrite, TableOk;
    AddOk(d, k, v, canResize);
    AddBounded(d, k, v, canResize, enabled);
    var (d1, added) := Add(d, k, v, canResize);
    if !added {
      FindOk(d1, k);
      RehashBounded(d1, 1, enabled);
      OverwriteOk(FindOp(d1, k).0, k, v);
      assert Used([]) == 0;
    }
  }

  lemma DoBounded(d: State, op: Op, enabled: bool)
    requires Ok(d) && CanDo(d, op) && Bounded(d, enabled) && d.iterators == 0
    requires enabled && (op.AddOp? || op.ReplaceOp?) ==> op.canResize
    ensures Bounded(Do(d, op), enabled) && Do(d, op).iterators == 0
  {
    hide Add, Replace, Delete, Rehash, FindIn, Get, Bounded, Ok;
    RehashOk(d, 1);
    match op
    case AddOp(k, v, canResize) => AddOk(d, k, v, canResize); AddBounded(d, k, v, canResize, enabled);
    case ReplaceOp(k, v, canResize) => ReplaceOk(d, k, v, canResize); ReplaceBounded(d, k, v, canResize, enabled);
    case LookUp(k) => RehashBounded(d, 1, enabled);
    case DeleteOp(k) => DeleteOk(d, k); DeleteBounded(d, k, enabled);
    case RehashOp(n) => RehashOk(d, n); RehashBounded(d, n, enabled);
    case ExpandOp(size) => ExpandOk(d, size); ExpandBounded(d, size, enabled);
  }

  lemma {:induction false} ReachesBounded(d: State, ops: seq<Op>, e: State, enabled: bool)
    requires Ok(d) && Bounded(d, enabled) && d.iterators == 0 && Reaches(d, ops, e)
    requires enabled ==> forall i :: 0 <= i < |ops| && (ops[i].AddOp? || ops[i].ReplaceOp?) ==> ops[i].canResize
    ensures Ok(e) && Bounded(e, enabled)
    decreases |ops|
  {
    hide Do, Ok, Bounded;
    if ops != [] {
      DoBounded(d, ops[0], enabled);
      ReachesBounded(Do(d, ops[0]), ops[1..], e, enabled);
    }
  }

  /** The table that will be the only one when the migration under way, if any, is over. */
  function Last(d: State): Table {
    if IsRehashing(d) then d.ht1 else d.ht0
  }

  /**
   * With resizing enabled, no iterator and no explicit resize to fewer buckets, a dictionary never holds more entries
   * than the table it has, or is migrating to, has buckets; and while it migrates the entries and the buckets still to
   * migrate together exceed that number by one at most.
   */
  lemma LoadBound(ops: seq<Op>, e: State)
    requires Ok(Empty) && Reaches(Empty, ops, e)
    requires forall i :: 0 <= i < |ops| && (ops[i].AddOp? || ops[i].ReplaceOp?) ==> ops[i].canResize
    ensures Ok(e) && Size(e) <= |Last(e).buckets|
    ensures IsRehashing(e) ==> Size(e) + |e.ht0.buckets| - e.rehashidx <= |e.ht1.buckets| + 1
  {
    EmptyOk();
    ReachesBounded(Empty, ops, e, true);
    assert Used([]) == 0;
  }

  /** Whether resizing is enabled or not, there are never more than six entries per bucket. */
  lemma LoadBoundDisabled(ops: seq<Op>, e: State)
    requires Ok(Empty) && Reaches(Empty, ops, e)
    ensures Ok(e) && Size(e) <= 6 * |Last(e).buckets|
  {
    EmptyOk();
    ReachesBounded(Empty, ops, e, false);
    assert Used([]) == 0;
  }

  // ----- a migration ends

  /** An addition or a deletion makes a step of the migration; a lookup does if there is an entry at all. */
  predicate MakesStep(d: State, op: Op) {
    op.AddOp? || op.DeleteOp? || (op.LookUp? && Size(d) != 0)
  }

  ghost predicate AllMakeSteps(d: State, ops: seq<Op>)
    requires Ok(d)
    decreases |ops|
  {
    ops == [] || (CanDo(d, ops[0]) && MakesStep(d, ops[0]) && AllMakeSteps(Do(d, ops[0]), ops[1..]))
  }

  /** The second table of d has become the first one. */
  predicate Over(d: State, e: State) {
    |e.ht0.buckets| == |d.ht1.buckets|
  }

  /** The migration is over, or it has got further. */
  predicate Further(d: State, e: State) {
    Over(d, e) || (IsRehashing(e) && SameTables(d, e) && d.rehashidx < e.rehashidx < |e.ht0.buckets|)
  }

  lemma StepFurther(d: State)
    requires Ok(d) && IsRehashing(d) && d.iterators == 0
    ensures Ok(RehashStep(d)) && Further(d, RehashStep(d)) && RehashStep(d).iterators == 0
    ensures RehashStep(d).ht0.buckets != []
  {
    hide FindIn, RehashSteps, Get;
    RehashOk(d, 1);
    if IsRehashing(RehashStep(d)) { OkPending(RehashStep(d)); }
  }

  lemma AddFurther(d: State, k: Key, v: Value, canResize: bool)
    requires Ok(d) && IsRehashing(d) && d.iterators == 0 && 2 * Size(d) <= SIZE_LIMIT
    ensures Further(d, Add(d, k, v, canResize).0)
  {
    hide FindIn, RehashSteps, Rehash, Used, Get;
    RehashOk(d, 1);
    StepFurther(d);
    var d1 := RehashStep(d);
    ExpandIfNeededOk(d1, canResize);
    NextPowerOk(2 * Used(d1.ht0.buckets));
    var d2 := ExpandIfNeeded(d1, canResize).0;
    if Get(d2, k) == None { PushEntryOk(d2, Entry(k, v)); }
  }

  lemma DeleteFurther(d: State, k: Key)
    requires Ok(d) && IsRehashing(d) && d.iterators == 0
    ensures Further(d, Delete(d, k).0)
  {
    hide FindIn, RehashSteps, Rehash, Used;
    StepFurther(d);
    RehashOk(d, 1);
    if Get(RehashStep(d), k).Some? { RemoveEntryOk(RehashStep(d), k); }
  }

  lemma OpFurther(d: State, op: Op)
    requires Ok(d) && CanDo(d, op) && IsRehashing(d) && d.iterators == 0 && MakesStep(d, op)
    ensures Further(d, Do(d, op)) && Do(d, op).iterators == 0
  {
    match op
    case AddOp(k, v, canResize) =>
      AddOk(d, k, v, canResize);
      AddFurther(d, k, v, canResize);
    case LookUp(k) =>
      FindOk(d, k);
      StepFurther(d);
      assert FindOp(d, k).0 == RehashStep(d);
    case DeleteOp(k) =>
      DeleteOk(d, k);
      DeleteFurther(d, k);
  }

  /**
   * A migration ends: without iterators, after at most as many additions, lookups and deletions as the first table
   * has buckets left to migrate (and one, when there is none left), the second table has become the first.
   */
  lemma {:induction false} MigrationEnds(d: State, ops: seq<Op>, e: State) returns (i: nat, m: State)
    requires Ok(d) && IsRehashing(d) && d.iterators == 0 && Reaches(d, ops, e)
    requires AllMakeSteps(d, ops) && ops != []
    requires |ops| >= |d.ht0.buckets| - d.rehashidx
    ensures 0 < i <= |ops| && (i == 1 || i <= |d.ht0.buckets| - d.rehashidx)
    ensures Reaches(d, ops[..i], m) && Over(d, m)
    decreases |ops|
  {
    hide Do;
    var d1 := Do(d, ops[0]);
    OpFurther(d, ops[0]);
    if Over(d, d1) {
      i, m := 1, d1;
      assert ops[..1] == [ops[0]];
      assert Reaches(d1, [], d1);
    } else {
      var j;
      j, m := MigrationEnds(d1, ops[1..], e);
      i := j + 1;
      assert ops[..i][0] == ops[0] && ops[..i][1..] == ops[1..][..j];
    }
  }

  // ----- how far one call of dictRehash gets

  /** The buckets from i up to j that hold an entry. */
  function Filled(b: seq<Chain>, i: nat, j: nat): nat
    requires i <= j <= |b|
  {
    if i == j then 0 else Filled(b, i, j - 1) + if b[j - 1] == [] then 0 else 1
  }

  lemma {:induction false} FilledSplit(b: seq<Chain>, i: nat, m: nat, j: nat)
    requires i <= m <= j <= |b|
    ensures Filled(b, i, j) == Filled(b, i, m) + Filled(b, m, j)
  {
    if m < j { FilledSplit(b, i, m, j - 1); }
  }

  lemma {:induction false} FilledSame(b: seq<Chain>, c: seq<Chain>, i: nat, j: nat)
    requires i <= j <= |b| && |b| == |c| && forall k :: i <= k < j ==> b[k] == c[k]
    ensures Filled(b, i, j) == Filled(c, i, j)
  {
    if i < j { FilledSame(b, c, i, j - 1); }
  }

  lemma {:induction false} FilledNone(b: seq<Chain>, i: nat, j: nat)
    requires i <= j <= |b| && forall k :: i <= k < j ==> b[k] == []
    ensures Filled(b, i, j) == 0
  {
    if i < j { FilledNone(b, i, j - 1); }
  }

  /** How the buckets passed from x up to j divide into moved and empty ones. */
  predicate Spent(b: seq<Chain>, x: nat, j: int, n: nat, visits: nat, stopped: bool, all: bool) {
    x <= j <= |b| &&
    var moved := Filled(b, x, j);
    var empty := j - x - moved;
    if stopped then moved < n && empty == visits
    else moved <= n && (n == 0 ==> j == x) && (!all ==> moved == n && (n > 0 ==> empty < visits))
  }

  /** Bucket i is the first one from x on that holds an entry, and behind it c agrees with b. */
  predicate FirstFilled(b: seq<Chain>, c: seq<Chain>, x: nat, i: nat) {
    && x <= i < |b| == |c| && b[i] != [] && (forall k :: x <= k < i ==> b[k] == [])
    && forall k :: i < k < |b| ==> b[k] == c[k]
  }

  lemma SpentNext(b: seq<Chain>, c: seq<Chain>, x: nat, i: nat, j: int, n: nat, visits: nat, stopped: bool, all: bool)
    requires FirstFilled(b, c, x, i) && i - x < visits && n > 0
    requires Spent(c, i + 1, j, n - 1, visits - (i - x), stopped, all)
    ensures Spent(b, x, j, n, visits, stopped, all)
  {
    OneMoved(b, c, x, i, j);
  }

  ghost predicate Budget(d: State, n: nat, visits: nat)
    requires Ok(d) && IsRehashing(d) && (n > 0 ==> visits > 0)
  {
    d.rehashidx >= 0 &&
    var (r, stopped) := RehashSteps(d, n, visits);
    Spent(d.ht0.buckets, d.rehashidx, r.rehashidx, n, visits, stopped, Used(r.ht0.buckets) == 0)
  }

  lemma BudgetNone(d: State, n: nat, visits: nat)
    requires Ok(d) && IsRehashing(d) && (n > 0 ==> visits > 0) && (n == 0 || Used(d.ht0.buckets) == 0)
    ensures Budget(d, n, visits)
  {
  }

  /** One round: it is given up in the middle, or a bucket is moved and the next round follows. */
  lemma BudgetRound(d: State, n: nat, visits: nat) returns (left: nat, d1: State)
    requires Ok(d) && IsRehashing(d) && n > 0 && visits > 0 && Used(d.ht0.buckets) != 0
    ensures left == 0 ==> Budget(d, n, visits)
    ensures left > 0 ==> Ok(d1) && IsRehashing(d1) && (Budget(d1, n - 1, left) ==> Budget(d, n, visits))
  {
    hide Get, FindIn, Used, MoveChain, Ok, Spent;
    OkPending(d);
    var b := d.ht0.buckets;
    var i;
    i, left := Skip(b, d.rehashidx, visits).0, Skip(b, d.rehashidx, visits).1;
    RehashRound(d, i);
    d1 := MoveBucket(d.(rehashidx := i));
    if left == 0 {
      StoppedSpent(b, d.rehashidx, i, n, visits, Used(b) == 0);
    } else {
      MovedBuckets(d, i);
      assert FirstFilled(b, d1.ht0.buckets, d.rehashidx, i);
      var (r, stopped) := RehashSteps(d1, n - 1, left);
      var all := Used(r.ht0.buckets) == 0;
      if Budget(d1, n - 1, left) {
        SpentNext(b, d1.ht0.buckets, d.rehashidx, i, r.rehashidx, n, visits, stopped, all);
      }
    }
  }

  lemma {:induction false} StepsBudget(d: State, n: nat, visits: nat)
    requires Ok(d) && IsRehashing(d) && (n > 0 ==> visits > 0)
    ensures Budget(d, n, visits)
    decreases n
  {
    hide Budget, Ok, Used;
    if n == 0 || Used(d.ht0.buckets) == 0 {
      BudgetNone(d, n, visits);
    } else {
      var left, d1 := BudgetRound(d, n, visits);
      if left > 0 { StepsBudget(d1, n - 1, left); }
    }
  }

  lemma StoppedSpent(b: seq<Chain>, x: nat, i: nat, n: nat, visits: nat, all: bool)
    requires x <= i < |b| && n > 0 && i - x == visits && forall k :: x <= k < i ==> b[k] == []
    ensures Spent(b, x, i, n, visits, true, all)
  {
    FilledNone(b, x, i);
  }

  lemma OneMoved(b: seq<Chain>, c: seq<Chain>, x: nat, i: nat, j: nat)
    requires x <= i < j <= |b| == |c| && b[i] != [] && forall k :: x <= k < i ==> b[k] == []
    requires forall k :: i < k < |b| ==> b[k] == c[k]
    ensures Filled(b, x, j) == 1 + Filled(c, i + 1, j)
  {
    FilledNone(b, x, i);
    FilledSame(b, c, i + 1, j);
    FilledSplit(b, x, i, j);
    FilledSplit(b, i, i + 1, j);
    assert Filled(b, i, i + 1) == 1;
  }

  lemma MovedBuckets(d: State, i: nat)
    requires Ok(d) && IsRehashing(d) && d.rehashidx <= i < |d.ht0.buckets| && BucketReady(d.(rehashidx := i))
    ensures var e := MoveBucket(d.(rehashidx := i));
      && |e.ht0.buckets| == |d.ht0.buckets| && e.rehashidx == i + 1
      && forall k :: i < k < |d.ht0.buckets| ==> e.ht0.buckets[k] == d.ht0.buckets[k]
  {
  }

  /**
   * When dictRehash(n) leaves more to do, it has moved n buckets and passed fewer than 10 * n empty ones, or it has
   * passed 10 * n empty ones and moved fewer than n.
   */
  lemma RehashBudget(d: State, n: nat)
    requires Ok(d) && IsRehashing(d) && n > 0
    ensures var (r, more) := Rehash(d, n);
      more ==>
        && d.rehashidx <= r.rehashidx <= |d.ht0.buckets|
        && var moved := Filled(d.ht0.buckets, d.rehashidx, r.rehashidx);
        var empty := r.rehashidx - d.rehashidx - moved;
        (moved == n && empty < 10 * n) || (moved < n && empty == 10 * n)
  {
    hide Get, FindIn, Used, RehashSteps, Ok;
    StepsBudget(d, n, 10 * n);
  }
}
