/** dictScan: what one call emits, and what a whole scan emits while the dictionary changes under it. */
module DictScan {
  import opened Bits
  import opened DictModel
  import opened DictOps
  import opened ScanCursor

  /** The smaller of the two tables while rehashing, the only one otherwise. */
  function Small(d: State): Table {
    if IsRehashing(d) && |d.ht0.buckets| > |d.ht1.buckets| then d.ht1 else d.ht0
  }

  function Big(d: State): Table {
    if IsRehashing(d) && |d.ht0.buckets| > |d.ht1.buckets| then d.ht0 else d.ht1
  }

  function SmallBits(d: State): nat {
    Lg(|Small(d).buckets|)
  }

  function BigBits(d: State): nat {
    Lg(|Big(d).buckets|)
  }

  lemma {:induction false} LgMono(a: nat, b: nat)
    requires a <= b
    ensures Lg(a) <= Lg(b)
  {
    if a > 1 { LgMono(a / 2, b / 2); }
  }

  lemma TablesOrdered(d: State)
    requires Ok(d) && d.ht0.buckets != []
    ensures
      && Small(d).buckets != [] && TableOk(Small(d)) && |Small(d).buckets| - 1 == Ones(SmallBits(d))
      && SmallBits(d) <= WIDTH
    ensures IsRehashing(d) ==>
      && Big(d).buckets != [] && TableOk(Big(d)) && |Big(d).buckets| - 1 == Ones(BigBits(d))
      && SmallBits(d) <= BigBits(d) <= WIDTH
  {
    if IsRehashing(d) { LgMono(|Small(d).buckets|, |Big(d).buckets|); }
  }

  /** The chains of the listed buckets, one after the other. */
  function Gather(t: Table, bs: seq<nat>): Chain
    requires forall i :: 0 <= i < |bs| ==> bs[i] < |t.buckets|
  {
    if bs == [] then [] else t.buckets[bs[0]] + Gather(t, bs[1..])
  }

  lemma {:induction false} GatherAt(t: Table, bs: seq<nat>, i: nat)
    requires forall i :: 0 <= i < |bs| ==> bs[i] < |t.buckets|
    requires i < |bs|
    ensures forall e :: e in t.buckets[bs[i]] ==> e in Gather(t, bs)
  {
    if i > 0 { GatherAt(t, bs[1..], i - 1); }
  }

  lemma {:induction false} GatherOnly(t: Table, bs: seq<nat>, e: Entry)
    requires forall i :: 0 <= i < |bs| ==> bs[i] < |t.buckets|
    requires e in Gather(t, bs)
    ensures exists i :: 0 <= i < |bs| && e in t.buckets[bs[i]]
  {
    if e !in t.buckets[bs[0]] {
      GatherOnly(t, bs[1..], e);
      var i :| 0 <= i < |bs[1..]| && e in t.buckets[bs[1..][i]];
      assert e in t.buckets[bs[i + 1]];
    }
  }

  lemma {:induction false} ExpansionsInRange(n: nat, u: nat, k0: nat, k1: nat)
    requires k0 <= k1 <= n && u < Pow2(n)
    ensures forall i :: 0 <= i < |Expansions(n, u, k0, k1)| ==> Expansions(n, u, k0, k1)[i] < Pow2(k1)
    decreases Pow2(k1 - k0) - ExtraBits(u, k0, k1)
  {
    hide Rev, Shl, Shr, Low, Ones, HighMask, Or, And, Pow2, Xor, ExpandCursor, ExpandDone, ExtraBits;
    AndOnes(u, k1);
    Decompose(u, k1);
    MaskBound(k0, n);
    ExpandRound(n, u, k0, k1);
    var u' := ExpandCursor(n, u, Ones(k0));
    if !ExpandDone(u', Ones(k0), Ones(k1)) {
      ExpandRound(n, u', k0, k1);
      ExpansionsInRange(n, u', k0, k1);
    }
  }

  /** The entries passed to fn by one call. */
  ghost function Emitted(d: State, v: nat): Chain
    requires Ok(d) && v < Pow2(WIDTH)
  {
    if Size(d) == 0 then [] else
      SizeNeedsTable(d);
      TablesOrdered(d);
      AndOnes(v, SmallBits(d));
      Decompose(v, SmallBits(d));
      Small(d).buckets[And(v, |Small(d).buckets| - 1)] +
      if !IsRehashing(d) then [] else
        ExpansionsInRange(WIDTH, v, SmallBits(d), BigBits(d));
        Gather(Big(d), Expansions(WIDTH, v, SmallBits(d), BigBits(d)))
  }

  /** The cursor one call returns. */
  ghost function Next(d: State, v: nat): (w: nat)
    requires Ok(d) && v < Pow2(WIDTH)
    ensures w < Pow2(WIDTH)
  {
    if Size(d) == 0 then 0 else
      SizeNeedsTable(d);
      TablesOrdered(d);
      MaskBound(SmallBits(d), WIDTH);
      NextCursor(WIDTH, v, |Small(d).buckets| - 1)
  }

  lemma SizeNeedsTable(d: State)
    requires Ok(d) && Size(d) != 0
    ensures d.ht0.buckets != []
  {
  }

  /** The bits of the cursor between the two masks leave no gap; always so when there is one table. */
  ghost predicate GapFree(d: State, v: nat)
    requires Ok(d)
  {
    IsRehashing(d) ==> (TablesOrdered(d); IsOnes(ExtraBits(v, SmallBits(d), BigBits(d))))
  }

  lemma {:induction false} FindMember(c: Chain, k: Key)
    requires Find(c, k).Some?
    ensures Entry(k, Find(c, k).value) in c
  {
    if c[0].key != k { FindMember(c[1..], k); }
  }

  /** A call emits every present key whose hash it moves past. */
  lemma CallCovers(d: State, v: nat, k: Key)
    requires Ok(d) && v < Pow2(WIDTH) && GapFree(d, v)
    requires Get(d, k).Some?
    requires Pos(WIDTH, v) <= Pos(WIDTH, k.hash) && Passed(WIDTH, Next(d, v), k.hash)
    ensures Entry(k, Get(d, k).value) in Emitted(d, v)
  {
    hide Pos, NextCursor, IsOnes, ExtraBits, Expansions, Lg, Used, And, Low, Ones;
    PresentMeansSize(d, k);
    SizeNeedsTable(d);
    TablesOrdered(d);
    var k0 := SmallBits(d);
    NextCursorCovers(WIDTH, v, k0, k.hash);
    AndOnes(v, k0);
    Decompose(v, k0);
    if FindIn(Small(d), k).Some? {
      IndexInRange(k, |Small(d).buckets|);
      FindMember(Small(d).buckets[Low(v, k0)], k);
    } else {
      var k1 := BigBits(d);
      NoGapForHash(WIDTH, v, k0, k1, k.hash);
      ExpansionsInRange(WIDTH, v, k0, k1);
      var bs := Expansions(WIDTH, v, k0, k1);
      var i :| 0 <= i < |bs| && bs[i] == Low(k.hash, k1);
      IndexInRange(k, |Big(d).buckets|);
      FindMember(Big(d).buckets[bs[i]], k);
      GatherAt(Big(d), bs, i);
    }
  }

  lemma PresentMeansSize(d: State, k: Key)
    requires Ok(d) && Get(d, k).Some?
    ensures Size(d) != 0
  {
    if Size(d) == 0 {
      EmptyTable(d.ht0, k);
      EmptyTable(d.ht1, k);
    }
  }

  // ----- whole scans

  /** A scan from cursor 0: call i finds the dictionary in state run[i], whatever happened in between. */
  ghost predicate ScanFrom0(run: seq<State>, cur: seq<nat>) {
    && |cur| == |run| + 1 && cur[0] == 0
    && (forall i :: 0 <= i < |run| ==> Ok(run[i]))
    && (forall i :: 0 <= i <= |run| ==> cur[i] < Pow2(WIDTH))
    && (forall i :: 0 <= i < |run| ==> cur[i + 1] == Next(run[i], cur[i]))
    && (forall i :: 0 < i < |run| ==> cur[i] != 0)
  }

  lemma {:induction false} CoveredSoFar(run: seq<State>, cur: seq<nat>, k: Key, m: nat)
    requires ScanFrom0(run, cur) && m <= |run|
    requires forall i :: 0 <= i < |run| ==> Get(run[i], k).Some? && GapFree(run[i], cur[i])
    requires forall i :: 0 <= i < m ==> Entry(k, Get(run[i], k).value) !in Emitted(run[i], cur[i])
    ensures Pos(WIDTH, cur[m]) <= Pos(WIDTH, k.hash)
    ensures m > 0 ==> cur[m] != 0
  {
    hide Rev, Emitted, GapFree, Get, Ok, Next;
    if m == 0 {
      RevZero(WIDTH);
    } else {
      CoveredSoFar(run, cur, k, m - 1);
      if Passed(WIDTH, cur[m], k.hash) {
        CallCovers(run[m - 1], cur[m - 1], k);
      }
    }
  }

  /**
   * Scan coverage: a scan that returns to cursor 0 has emitted every key that was present at each of its
   * calls, however the tables changed between them, provided no call made while rehashing left a gap.
   */
  lemma ScanCoverage(run: seq<State>, cur: seq<nat>, k: Key)
    requires ScanFrom0(run, cur) && run != [] && cur[|run|] == 0
    requires forall i :: 0 <= i < |run| ==> Get(run[i], k).Some? && GapFree(run[i], cur[i])
    ensures exists i :: 0 <= i < |run| && Entry(k, Get(run[i], k).value) in Emitted(run[i], cur[i])
  {
    hide Emitted, GapFree, Get, Ok, Next;
    if forall i :: 0 <= i < |run| ==> Entry(k, Get(run[i], k).value) !in Emitted(run[i], cur[i]) {
      CoveredSoFar(run, cur, k, |run|);
    }
  }

  // ----- scans interleaved with operations, while the dictionary only grows

  datatype Op =
    | AddOp(k: Key, v: Value, canResize: bool)
    | ReplaceOp(k: Key, v: Value, canResize: bool)
    | LookUp(k: Key)
    | DeleteOp(k: Key)
    | RehashOp(n: nat)
    | ExpandOp(size: nat)

  /** Any operation but an explicit resize to fewer buckets; sizes stay in range. */
  ghost predicate CanDo(d: State, op: Op)
    requires Ok(d)
  {
    && (op.AddOp? || op.ReplaceOp? ==> 2 * Size(d) <= SIZE_LIMIT)
    && (op.ExpandOp? ==> op.size <= SIZE_LIMIT && |d.ht0.buckets| <= NextPower(op.size))
  }

  ghost function Do(d: State, op: Op): (r: State)
    requires Ok(d) && CanDo(d, op)
    ensures Ok(r)
  {
    match op
    case AddOp(k, v, canResize) => AddOk(d, k, v, canResize); Add(d, k, v, canResize).0
    case ReplaceOp(k, v, canResize) => ReplaceOk(d, k, v, canResize); Replace(d, k, v, canResize).0
    case LookUp(k) => FindOk(d, k); FindOp(d, k).0
    case DeleteOp(k) => DeleteOk(d, k); Delete(d, k).0
    case RehashOp(n) => RehashOk(d, n); Rehash(d, n).0
    case ExpandOp(size) => ExpandOk(d, size); Expand(d, size).0
  }

  /** The state e is reached from d by some sequence of operations. */
  ghost predicate Reaches(d: State, ops: seq<Op>, e: State)
    requires Ok(d)
    decreases |ops|
  {
    if ops == [] then d == e else CanDo(d, ops[0]) && Reaches(Do(d, ops[0]), ops[1..], e)
  }

  /** A rehash under way goes to a table at least as large. */
  predicate Growing(d: State) {
    IsRehashing(d) ==> |d.ht0.buckets| <= |d.ht1.buckets|
  }

  /** What keeps old cursors meaningful: the smaller table never shrinks. */
  ghost predicate GrowsTo(d: State, e: State) {
    Growing(d) ==> Growing(e) && |Small(d).buckets| <= |Small(e).buckets|
  }

  lemma RehashStepGrows(d: State, n: nat)
    requires Ok(d)
    ensures GrowsTo(d, Rehash(d, n).0)
  {
    hide FindIn, Get, RehashSteps;
    RehashOk(d, n);
    if IsRehashing(d) {
      RehashStepsOk(d, n, 10 * n);
    }
  }

  lemma ExpandIfNeededGrows(d: State, canResize: bool)
    requires Ok(d) && 2 * Used(d.ht0.buckets) <= SIZE_LIMIT
    ensures GrowsTo(d, ExpandIfNeeded(d, canResize).0)
  {
    var used := Used(d.ht0.buckets);
    NextPowerOk(used * 2);
    NextPowerOk(INITIAL_SIZE);
  }

  lemma AddGrows(d: State, k: Key, v: Value, canResize: bool)
    requires Ok(d) && 2 * Size(d) <= SIZE_LIMIT
    ensures GrowsTo(d, Add(d, k, v, canResize).0)
  {
    hide FindIn, RehashSteps, Rehash;
    RehashOk(d, 1);
    RehashStepGrows(d, 1);
    var d1 := if IsRehashing(d) then RehashStep(d) else d;
    ExpandIfNeededOk(d1, canResize);
    ExpandIfNeededGrows(d1, canResize);
    var d2 := ExpandIfNeeded(d1, canResize).0;
    if Get(d2, k) == None { PushEntryOk(d2, Entry(k, v)); }
  }

  lemma DeleteGrows(d: State, k: Key)
    requires Ok(d)
    ensures GrowsTo(d, Delete(d, k).0)
  {
    hide RehashSteps, Rehash;
    RehashOk(d, 1);
    RehashStepGrows(d, 1);
    var d1 := if IsRehashing(d) then RehashStep(d) else d;
    if d.ht0.buckets != [] && Get(d1, k).Some? { RemoveEntryOk(d1, k); }
  }

  lemma ReplaceGrows(d: State, k: Key, v: Value, canResize: bool)
    requires Ok(d) && 2 * Size(d) <= SIZE_LIMIT
    ensures GrowsTo(d, Replace(d, k, v, canResize).0)
  {
    hide FindIn, RehashSteps, Rehash, Add, Overwrite;
    AddOk(d, k, v, canResize);
    AddGrows(d, k, v, canResize);
    var (d1, added) := Add(d, k, v, canResize);
    if !added {
      FindOk(d1, k);
      RehashStepGrows(d1, 1);
      OverwriteOk(FindOp(d1, k).0, k, v);
    }
  }

  lemma DoGrows(d: State, op: Op)
    requires Ok(d) && CanDo(d, op)
    ensures GrowsTo(d, Do(d, op))
  {
    hide Add, Replace, Delete, Rehash, Get, FindIn;
    RehashOk(d, 1);
    match op
    case AddOp(k, v, canResize) => AddGrows(d, k, v, canResize);
    case ReplaceOp(k, v, canResize) => ReplaceGrows(d, k, v, canResize);
    case LookUp(k) => RehashStepGrows(d, 1);
    case DeleteOp(k) => DeleteGrows(d, k);
    case RehashOp(n) => RehashStepGrows(d, n);
    case ExpandOp(size) => ExpandOk(d, size);
  }

  lemma {:induction false} ReachesGrows(d: State, ops: seq<Op>, e: State)
    requires Ok(d) && Reaches(d, ops, e)
    ensures Ok(e) && GrowsTo(d, e)
    decreases |ops|
  {
    hide Do, Ok;
    if ops != [] {
      DoGrows(d, ops[0]);
      ReachesGrows(Do(d, ops[0]), ops[1..], e);
    }
  }

  /** Between calls anything but an explicit resize to fewer buckets happens. */
  ghost predicate GrowthScan(run: seq<State>, cur: seq<nat>, ops: seq<seq<Op>>) {
    && ScanFrom0(run, cur) && run != [] && Growing(run[0])
    && |ops| == |run|
    && forall i :: 0 <= i < |run| - 1 ==> Reaches(run[i], ops[i], run[i + 1])
  }

  lemma {:induction false} CursorStaysMasked(run: seq<State>, cur: seq<nat>, ops: seq<seq<Op>>, m: nat)
    requires GrowthScan(run, cur, ops) && m < |run|
    ensures Growing(run[m])
    ensures run[m].ht0.buckets != [] ==> cur[m] < Pow2(SmallBits(run[m]))
  {
    hide Emitted, Get, Reaches, NextCursor;
    if m > 0 {
      CursorStaysMasked(run, cur, ops, m - 1);
      var d, e := run[m - 1], run[m];
      ReachesGrows(d, ops[m - 1], e);
      assert cur[m - 1 + 1] == Next(d, cur[m - 1]);
      assert cur[m] != 0;
      SizeNeedsTable(d);
      TablesOrdered(d);
      NextCursorMasked(WIDTH, cur[m - 1], SmallBits(d));
      LgMono(|Small(d).buckets|, |Small(e).buckets|);
      Pow2Mono(SmallBits(d), SmallBits(e));
    }
  }

  lemma MaskedIsGapFree(d: State, v: nat)
    requires Ok(d) && (d.ht0.buckets != [] ==> v < Pow2(SmallBits(d)))
    ensures GapFree(d, v)
  {
    if IsRehashing(d) {
      TablesOrdered(d);
      LowSmall(v, SmallBits(d));
      LowOfZero(BigBits(d) - SmallBits(d));
    }
  }

  /**
   * While the dictionary only grows no call leaves a gap, so every key present throughout the scan is emitted,
   * whichever additions, replacements, lookups, deletions, expansions and rehashing steps take place between the calls.
   */
  lemma GrowthScanCoverage(run: seq<State>, cur: seq<nat>, ops: seq<seq<Op>>, k: Key)
    requires GrowthScan(run, cur, ops) && cur[|run|] == 0
    requires forall i :: 0 <= i < |run| ==> Get(run[i], k).Some?
    ensures exists i :: 0 <= i < |run| && Entry(k, Get(run[i], k).value) in Emitted(run[i], cur[i])
  {
    hide Emitted, Get, Ok, Next, Reaches, GapFree;
    forall i | 0 <= i < |run| ensures GapFree(run[i], cur[i]) {
      CursorStaysMasked(run, cur, ops, i);
      MaskedIsGapFree(run[i], cur[i]);
    }
    ScanCoverage(run, cur, k);
  }

  // ----- a dictionary that does not change

  /** Call i of a scan of an unchanging table of 2^k buckets visits the bucket whose reversed index is i... */
  lemma {:induction false} StaticCursor(d: State, run: seq<State>, cur: seq<nat>, i: nat)
    requires ScanFrom0(run, cur) && i < |run| && forall j :: 0 <= j < |run| ==> run[j] == d
    requires Size(d) != 0 && !IsRehashing(d)
    ensures i < |d.ht0.buckets| && Rev(SmallBits(d), cur[i]) == i && cur[i] == Rev(SmallBits(d), i)
    ensures cur[i + 1] == 0 <==> i == |d.ht0.buckets| - 1
  {
    hide Emitted, Get, Rev, Pow2, Lg, Ok, NextCursor, Ones;
    assert run[0] == d;
    SizeNeedsTable(d);
    TablesOrdered(d);
    var k := SmallBits(d);
    NextPosition(WIDTH, cur[i], k);
    if i == 0 {
      RevZero(k);
    } else {
      StaticCursor(d, run, cur, i - 1);
      assert cur[i - 1 + 1] == Next(d, cur[i - 1]);
      NextCursorCounts(WIDTH, cur[i - 1], k);
      NextPosition(WIDTH, cur[i - 1], k);
      NextCursorMasked(WIDTH, cur[i - 1], k);
      RevRev(k, cur[i]);
      LowSmall(cur[i], k);
    }
    assert cur[i + 1] == Next(d, cur[i]);
  }

  /** ...so the scan ends after exactly as many calls as there are buckets, and visits each bucket once. */
  lemma StaticScanVisitsOnce(d: State, run: seq<State>, cur: seq<nat>, b: nat)
    requires ScanFrom0(run, cur) && run != [] && cur[|run|] == 0 && forall j :: 0 <= j < |run| ==> run[j] == d
    requires Size(d) != 0 && !IsRehashing(d) && b < |d.ht0.buckets|
    ensures |run| == |d.ht0.buckets|
    ensures exists i :: 0 <= i < |run| && And(cur[i], |d.ht0.buckets| - 1) == b
    ensures forall i, j :: 0 <= i < j < |run| ==>
      !(And(cur[i], |d.ht0.buckets| - 1) == And(cur[j], |d.ht0.buckets| - 1) == b)
  {
    hide Emitted, Get, Rev, Pow2, Lg, Ok, Next, Low, Ones, And;
    assert run[0] == d;
    SizeNeedsTable(d);
    TablesOrdered(d);
    var k := SmallBits(d);
    StaticCursor(d, run, cur, |run| - 1);
    forall i | 0 <= i < |run| ensures And(cur[i], |d.ht0.buckets| - 1) == Rev(k, i) && Rev(k, Rev(k, i)) == i {
      StaticCursor(d, run, cur, i);
      AndOnes(cur[i], k);
      LowSmall(cur[i], k);
    }
    SizeIsPow2(d);
    RevRev(k, b);
    LowSmall(b, k);
    assert And(cur[Rev(k, b)], |d.ht0.buckets| - 1) == b;
  }

  lemma SizeIsPow2(d: State)
    requires Ok(d) && d.ht0.buckets != [] && !IsRehashing(d)
    ensures |d.ht0.buckets| == Pow2(SmallBits(d))
  {
  }

  // ----- the new dictionary

  const Empty: State := State(Table([]), Table([]), NOT_REHASHING, 0)

  lemma EmptyOk()
    ensures Ok(Empty) && Size(Empty) == 0 && forall k :: Get(Empty, k) == None
  {
    assert forall k :: FindIn(Empty.ht0, k) == None;
  }

  // ----- every scan ends

  /**
   * A scan comes back to cursor 0 after at most as many calls as its tables ever have buckets (the smaller
   * table of the two while rehashing), and its position grows with every call until then.
   */
  lemma {:induction false} ScanEnds(run: seq<State>, cur: seq<nat>, k: nat, m: nat)
    requires ScanFrom0(run, cur) && k <= WIDTH && 0 < m <= |run|
    requires forall i :: 0 <= i < |run| && Size(run[i]) != 0 ==> SmallBits(run[i]) <= k
    ensures m <= Rev(k, cur[m - 1]) + 1 <= Pow2(k)
    ensures cur[m] != 0 ==> Pos(WIDTH, cur[m - 1]) < Pos(WIDTH, cur[m]) && Rev(k, cur[m - 1]) < Rev(k, cur[m])
  {
    hide Rev, Pow2, Lg, Ok, NextCursor, Ones, Pos;
    if m > 1 { ScanEnds(run, cur, k, m - 1); }
    var d, v := run[m - 1], cur[m - 1];
    assert cur[m - 1 + 1] == Next(d, v);
    if cur[m] != 0 {
      SizeNeedsTable(d);
      TablesOrdered(d);
      CursorAdvances(WIDTH, v, SmallBits(d));
      NextPosition(WIDTH, v, SmallBits(d));
      NextCursorCounts(WIDTH, v, SmallBits(d));
      BlocksOrdered(k, v, cur[m], SmallBits(d));
      PosIs(k, v);
      PosIs(k, cur[m]);
    }
  }

  lemma PosIs(n: nat, v: nat)
    ensures Pos(n, v) == Rev(n, v)
  {
  }

  lemma ScanIsFinite(run: seq<State>, cur: seq<nat>, k: nat)
    requires ScanFrom0(run, cur) && k <= WIDTH
    requires forall i :: 0 <= i < |run| && Size(run[i]) != 0 ==> SmallBits(run[i]) <= k
    ensures |run| <= Pow2(k)
  {
    if run != [] { ScanEnds(run, cur, k, |run|); }
  }

  // ----- when a call can lose a key

  /**
   * A dictionary that is rehashing between 2^k0 and 2^k1 buckets, in either direction, with one entry in the
   * larger table.
   */
  function OneEntry(k0: nat, k1: nat, shrinking: bool, e: Entry): State {
    var small := Table(EmptyBuckets(Pow2(k0)));
    var i := Low(e.key.hash, k1);
    var empty := EmptyBuckets(Pow2(k1));
    var big := Table(if i < |empty| then empty[i := [e]] else empty);
    if shrinking then State(big, small, 0, 0) else State(small, big, 0, 0)
  }

  lemma OneEntryOk(k0: nat, k1: nat, shrinking: bool, e: Entry)
    requires k0 < k1 <= WIDTH
    ensures var d := OneEntry(k0, k1, shrinking, e);
      && Ok(d) && IsRehashing(d) && SmallBits(d) == k0 && BigBits(d) == k1 && Size(d) == 1
      && Get(d, e.key) == Some(e.val) && (shrinking <==> |d.ht0.buckets| > |d.ht1.buckets|)
      && Small(d).buckets == EmptyBuckets(Pow2(k0)) && |Big(d).buckets| == Pow2(k1)
      && forall b :: 0 <= b < Pow2(k1) && b != Low(e.key.hash, k1) ==> Big(d).buckets[b] == []
  {
    LgPow2(k0);
    LgPow2(k1);
    Pow2Mono(k0, k1);
    EmptyBucketsOk(Pow2(k0));
    EmptyBucketsOk(Pow2(k1));
    var t := Table(EmptyBuckets(Pow2(k1)));
    IndexInRange(e.key, Pow2(k1));
    EmptyTable(t, e.key);
    PushOk(t, e);
    var i := Low(e.key.hash, k1);
    assert [e] + t.buckets[i] == [e];
    var d := OneEntry(k0, k1, shrinking, e);
    assert Big(d) == Push(t, e);
    forall k ensures FindIn(Small(d), k) == None { EmptyTable(Small(d), k); }
  }

  /** One call made while rehashing between these sizes passes no present key without emitting it. */
  ghost predicate CallSafe(k0: nat, k1: nat, v: nat)
    requires v < Pow2(WIDTH)
  {
    forall d: State, k: Key :: Ok(d) && IsRehashing(d) && SmallBits(d) == k0 && BigBits(d) == k1 && Get(d, k).Some?
      && Pos(WIDTH, v) <= Pos(WIDTH, k.hash) && Passed(WIDTH, Next(d, v), k.hash)
      ==> Entry(k, Get(d, k).value) in Emitted(d, v)
  }

  /** A gap loses a key of some dictionary that is rehashing between these sizes, whichever of them is the old one. */
  lemma GapLosesAKey(k0: nat, k1: nat, v: nat, shrinking: bool) returns (d: State, k: Key)
    requires k0 <= k1 <= WIDTH && v < Pow2(WIDTH) && !IsOnes(ExtraBits(v, k0, k1))
    ensures Ok(d) && IsRehashing(d) && SmallBits(d) == k0 && BigBits(d) == k1
    ensures shrinking <==> |d.ht0.buckets| > |d.ht1.buckets|
    ensures Get(d, k).Some? && Pos(WIDTH, v) <= Pos(WIDTH, k.hash) && Passed(WIDTH, Next(d, v), k.hash)
    ensures Entry(k, Get(d, k).value) !in Emitted(d, v)
  {
    hide IsOnes, ExtraBits, Pow2, Pos, Passed, Low, Ones;
    hide And, NextCursor, Expansions, Lg, Ok, Get, OneEntry, ExpandCursor;
    GapIsProper(k0, k1, v);
    var h := GapHash(WIDTH, v, k0, k1);
    k := Key(0, h);
    d := OneEntry(k0, k1, shrinking, Entry(k, 0));
    OneEntryOk(k0, k1, shrinking, Entry(k, 0));
    NextCursorCovers(WIDTH, v, k0, h);
    TablesOrdered(d);
    SizeNeedsTable(d);
    OnesOf(k0);
    GapNotEmitted(d, v, k0, k1, Entry(k, 0));
  }

  lemma OnesOf(k: nat)
    ensures Pow2(k) - 1 == Ones(k)
  {
  }

  lemma GapIsProper(k0: nat, k1: nat, v: nat)
    requires k0 <= k1 && !IsOnes(ExtraBits(v, k0, k1))
    ensures k0 < k1
  {
  }

  lemma GapNotEmitted(d: State, v: nat, k0: nat, k1: nat, e: Entry)
    requires
      && Ok(d) && IsRehashing(d) && SmallBits(d) == k0 && BigBits(d) == k1 && Size(d) != 0
      && k0 <= k1 <= WIDTH && v < Pow2(WIDTH)
    requires Small(d).buckets == EmptyBuckets(Pow2(k0)) && |Big(d).buckets| == Pow2(k1)
    requires forall b :: 0 <= b < Pow2(k1) && b != Low(e.key.hash, k1) ==> Big(d).buckets[b] == []
    requires Low(e.key.hash, k1) !in Expansions(WIDTH, v, k0, k1)
    ensures e !in Emitted(d, v)
  {
    hide IsOnes, ExtraBits, Pow2, Low, Ones, And, Expansions, Lg, Ok;
    SizeNeedsTable(d);
    TablesOrdered(d);
    AndOnes(v, k0);
    Decompose(v, k0);
    ExpansionsInRange(WIDTH, v, k0, k1);
    var bs := Expansions(WIDTH, v, k0, k1);
    if e in Gather(Big(d), bs) {
      GatherOnly(Big(d), bs, e);
    }
  }

  /**
   * A call made while rehashing is safe for every dictionary exactly when its cursor leaves no gap between the
   * sizes.
   */
  lemma SafeExactly(k0: nat, k1: nat, v: nat)
    requires k0 <= k1 <= WIDTH && v < Pow2(WIDTH)
    ensures CallSafe(k0, k1, v) <==> IsOnes(ExtraBits(v, k0, k1))
  {
    hide IsOnes, ExtraBits, Pow2, Pos, Passed, Ok, Get, Emitted, Next, Lg;
    if IsOnes(ExtraBits(v, k0, k1)) {
      forall d: State, k: Key | Ok(d) && IsRehashing(d) && SmallBits(d) == k0 && BigBits(d) == k1 && Get(d, k).Some?
        && Pos(WIDTH, v) <= Pos(WIDTH, k.hash) && Passed(WIDTH, Next(d, v), k.hash)
        ensures Entry(k, Get(d, k).value) in Emitted(d, v)
      {
        TablesOrderedGap(d, v);
        CallCovers(d, v, k);
      }
    } else {
      var d, k := GapLosesAKey(k0, k1, v, true);
    }
  }

  lemma TablesOrderedGap(d: State, v: nat)
    requires Ok(d) && IsRehashing(d)
    ensures SmallBits(d) <= BigBits(d) && (GapFree(d, v) <==> IsOnes(ExtraBits(v, SmallBits(d), BigBits(d))))
  {
    TablesOrdered(d);
  }

  // ----- a table that shrinks during a scan

  const Lost: Key := Key(0, 4)

  /** Sixteen buckets, one entry, in bucket 4. */
  const Sparse: State := State(Table(EmptyBuckets(16)[4 := [Entry(Lost, 0)]]), Table([]), NOT_REHASHING, 0)

  /** The same dictionary after dictResize has started a migration to four buckets. */
  const Shrinking: State := State(Sparse.ht0, Table(EmptyBuckets(4)), 0, 0)

  lemma LostBucket()
    ensures IsSize(16) && IsSize(4) && Lg(16) == 4 && Lg(4) == 2
    ensures Index(Lost, 16) == 4 && Index(Lost, 4) == 0
    ensures Low(4, 2) == 0 && ExtraBits(4, 2, 4) == 1 && Pow2(2) == 4 && Pow2(4) == 16
  {
    AndOnes(4, 4);
    AndOnes(4, 2);
  }

  lemma SparseOk()
    ensures Ok(Sparse) && Get(Sparse, Lost) == Some(0) && Size(Sparse) == 1
  {
    hide And, Low, ExtraBits, Pow2, IsSize, Lg;
    LostBucket();
    EmptyBucketsOk(16);
    var t := Table(EmptyBuckets(16));
    PushOk(t, Entry(Lost, 0));
    assert [Entry(Lost, 0)] + t.buckets[4] == [Entry(Lost, 0)];
    assert FindIn(Push(t, Entry(Lost, 0)), Lost) == Some(0);
  }

  lemma ShrinkingOk()
    ensures Expand(Sparse, 4) == (Shrinking, true)
    ensures Ok(Shrinking) && Get(Shrinking, Lost) == Some(0) && Size(Shrinking) == 1
  {
    hide And, Low, ExtraBits, Pow2, IsSize, Lg, Find, TableOk, ChainOk;
    SparseOk();
    assert NextPower(4) == 4;
    ExpandOk(Sparse, 4);
  }

  /** A call with two tables emits nothing of a key whose bucket is not among those visited. */
  lemma NotEmitted(v: nat)
    requires v < Pow2(WIDTH)
    requires Low(v, 2) != 0 || ExtraBits(v, 2, 4) > 1
    ensures Ok(Shrinking)
    ensures Entry(Lost, 0) !in Emitted(Shrinking, v)
  {
    hide And, Low, ExtraBits, Pow2, Find, ChainOk, Expansions, Ok, Lg;
    ShrinkingOk();
    LostBucket();
    var d := Shrinking;
    var e := Entry(Lost, 0);
    TablesOrdered(d);
    AndOnes(v, 2);
    Decompose(v, 2);
    ExpansionsInRange(WIDTH, v, 2, 4);
    var bs := Expansions(WIDTH, v, 2, 4);
    ExpansionsExact(WIDTH, v, 2, 4, 4);
    assert 4 !in bs;
    assert forall i :: 0 <= i < |bs| ==> Big(d).buckets[bs[i]] == [];
    if e in Gather(Big(d), bs) {
      GatherOnly(Big(d), bs, e);
    }
  }

  lemma NextFrom(v: nat, k: nat, w: nat)
    requires k <= WIDTH && v < Pow2(WIDTH) && w < Pow2(k)
    requires Rev(k, v) != Ones(k) && Rev(k, w) == Rev(k, v) + 1
    ensures Ones(k) < Pow2(WIDTH) && NextCursor(WIDTH, v, Ones(k)) == w
  {
    hide Rev, Low, Ones, Pow2;
    NextCursorCounts(WIDTH, v, k);
    NextCursorMasked(WIDTH, v, k);
    var u := NextCursor(WIDTH, v, Ones(k));
    RevInjective(k, u, w);
    LowSmall(u, k);
    LowSmall(w, k);
  }

  const LossyRun: seq<State> := [Sparse, Shrinking, Shrinking, Shrinking, Shrinking]
  const LossyCursors: seq<nat> := [0, 8, 2, 1, 3, 0]

  lemma LossyCursorsOk()
    ensures Pow2(4) <= Pow2(WIDTH) && Ok(Sparse) && Ok(Shrinking)
    ensures Next(Sparse, 0) == 8 && Next(Shrinking, 8) == 2
    ensures Next(Shrinking, 2) == 1 && Next(Shrinking, 1) == 3 && Next(Shrinking, 3) == 0
  {
    hide And, Low, ExtraBits, Pow2, Find, ChainOk, Ok, Lg, NextCursor;
    Pow2Mono(4, WIDTH);
    LostBucket();
    SparseOk();
    ShrinkingOk();
    TablesOrdered(Sparse);
    TablesOrdered(Shrinking);
    assert Rev(4, 0) == 0 && Rev(4, 8) == 1 && Rev(2, 8) == 0;
    assert Rev(2, 2) == 1 && Rev(2, 1) == 2 && Rev(2, 3) == 3;
    NextFrom(0, 4, 8);
    NextFrom(8, 2, 2);
    NextFrom(2, 2, 1);
    NextFrom(1, 2, 3);
    NextPosition(WIDTH, 3, 2);
  }

  lemma FirstCallMisses()
    ensures Ok(Sparse) && 0 < Pow2(WIDTH) && Entry(Lost, 0) !in Emitted(Sparse, 0)
  {
    hide Ok, Lg;
    SparseOk();
    LostBucket();
    TablesOrdered(Sparse);
  }

  /**
   * The promise fails when the table shrinks during a scan: this scan runs from cursor 0 back to 0, the lost
   * key is present at every call, and no call emits it. The gap is the second call's: its cursor has bits
   * between the two masks.
   */
  lemma ShrinkingScanLosesAKey()
    ensures ScanFrom0(LossyRun, LossyCursors) && LossyCursors[|LossyRun|] == 0
    ensures Expand(Sparse, 4) == (Shrinking, true)
    ensures forall i :: 0 <= i < |LossyRun| ==> Get(LossyRun[i], Lost) == Some(0)
    ensures forall i :: 0 <= i < |LossyRun| ==> Entry(Lost, 0) !in Emitted(LossyRun[i], LossyCursors[i])
    ensures Ok(Shrinking) && !GapFree(Shrinking, 8)
  {
    hide And, Low, ExtraBits, Find, ChainOk, Ok, Lg, Next, Emitted, Get, Pow2;
    LossyCursorsOk();
    SparseOk();
    ShrinkingOk();
    FirstCallMisses();
    LostBucket();
    SmallBitsOk();
    NotEmitted(8);
    NotEmitted(2);
    NotEmitted(1);
    NotEmitted(3);
  }

  lemma SmallBitsOk()
    ensures ExtraBits(8, 2, 4) == 2 && Low(2, 2) == 2 && Low(1, 2) == 1 && Low(3, 2) == 3
    ensures !IsOnes(2)
  {
  }
}
