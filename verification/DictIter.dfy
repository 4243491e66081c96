/** Safe iterators: dictNext, and what an iteration returns while the dictionary is being used. */
module DictIter {
  import opened Bits
  import opened DictModel
  import opened DictOps

  /** Entries are named by their keys; an entry that has been freed keeps its name. */
  datatype Iter = Iter(table: nat, index: int, entry: Option<Key>, nextEntry: Option<Key>)

  const Fresh: Iter := Iter(0, -1, None, None)

  function TableOf(d: State, t: nat): Table {
    if t == 0 then d.ht0 else d.ht1
  }

  /** The part of a chain from the entry with the given key on; nothing for a null pointer. */
  function From(c: Chain, k: Option<Key>): Chain {
    if k.None? || c == [] then [] else if c[0].key == k.value then c else From(c[1..], k)
  }

  /** Walk to the next entry: first along the chain, then from bucket to bucket, then to the second table. */
  function Walk(d: State, t: nat, i: nat, rest: Chain): (Iter, Option<Entry>)
    requires i <= |TableOf(d, t).buckets|
    decreases if t == 0 then 1 else 0, |TableOf(d, t).buckets| - i
  {
    if rest != [] then
      (Iter(t, i, Some(rest[0].key), if |rest| > 1 then Some(rest[1].key) else None), Some(rest[0]))
    else if i + 1 < |TableOf(d, t).buckets| then
      Walk(d, t, i + 1, TableOf(d, t).buckets[i + 1])
    else if IsRehashing(d) && t == 0 && d.ht1.buckets != [] then
      Walk(d, 1, 0, d.ht1.buckets[0])
    else (Iter(t, i + 1, None, None), None)
  }

  /** dictNext on an iterator that has been started. */
  function Next(d: State, it: Iter): (Iter, Option<Entry>)
    requires Valid(d, it)
  {
    if it.index == -1 then
      if |d.ht0.buckets| > 0 then Walk(d, 0, 0, d.ht0.buckets[0]) else (Iter(0, 0, None, None), None)
    else
      Walk(d, it.table, it.index, From(TableOf(d, it.table).buckets[it.index], it.nextEntry))
  }

  /** The iterator points into the dictionary: its saved next entry, if any, is in its bucket. */
  predicate Valid(d: State, it: Iter) {
    && it.table <= 1 && -1 <= it.index < |TableOf(d, it.table).buckets|
    && (it.index == -1 ==> it.table == 0 && it.nextEntry == None && it.entry == None)
    && (it.index >= 0 && it.nextEntry.Some? ==>
          Find(TableOf(d, it.table).buckets[it.index], it.nextEntry.value).Some?)
  }

  /** The key x is still to be returned. */
  ghost predicate Ahead(d: State, it: Iter, x: Key)
    requires Ok(d) && Valid(d, it)
  {
    || (FindIn(TableOf(d, it.table), x).Some? &&
         var i := Index(x, |TableOf(d, it.table).buckets|);
         it.index < i || (it.index == i && Find(From(TableOf(d, it.table).buckets[i], it.nextEntry), x).Some?))
    || (it.table == 0 && IsRehashing(d) && FindIn(d.ht1, x).Some?)
  }

  // ----- one step

  predicate IsSuffix(r: Chain, c: Chain) {
    |r| <= |c| && r == c[|c| - |r|..]
  }

  lemma {:induction false} FromSuffix(c: Chain, k: Option<Key>)
    ensures IsSuffix(From(c, k), c)
    ensures k.Some? && Find(c, k.value).Some? ==> From(c, k) != [] && From(c, k)[0].key == k.value
  {
    if k.Some? && c != [] && c[0].key != k.value { FromSuffix(c[1..], k); }
  }

  lemma {:induction false} FromTail(c: Chain, r: Chain, i: nat, size: nat)
    requires size > 0 && ChainOk(c, i, size) && IsSuffix(r, c) && r != []
    ensures From(c, Some(r[0].key)) == r
    ensures |r| > 1 ==> From(c, Some(r[1].key)) == r[1..] && Find(c, r[1].key).Some?
  {
    NotFound(c, r[0].key);
    if |r| < |c| {
      assert c[|c| - |r|] == r[0];
      assert r == c[1..][|c[1..]| - |r|..];
      assert ChainOk(c[1..], i, size);
      FromTail(c[1..], r, i, size);
    } else if |r| > 1 {
      assert From(c[1..], Some(r[1].key)) == c[1..];
    }
  }

  lemma {:induction false} SuffixFind(r: Chain, c: Chain, i: nat, size: nat, x: Key)
    requires size > 0 && ChainOk(c, i, size) && IsSuffix(r, c) && Find(r, x).Some?
    ensures Find(c, x) == Find(r, x)
  {
    NotFound(r, x);
    if |r| < |c| {
      assert r == c[1..][|c[1..]| - |r|..];
      assert ChainOk(c[1..], i, size);
      SuffixFind(r, c[1..], i, size, x);
      var j :| 0 <= j < |r| && r[j].key == x;
      assert c[|c| - |r| + j].key == x;
    }
  }

  /** x is in the rest of the chain of bucket i, in a later bucket, or in the table not reached yet. */
  ghost predicate Beyond(d: State, t: nat, i: nat, rest: Chain, x: Key)
    requires Ok(d) && TableOf(d, t).buckets != []
  {
    || Find(rest, x).Some?
    || (FindIn(TableOf(d, t), x).Some? && i < Index(x, |TableOf(d, t).buckets|))
    || (t == 0 && IsRehashing(d) && FindIn(d.ht1, x).Some?)
  }

  lemma AheadIsBeyond(d: State, it: Iter, x: Key)
    requires Ok(d) && Valid(d, it) && it.index >= 0
    ensures var c := TableOf(d, it.table).buckets[it.index];
      Ahead(d, it, x) <==> Beyond(d, it.table, it.index, From(c, it.nextEntry), x)
  {
    var b := TableOf(d, it.table).buckets;
    var r := From(b[it.index], it.nextEntry);
    FromSuffix(b[it.index], it.nextEntry);
    IndexInRange(x, |b|);
    if Find(r, x).Some? {
      SuffixFind(r, b[it.index], it.index, |b|, x);
      FindIndex(b[it.index], it.index, |b|, x);
    }
  }

  lemma WalkStay(d: State, t: nat, i: nat, rest: Chain)
    requires Ok(d) && t <= 1 && i < |TableOf(d, t).buckets|
    requires IsSuffix(rest, TableOf(d, t).buckets[i]) && rest != []
    ensures var (it, e) := Walk(d, t, i, rest);
      && Valid(d, it) && Get(d, rest[0].key) == Some(rest[0].val)
      && Beyond(d, t, i, rest, rest[0].key)
      && forall x :: Ahead(d, it, x) <==> Beyond(d, t, i, rest, x) && x != rest[0].key
  {
    var b, c := TableOf(d, t).buckets, TableOf(d, t).buckets[i];
    var k := rest[0].key;
    FromTail(c, rest, i, |b|);
    SuffixFind(rest, c, i, |b|, k);
    FindIndex(c, i, |b|, k);
    IndexInRange(k, |b|);
    assert FindIn(TableOf(d, t), k) == Some(rest[0].val);
    var it := Walk(d, t, i, rest).0;
    NotFound(rest[1..], k);
    assert forall j {:trigger rest[1..][j]} :: 0 <= j < |rest[1..]| ==> rest[1..][j] == c[|c| - |rest| + 1 + j];
    assert c[|c| - |rest|] == rest[0];
    assert Find(rest[1..], k).None?;
    forall x ensures Ahead(d, it, x) <==> Beyond(d, t, i, rest, x) && x != k {
      AheadIsBeyond(d, it, x);
      assert From(c, it.nextEntry) == rest[1..];
    }
  }

  lemma EmptyBucketBeyond(d: State, t: nat, i: nat, x: Key)
    requires Ok(d) && t <= 1 && i < |TableOf(d, t).buckets|
    ensures i + 1 < |TableOf(d, t).buckets| ==>
      (Beyond(d, t, i, [], x) <==> Beyond(d, t, i + 1, TableOf(d, t).buckets[i + 1], x))
    ensures i + 1 == |TableOf(d, t).buckets| && IsRehashing(d) && t == 0 ==>
      (Beyond(d, 0, i, [], x) <==> Beyond(d, 1, 0, d.ht1.buckets[0], x))
    ensures i + 1 == |TableOf(d, t).buckets| && !(IsRehashing(d) && t == 0) ==> !Beyond(d, t, i, [], x)
  {
    var b := TableOf(d, t).buckets;
    IndexInRange(x, |b|);
    if i + 1 < |b| && Find(b[i + 1], x).Some? {
      FindIndex(b[i + 1], i + 1, |b|, x);
    }
    if IsRehashing(d) {
      IndexInRange(x, |d.ht1.buckets|);
      if Find(d.ht1.buckets[0], x).Some? { FindIndex(d.ht1.buckets[0], 0, |d.ht1.buckets|, x); }
    }
  }

  /** The walk returns some entry that lies beyond its starting point if there is one, and goes just past it. */
  lemma {:induction false} WalkOk(d: State, t: nat, i: nat, rest: Chain)
    requires Ok(d) && t <= 1 && i < |TableOf(d, t).buckets|
    requires IsSuffix(rest, TableOf(d, t).buckets[i])
    ensures var (it, e) := Walk(d, t, i, rest);
      && (e.None? ==> forall x :: !Beyond(d, t, i, rest, x))
      && (e.Some? ==>
          && Valid(d, it) && Get(d, e.value.key) == Some(e.value.val)
          && it.index >= 0 && it.entry == Some(e.value.key)
          && Beyond(d, t, i, rest, e.value.key)
          && forall x :: Ahead(d, it, x) <==> Beyond(d, t, i, rest, x) && x != e.value.key)
    decreases if t == 0 then 1 else 0, |TableOf(d, t).buckets| - i
  {
    hide Beyond, Ahead, Ok, Get, Find, FindIn;
    RehashingHasTables(d);
    if rest != [] {
      WalkStay(d, t, i, rest);
    } else {
      var b := TableOf(d, t).buckets;
      assert rest == [];
      if i + 1 < |b| {
        WalkOk(d, t, i + 1, b[i + 1]);
        assert Walk(d, t, i, rest) == Walk(d, t, i + 1, b[i + 1]);
        forall x
          ensures Beyond(d, t, i, rest, x) <==> Beyond(d, t, i + 1, b[i + 1], x)
        {
          EmptyBucketBeyond(d, t, i, x);
        }
      } else if IsRehashing(d) && t == 0 {
        WalkOk(d, 1, 0, d.ht1.buckets[0]);
        assert Walk(d, t, i, rest) == Walk(d, 1, 0, d.ht1.buckets[0]);
        forall x
          ensures Beyond(d, t, i, rest, x) <==> Beyond(d, 1, 0, d.ht1.buckets[0], x)
        {
          EmptyBucketBeyond(d, t, i, x);
        }
      } else {
        forall x ensures !Beyond(d, t, i, rest, x) { EmptyBucketBeyond(d, t, i, x); }
      }
    }
  }

  lemma RehashingHasTables(d: State)
    requires Ok(d)
    ensures IsRehashing(d) ==> d.ht0.buckets != [] && d.ht1.buckets != []
  {
  }

  /**
   * dictNext returns a key that was ahead, with its current value, and afterwards exactly the other ones are
   * ahead; it returns nothing only when nothing is ahead.
   */
  lemma NextOk(d: State, it: Iter)
    requires Ok(d) && Valid(d, it)
    ensures var (it', e) := Next(d, it);
      && (e.None? ==> forall x :: !Ahead(d, it, x))
      && (e.Some? ==>
          && Valid(d, it') && it'.index >= 0 && it'.entry == Some(e.value.key)
          && Get(d, e.value.key) == Some(e.value.val)
          && Ahead(d, it, e.value.key)
          && forall x :: Ahead(d, it', x) <==> Ahead(d, it, x) && x != e.value.key)
  {
    var t := it.table;
    if it.index >= 0 {
      var c := TableOf(d, t).buckets[it.index];
      FromSuffix(c, it.nextEntry);
      WalkOk(d, t, it.index, From(c, it.nextEntry));
      forall x { AheadIsBeyond(d, it, x); }
    } else if d.ht0.buckets != [] {
      WalkOk(d, 0, 0, d.ht0.buckets[0]);
      forall x ensures Ahead(d, it, x) <==> Beyond(d, 0, 0, d.ht0.buckets[0], x) {
        IndexInRange(x, |d.ht0.buckets|);
        if Find(d.ht0.buckets[0], x).Some? { FindIndex(d.ht0.buckets[0], 0, |d.ht0.buckets|, x); }
      }
    }
  }

  // ----- whole iterations

  datatype Act =
    | TakeNext
    | AddKey(k: Key, v: Value, canResize: bool)
    | ReplaceKey(k: Key, v: Value, canResize: bool)
    | LookUpKey(k: Key)
    | DropKey(k: Key)
    | ResizeTo(size: nat)

  /** The dictionary, the iterator, the keys returned so far, and whether the end has been reported. */
  datatype Walked = Walked(d: State, it: Iter, out: seq<Key>, done: bool)

  ghost predicate RunOk(s: Walked) {
    Ok(s.d) && s.d.iterators > 0 && (!s.done ==> Valid(s.d, s.it))
  }

  /**
   * Any entry may be deleted except the one the iterator has saved as its next: only the last one returned is
   * safe for sure.
   */
  ghost predicate Allowed(s: Walked, a: Act)
    requires RunOk(s)
  {
    && !s.done
    && (a.AddKey? || a.ReplaceKey? ==> 2 * Size(s.d) <= SIZE_LIMIT)
    && (a.ResizeTo? ==> a.size <= SIZE_LIMIT)
    && (a.DropKey? ==> s.it.nextEntry != Some(a.k))
  }

  ghost function Act1(s: Walked, a: Act): Walked
    requires RunOk(s) && Allowed(s, a)
  {
    match a
    case TakeNext =>
      var (it', e) := Next(s.d, s.it);
      if e.Some? then Walked(s.d, it', s.out + [e.value.key], false) else Walked(s.d, s.it, s.out, true)
    case AddKey(k, v, canResize) => s.(d := Add(s.d, k, v, canResize).0)
    case ReplaceKey(k, v, canResize) => s.(d := Replace(s.d, k, v, canResize).0)
    case LookUpKey(k) => s.(d := FindOp(s.d, k).0)
    case DropKey(k) => s.(d := Delete(s.d, k).0)
    case ResizeTo(size) => s.(d := Expand(s.d, size).0)
  }

  lemma {:induction false} FromRemove(c: Chain, n: Option<Key>, k: Key, x: Key)
    requires n != Some(k) && x != k
    ensures Find(From(Remove(c, k), n), x) == Find(From(c, n), x)
  {
    if n.Some? && c != [] {
      if c[0].key == k {
      } else if c[0].key == n.value {
        RemoveFind(c, k, x);
        assert Remove(c, k)[0] == c[0];
      } else {
        FromRemove(c[1..], n, k, x);
        assert Remove(c, k)[1..] == Remove(c[1..], k);
      }
    }
  }

  lemma DropKeepsAhead(d: State, it: Iter, k: Key, x: Key)
    requires Ok(d) && Valid(d, it) && d.iterators > 0 && it.nextEntry != Some(k) && x != k
    ensures Ok(Delete(d, k).0) && Valid(Delete(d, k).0, it)
    ensures Ahead(Delete(d, k).0, it, x) <==> Ahead(d, it, x)
  {
    DeleteOk(d, k);
    var d' := Delete(d, k).0;
    if Get(d, k).Some? && d.ht0.buckets != [] {
      var t := if FindIn(d.ht0, k).Some? then 0 else 1;
      var b := TableOf(d, t).buckets;
      RemoveFromOk(TableOf(d, t), k);
      IndexInRange(k, |b|);
      var i := Index(k, |b|);
      if it.table == t && it.index == i {
        FromRemove(b[i], it.nextEntry, k, x);
        if it.nextEntry.Some? { RemoveFind(b[i], k, it.nextEntry.value); }
      }
    }
  }

  lemma PushKeepsAhead(d: State, it: Iter, e: Entry, x: Key)
    requires Ok(d) && Valid(d, it) && d.ht0.buckets != [] && Get(d, e.key) == None && x != e.key
    ensures Target(d).buckets != [] && Ok(PushEntry(d, e)) && Valid(PushEntry(d, e), it)
    ensures Ahead(PushEntry(d, e), it, x) <==> Ahead(d, it, x)
  {
    PushEntryOk(d, e);
    PushOk(Target(d), e);
    var b := Target(d).buckets;
    IndexInRange(e.key, |b|);
    var i := Index(e.key, |b|);
    assert ([e] + b[i])[1..] == b[i];
    NotFound(b[i], e.key);
    if it.nextEntry == Some(e.key) && it.index >= 0 {
      var t := TableOf(d, it.table);
      FindIndex(t.buckets[it.index], it.index, |t.buckets|, e.key);
    }
  }

  lemma ResizeKeepsAhead(d: State, it: Iter, size: nat, x: Key)
    requires Ok(d) && Valid(d, it) && size <= SIZE_LIMIT
    ensures Ok(Expand(d, size).0) && Valid(Expand(d, size).0, it)
    ensures Ahead(Expand(d, size).0, it, x) <==> Ahead(d, it, x)
  {
    ExpandOk(d, size);
    var d' := Expand(d, size).0;
    if d' != d {
      NextPowerOk(size);
      EmptyTable(if IsRehashing(d') then d'.ht1 else d'.ht0, x);
    }
  }

  lemma ExpandKeepsAhead(d: State, it: Iter, canResize: bool, x: Key)
    requires Ok(d) && Valid(d, it) && 2 * Used(d.ht0.buckets) <= SIZE_LIMIT
    ensures Ok(ExpandIfNeeded(d, canResize).0) && Valid(ExpandIfNeeded(d, canResize).0, it)
    ensures Ahead(ExpandIfNeeded(d, canResize).0, it, x) <==> Ahead(d, it, x)
  {
    ExpandIfNeededOk(d, canResize);
    ResizeKeepsAhead(d, it, INITIAL_SIZE, x);
    ResizeKeepsAhead(d, it, 2 * Used(d.ht0.buckets), x);
  }

  lemma AddKeepsAhead(d: State, it: Iter, k: Key, v: Value, canResize: bool, x: Key)
    requires Ok(d) && Valid(d, it) && d.iterators > 0 && 2 * Size(d) <= SIZE_LIMIT
    requires x != k || Get(d, k).Some?
    ensures Ok(Add(d, k, v, canResize).0) && Valid(Add(d, k, v, canResize).0, it)
    ensures Ahead(Add(d, k, v, canResize).0, it, x) <==> Ahead(d, it, x)
  {
    hide Ahead, Valid, FindIn, Used;
    AddOk(d, k, v, canResize);
    ExpandIfNeededOk(d, canResize);
    ExpandKeepsAhead(d, it, canResize, x);
    var d2 := ExpandIfNeeded(d, canResize).0;
    if Get(d2, k) == None { PushKeepsAhead(d2, it, Entry(k, v), x); }
  }

  lemma {:induction false} FromSetVal(c: Chain, k: Key, v: Value, n: Option<Key>, x: Key)
    ensures Find(From(SetVal(c, k, v), n), x).Some? <==> Find(From(c, n), x).Some?
  {
    if n.Some? && c != [] {
      if c[0].key == n.value {
        SetValOk(c, k, v);
      } else {
        FromSetVal(c[1..], k, v, n, x);
      }
    }
  }

  lemma SetInKeeps(t: Table, k: Key, v: Value, j: nat, n: Option<Key>, x: Key)
    requires TableOk(t) && t.buckets != [] && FindIn(t, k).Some?
    ensures TableOk(SetIn(t, k, v)) && |SetIn(t, k, v).buckets| == |t.buckets|
    ensures FindIn(SetIn(t, k, v), x).Some? <==> FindIn(t, x).Some?
    ensures j < |t.buckets| ==>
        (Find(From(SetIn(t, k, v).buckets[j], n), x).Some? <==> Find(From(t.buckets[j], n), x).Some?)
    ensures j < |t.buckets| && n.Some? ==>
        (Find(SetIn(t, k, v).buckets[j], n.value).Some? <==> Find(t.buckets[j], n.value).Some?)
  {
    SetInOk(t, k, v);
    IndexInRange(k, |t.buckets|);
    if j == Index(k, |t.buckets|) {
      FromSetVal(t.buckets[j], k, v, n, x);
      SetValOk(t.buckets[j], k, v);
    }
  }

  lemma OverwriteKeepsAhead(d: State, it: Iter, k: Key, v: Value, x: Key)
    requires Ok(d) && Valid(d, it) && Get(d, k).Some?
    ensures Ok(Overwrite(d, k, v)) && Valid(Overwrite(d, k, v), it)
    ensures Ahead(Overwrite(d, k, v), it, x) <==> Ahead(d, it, x)
  {
    OverwriteOk(d, k, v);
    var t := if FindIn(d.ht0, k).Some? then d.ht0 else d.ht1;
    SetInKeeps(t, k, v, if it.index < 0 then 0 else it.index, it.nextEntry, x);
    if |t.buckets| > 0 { SetInKeeps(t, k, v, Index(x, |t.buckets|), it.nextEntry, x); }
    hide Ok, TableOk, FindIn, Find, From, SetVal, SetIn, Used, Index;
  }

  lemma ReplaceKeepsAhead(d: State, it: Iter, k: Key, v: Value, canResize: bool, x: Key)
    requires Ok(d) && Valid(d, it) && d.iterators > 0 && 2 * Size(d) <= SIZE_LIMIT
    requires x != k || Get(d, k).Some?
    ensures Ok(Replace(d, k, v, canResize).0) && Valid(Replace(d, k, v, canResize).0, it)
    ensures Ahead(Replace(d, k, v, canResize).0, it, x) <==> Ahead(d, it, x)
  {
    hide Ahead, Valid, FindIn, Used, Add, Overwrite, FindOp;
    ReplaceOk(d, k, v, canResize);
    AddOk(d, k, v, canResize);
    AddKeepsAhead(d, it, k, v, canResize, x);
    var (d1, added) := Add(d, k, v, canResize);
    if !added {
      LookUpKeeps(d1, k);
      OverwriteKeepsAhead(d1, it, k, v, x);
    }
  }

  function Times(out: seq<Key>, k: Key): nat {
    multiset(out)[k]
  }

  /** A key that is present has been returned once if it is no longer ahead, and not at all if it is. */
  ghost predicate Accounted(s: Walked, k: Key)
    requires RunOk(s)
  {
    Get(s.d, k).Some? && Times(s.out, k) == if !s.done && Ahead(s.d, s.it, k) then 0 else 1
  }

  lemma ActKeeps(s: Walked, a: Act, k: Key)
    requires RunOk(s) && Allowed(s, a) && Accounted(s, k)
    requires a != DropKey(k)
    ensures RunOk(Act1(s, a)) && Accounted(Act1(s, a), k)
  {
    hide Ahead, Valid, FindIn, Used, Add, Replace, Delete, FindOp, Next;
    match a
    case TakeNext =>
      NextOk(s.d, s.it);
      var (it', e) := Next(s.d, s.it);
      if e.Some? { assert multiset(s.out + [e.value.key]) == multiset(s.out) + multiset{e.value.key}; }
    case AddKey(x, v, canResize) =>
      AddOk(s.d, x, v, canResize);
      AddKeepsAhead(s.d, s.it, x, v, canResize, k);
    case ReplaceKey(x, v, canResize) =>
      ReplaceOk(s.d, x, v, canResize);
      ReplaceKeepsAhead(s.d, s.it, x, v, canResize, k);
    case LookUpKey(x) =>
      FindOk(s.d, x);
      LookUpKeeps(s.d, x);
    case DropKey(x) =>
      DeleteOk(s.d, x);
      DropKeepsAhead(s.d, s.it, x, k);
    case ResizeTo(size) =>
      ExpandOk(s.d, size);
      ResizeKeepsAhead(s.d, s.it, size, k);
  }

  lemma LookUpKeeps(d: State, x: Key)
    requires Ok(d) && d.iterators > 0
    ensures FindOp(d, x).0 == d
  {
  }

  /** The state after a sequence of acts, all of them allowed. */
  ghost predicate Run(s: Walked, acts: seq<Act>, r: Walked)
    decreases |acts|
  {
    RunOk(s) && if acts == [] then s == r else Allowed(s, acts[0]) && Run(Act1(s, acts[0]), acts[1..], r)
  }

  lemma {:induction false} RunKeeps(s: Walked, acts: seq<Act>, r: Walked, k: Key)
    requires Run(s, acts, r) && Accounted(s, k) && DropKey(k) !in acts
    ensures RunOk(r) && Accounted(r, k)
    decreases |acts|
  {
    hide Accounted, Act1, Allowed, RunOk;
    if acts != [] {
      ActKeeps(s, acts[0], k);
      RunKeeps(Act1(s, acts[0]), acts[1..], r, k);
    }
  }

  /**
   * Safe iteration: from the first dictNext to the one that reports the end, with additions, replacements, lookups,
   * deletions and resizes in between, a key that is there from the start and is not deleted is returned exactly once.
   */
  lemma SafeIteration(d: State, acts: seq<Act>, r: Walked, k: Key)
    requires Ok(d) && d.iterators > 0 && Get(d, k).Some?
    requires Run(Walked(d, Fresh, [], false), acts, r) && r.done
    requires DropKey(k) !in acts
    ensures Times(r.out, k) == 1
  {
    var s := Walked(d, Fresh, [], false);
    assert Accounted(s, k);
    RunKeeps(s, acts, r, k);
  }
}
