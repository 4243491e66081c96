/** Safe iteration in the heap: an iterator and a dictionary that is used while it is open. */
module DictSafe {
  import opened DictModel
  import opened DictOps
  import opened DictIter
  import opened DictHeap

  /** The iterator and its dictionary are where the run of values has come to. */
  ghost predicate Coupled(it: SafeIterator, s: Walked)
    reads it, it.d, it.d.Repr
  {
    && it.d.Valid() && it !in it.d.Repr && it.d.st == s.d && RunOk(s) && it.index >= 0
    && (!s.done ==> it.Valid() && it.Position() == s.it)
  }

  /** What the iterator needs of the dictionary after an operation that keeps the entry it has saved. */
  lemma StaysValid(it: SafeIterator, a0: seq<seq<Node>>, a1: seq<seq<Node>>, gone: Option<Key>)
    requires it.d.Valid() && it !in it.d.Repr && DictIter.Valid(it.d.st, it.Position())
    requires it.index >= 0 && it.entry != null
    requires Kept(a0, it.d.chains0, gone) && Kept(a1, it.d.chains1, gone)
    requires it.nextEntry != null ==>
      && gone != Some(it.nextEntry.key)
      && var a := if it.table == 0 then a0 else a1; it.index < |a| && it.nextEntry in a[it.index]
    ensures it.Valid()
  {
  }

  lemma OpenCoupled(it: SafeIterator, s: Walked)
    requires Coupled(it, s) && !s.done
    ensures
      && it.d.Valid() && it !in it.d.Repr && it.d.st == s.d && RunOk(s) && it.Valid()
      && it.Position() == s.it && it.index >= 0
    ensures it.d.iterators == s.d.iterators > 0 && Ok(s.d) && DictIter.Valid(s.d, s.it) && it.entry != null
    ensures s.it == Iter(it.table, it.index, KeyOf(it.entry), KeyOf(it.nextEntry))
    ensures it.nextEntry != null ==>
      && s.it.nextEntry == Some(it.nextEntry.key)
      && var a := if it.table == 0 then it.d.chains0 else it.d.chains1; it.index < |a| && it.nextEntry in a[it.index]
  {
  }

  lemma MakeCoupled(it: SafeIterator, s: Walked)
    requires it.d.Valid() && it !in it.d.Repr && it.d.st == s.d && RunOk(s) && it.index >= 0
    requires !s.done ==> it.Valid() && it.Position() == s.it
    ensures Coupled(it, s)
  {
  }

  lemma CloseCoupled(it: SafeIterator, s: Walked)
    requires Coupled(it, s)
    ensures it.d.Valid() && it !in it.d.Repr && it.index >= 0 && it.d.iterators == s.d.iterators && it.d.st == s.d
  {
  }

  lemma ActIs(s: Walked, a: Act)
    requires RunOk(s) && Allowed(s, a)
    ensures a.TakeNext? && DictIter.Next(s.d, s.it).1.None? ==> Act1(s, a) == Walked(s.d, s.it, s.out, true)
    ensures a.TakeNext? && DictIter.Next(s.d, s.it).1.Some? ==>
      Act1(s, a) == Walked(s.d, DictIter.Next(s.d, s.it).0, s.out + [DictIter.Next(s.d, s.it).1.value.key], false)
    ensures
      a.AddKey? ==> Act1(s, a) == s.(d := DictOps.Add(s.d, a.k, a.v, a.canResize).0) && 2 * Size(s.d) <= SIZE_LIMIT
    ensures a.ReplaceKey? ==>
      Act1(s, a) == s.(d := DictOps.Replace(s.d, a.k, a.v, a.canResize).0) && 2 * Size(s.d) <= SIZE_LIMIT
    ensures a.LookUpKey? ==> Act1(s, a) == s.(d := FindOp(s.d, a.k).0)
    ensures a.ResizeTo? ==> Act1(s, a) == s.(d := DictOps.Expand(s.d, a.size).0) && a.size <= SIZE_LIMIT
    ensures a.DropKey? ==> Act1(s, a) == s.(d := DictOps.Delete(s.d, a.k).0) && s.it.nextEntry != Some(a.k)
    ensures !s.done
  {
  }

  /** An allowed act keeps a run going. */
  lemma ActRunOk(s: Walked, a: Act)
    requires RunOk(s) && Allowed(s, a)
    ensures RunOk(Act1(s, a)) && Act1(s, a).d.iterators == s.d.iterators
  {
    hide Ahead;
    match a
    case TakeNext => NextOk(s.d, s.it);
    case AddKey(k, v, canResize) =>
      AddOk(s.d, k, v, canResize);
      AddKeepsAhead(s.d, s.it, k, v, canResize, Key(k.id + 1, 0));
    case ReplaceKey(k, v, canResize) =>
      ReplaceOk(s.d, k, v, canResize);
      ReplaceKeepsAhead(s.d, s.it, k, v, canResize, Key(k.id + 1, 0));
    case LookUpKey(k) => LookUpKeeps(s.d, k);
    case DropKey(k) =>
      DeleteOk(s.d, k);
      DropKeepsAhead(s.d, s.it, k, Key(k.id + 1, 0));
    case ResizeTo(size) =>
      ExpandOk(s.d, size);
      ResizeKeepsAhead(s.d, s.it, size, Key(0, 0));
  }

  lemma RunOkParts(s: Walked)
    requires RunOk(s)
    ensures Ok(s.d) && s.d.iterators > 0 && (!s.done ==> DictIter.Valid(s.d, s.it))
  {
  }

  lemma EntryIs(e: Node?)
    ensures EntryOf(e) == if e == null then None else Some(Entry(e.key, e.val))
  {
  }

  lemma RunOkNext(s: Walked, r: Walked)
    requires
      && RunOk(s) && !s.done && DictIter.Next(s.d, s.it).1.Some?
      && r == Walked(s.d, DictIter.Next(s.d, s.it).0, r.out, false)
    ensures RunOk(r) && DictIter.Next(s.d, s.it).0.index >= 0
  {
    NextOk(s.d, s.it);
  }

  /** One act on the dictionary in the heap, while its safe iterator is open. */
  method Perform(it: SafeIterator, a: Act, ghost s: Walked) returns (e: Node?)
    requires Coupled(it, s) && RunOk(s) && Allowed(s, a)
    modifies it, it.d, it.d.Repr
    ensures Coupled(it, Act1(s, a)) && fresh(it.d.Repr - old(it.d.Repr))
    ensures Act1(s, a).out == s.out + if a.TakeNext? && e != null then [e.key] else []
    ensures Act1(s, a).done <==> a.TakeNext? && e == null
  {
    hide *;
    ActIs(s, a);
    ActRunOk(s, a);
    OpenCoupled(it, s);
    RunOkParts(Act1(s, a));
    ghost var a0, a1 := it.d.chains0, it.d.chains1;
    e := null;
    match a {
      case TakeNext =>
        e := it.Next();
        EntryIs(e);
        if e != null { RunOkNext(s, Act1(s, a)); }
      case AddKey(k, v, canResize) =>
        var added := it.d.Add(k, v, canResize);
        StaysValid(it, a0, a1, None);
      case ReplaceKey(k, v, canResize) =>
        var added := it.d.Replace(k, v, canResize);
        StaysValid(it, a0, a1, None);
      case LookUpKey(k) =>
        var found := it.d.Find(k);
        KeptSame(a0, None);
        KeptSame(a1, None);
        StaysValid(it, a0, a1, None);
      case DropKey(k) =>
        var deleted := it.d.Delete(k);
        StaysValid(it, a0, a1, Some(k));
      case ResizeTo(size) =>
        var ok := it.d.Expand(size);
        StaysValid(it, a0, a1, None);
    }
    MakeCoupled(it, Act1(s, a));
  }

  /** Everything the acts ask for is granted along the run from s. */
  ghost predicate CanRun(s: Walked, acts: seq<Act>)
    decreases |acts|
  {
    RunOk(s) && (acts == [] || (Allowed(s, acts[0]) && CanRun(Act1(s, acts[0]), acts[1..])))
  }

  ghost function RunOf(s: Walked, acts: seq<Act>): (r: Walked)
    requires CanRun(s, acts)
    ensures Run(s, acts, r)
    decreases |acts|
  {
    if acts == [] then s else RunOf(Act1(s, acts[0]), acts[1..])
  }

  lemma RunStep(s: Walked, acts: seq<Act>)
    requires CanRun(s, acts)
    ensures RunOk(s)
    ensures acts == [] ==> RunOf(s, acts) == s
    ensures acts != [] ==>
        && Allowed(s, acts[0]) && CanRun(Act1(s, acts[0]), acts[1..])
        && RunOf(s, acts) == RunOf(Act1(s, acts[0]), acts[1..])
  {
  }

  /** The state a safe iteration starts from: the first dictNext counts the iterator. */
  function Started(d: State): Walked {
    Walked(d.(iterators := d.iterators + 1), Fresh, [], false)
  }

  lemma StartedOk(d: State)
    requires Ok(d) && d.iterators >= 0
    ensures RunOk(Started(d))
    ensures DictIter.Valid(d, Fresh) && DictIter.Next(Started(d).d, Fresh) == DictIter.Next(d, Fresh)
    ensures Allowed(Started(d), TakeNext)
  {
    IteratorsIrrelevant(d, Started(d).d);
    NextUnfold(d, Fresh);
    NextUnfold(Started(d).d, Fresh);
  }

  lemma FreshIs(it: SafeIterator)
    requires it.Position() == Fresh
    ensures it.index == -1 && it.table == 0
  {
  }

  lemma IteratorFresh(it: SafeIterator)
    requires it.d.Valid() && it !in it.d.Repr && it.Position() == Fresh && it.nextEntry == null
    ensures it.Valid() && Ok(it.d.st)
  {
  }

  /** dictNext on an iterator just obtained. */
  method Begin(it: SafeIterator) returns (e: Node?)
    requires it.d.Valid() && it !in it.d.Repr && it.Position() == Fresh && it.nextEntry == null && it.d.iterators >= 0
    modifies it, it.d
    ensures Ok(old(it.d.st)) && RunOk(Started(old(it.d.st))) && Allowed(Started(old(it.d.st)), TakeNext)
    ensures Coupled(it, Act1(Started(old(it.d.st)), TakeNext)) && it.d.Repr == old(it.d.Repr)
    ensures Act1(Started(old(it.d.st)), TakeNext).out == if e != null then [e.key] else []
    ensures Act1(Started(old(it.d.st)), TakeNext).done <==> e == null
  {
    IteratorFresh(it);
    it.d.Opened();
    StartedOk(it.d.st);
    hide *;
    ghost var s := Started(it.d.st);
    ActIs(s, TakeNext);
    ActRunOk(s, TakeNext);
    FreshIs(it);
    e := it.Next();
    EntryIs(e);
    MakeCoupled(it, Act1(s, TakeNext));
  }

  lemma {:induction false} RunIterators(s: Walked, acts: seq<Act>)
    requires CanRun(s, acts)
    ensures RunOf(s, acts).d.iterators == s.d.iterators
    decreases |acts|
  {
    if acts != [] {
      ActRunOk(s, acts[0]);
      RunIterators(Act1(s, acts[0]), acts[1..]);
    }
  }

  /** The acts one after the other. */
  method PerformAll(it: SafeIterator, acts: seq<Act>, ghost s0: Walked) returns (out: seq<Key>, done: bool)
    requires Coupled(it, s0) && CanRun(s0, acts) && !s0.done
    modifies it, it.d, it.d.Repr
    ensures Coupled(it, RunOf(s0, acts)) && fresh(it.d.Repr - old(it.d.Repr))
    ensures RunOf(s0, acts).out == s0.out + out && RunOf(s0, acts).done == done
  {
    hide *;
    ghost var s, R := s0, it.d.Repr;
    out, done := [], false;
    var i := 0;
    assert acts[0..] == acts;
    while i < |acts|
      invariant 0 <= i <= |acts| && Coupled(it, s) && CanRun(s, acts[i..]) && RunOf(s, acts[i..]) == RunOf(s0, acts)
      invariant s.out == s0.out + out && s.done == done && fresh(it.d.Repr - R)
    {
      RunStep(s, acts[i..]);
      assert acts[i..][0] == acts[i] && acts[i..][1..] == acts[i + 1..];
      var e := Perform(it, acts[i], s);
      s := Act1(s, acts[i]);
      if acts[i].TakeNext? {
        if e != null {
          out := out + [e.key];
        } else {
          done := true;
        }
      }
      i := i + 1;
    }
    RunStep(s, acts[i..]);
  }

  lemma Concluded(d: State, acts: seq<Act>)
    requires
      Ok(d) && d.iterators >= 0 && CanRun(Started(d), [TakeNext] + acts) && RunOf(Started(d), [TakeNext] + acts).done
    ensures
      forall k :: Get(d, k).Some? && DropKey(k) !in acts ==> Times(RunOf(Started(d), [TakeNext] + acts).out, k) == 1
  {
    var s, all := Started(d), [TakeNext] + acts;
    assert Ok(s.d);
    hide Ok, Get, CanRun, RunOf, Run, Times;
    forall k | Get(d, k).Some? && DropKey(k) !in acts ensures Times(RunOf(s, all).out, k) == 1 {
      SameGet(d, k);
      SafeIteration(s.d, all, RunOf(s, all), k);
    }
  }

  lemma SameGet(d: State, k: Key)
    requires Ok(d)
    ensures Ok(Started(d).d) && Get(Started(d).d, k) == Get(d, k)
  {
  }

  lemma CountedOnce(d: State)
    ensures Started(d).d.iterators == d.iterators + 1
  {
  }

  lemma FirstAct(s: Walked, acts: seq<Act>)
    requires CanRun(s, [TakeNext] + acts)
    ensures RunOk(s) && Allowed(s, TakeNext) && CanRun(Act1(s, TakeNext), acts)
    ensures RunOf(s, [TakeNext] + acts) == RunOf(Act1(s, TakeNext), acts)
    ensures Act1(s, TakeNext).done ==> acts == []
  {
    assert ([TakeNext] + acts)[1..] == acts;
    if acts != [] { assert Allowed(Act1(s, TakeNext), acts[0]); }
  }

  /**
   * A dictionary is iterated with a safe iterator while keys are added, replaced, searched and deleted, and while it
   * is resized. A key that is there from the start and is not deleted is returned exactly once by the time dictNext
   * reports the end.
   */
  method SafeWalk(d: Dict, acts: seq<Act>) returns (out: seq<Key>, done: bool)
    requires d.Valid() && d.iterators >= 0
    requires CanRun(Started(d.st), [TakeNext] + acts)
    modifies d, d.Repr
    ensures d.Valid() && fresh(d.Repr - old(d.Repr)) && Ok(old(d.st))
    ensures d.iterators == old(d.iterators)
    ensures done ==> forall k :: Get(old(d.st), k).Some? && DropKey(k) !in acts ==> Times(out, k) == 1
  {
    hide *;
    ghost var d0 := d.st;
    d.Opened();
    FirstAct(Started(d0), acts);
    ghost var s1 := Act1(Started(d0), TakeNext);
    CountedOnce(d0);
    RunIterators(Started(d0), [TakeNext] + acts);
    RunStep(s1, acts);
    var it := new SafeIterator(d);
    var e := Begin(it);
    out, done := if e != null then [e.key] else [], e == null;
    if !done {
      var rest;
      rest, done := PerformAll(it, acts, s1);
      out := out + rest;
    }
    CloseCoupled(it, RunOf(s1, acts));
    it.Release();
    if done { Concluded(d0, acts); }
  }
}
