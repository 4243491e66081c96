/** The latched tree: one writer updates two copies in turn, readers search the copy that is not being changed. */
module Latch {

  // ----- search trees

  datatype Tree = Leaf | Node(left: Tree, elem: int, right: Tree)

  function Elements(t: Tree): set<int> {
    match t
    case Leaf => {}
    case Node(l, e, r) => Elements(l) + {e} + Elements(r)
  }

  predicate Ordered(t: Tree) {
    match t
    case Leaf => true
    case Node(l, e, r) =>
      Ordered(l) && Ordered(r) && (forall x :: x in Elements(l) ==> x < e) && (forall x :: x in Elements(r) ==> e < x)
  }

  // ----- updates and the set they leave

  datatype Op = Insert(elem: int) | Erase(elem: int)

  function Apply(s: set<int>, op: Op): set<int> {
    match op
    case Insert(e) => s + {e}
    case Erase(e) => s - {e}
  }

  /** The set after the first n updates of a history. */
  function SetAfter(hist: seq<Op>, n: nat): set<int>
    requires n <= |hist|
  {
    if n == 0 then {} else Apply(SetAfter(hist, n - 1), hist[n - 1])
  }

  /** An element is inserted when it is not there, and erased when it is. */
  predicate Proper(hist: seq<Op>, op: Op) {
    match op
    case Insert(e) => e !in SetAfter(hist, |hist|)
    case Erase(e) => e in SetAfter(hist, |hist|)
  }

  /** Every element of the tree was linked at some time. */
  ghost predicate AllLinked(t: Tree, hist: seq<Op>) {
    forall x :: x in Elements(t) ==> Insert(x) in hist
  }

  // ----- the protocol

  /** unsigned int seq */
  const WORD := 0x1_0000_0000

  /** Where the writer is: between updates, or at work on copy 0 or on copy 1. */
  datatype Writer = Resting | OnFirst | FirstDone | OnSecond

  /** Where a reader is in latch_tree_find; start is the value of the clock when it read the sequence word. */
  datatype Reader =
    | Away
    | Started(key: int, start: nat)
    | Walking(key: int, start: nat, cursor: Tree)
    | Finished(key: int, start: nat, found: bool)
    | Retrying(key: int)
    | Returned(key: int, start: nat, found: bool, end: nat)

  /** clock counts the latch steps; the sequence word that readers see is clock modulo WORD. */
  datatype State = State(clock: nat, copy0: Tree, copy1: Tree, writer: Writer, hist: seq<Op>, readers: map<int, Reader>)

  function Copy(s: State, i: nat): Tree {
    if i % 2 == 0 then s.copy0 else s.copy1
  }

  predicate Init(s: State) {
    && s.clock == 0 && s.copy0 == Leaf && s.copy1 == Leaf && s.writer == Resting && s.hist == []
    && forall id :: id in s.readers ==> s.readers[id] == Away
  }

  /**
   * A store into copy i reaches a reader only through the node at which it stands: that node stays the same, but
   * what hangs below it may be anything that was ever linked. A reader whose cursor is null has nothing to follow.
   */
  ghost predicate Disturbed(s: State, t: State, i: nat) {
    && t.readers.Keys == s.readers.Keys
    && forall id :: id in s.readers ==> Shaken(s.hist, s.readers[id], t.readers[id], i)
  }

  ghost predicate Shaken(hist: seq<Op>, r: Reader, q: Reader, i: nat) {
    if r.Walking? && r.cursor.Node? && r.start % 2 == i then
      && q.Walking? && q.key == r.key && q.start == r.start
      && q.cursor.Node? && q.cursor.elem == r.cursor.elem && AllLinked(q.cursor, hist)
    else
      q == r
  }

  ghost predicate Holds(t: Tree, s: set<int>) {
    Ordered(t) && Elements(t) == s
  }

  /** raw_write_seqcount_latch at the start of an update */
  ghost predicate BeginUpdate(s: State, t: State, op: Op) {
    && s.writer == Resting && Proper(s.hist, op)
    && t == s.(clock := s.clock + 1, writer := OnFirst, hist := s.hist + [op])
  }

  /** A store of __lt_insert or __lt_erase into copy 0, which may leave it torn. */
  ghost predicate WriteFirst(s: State, t: State) {
    && s.writer == OnFirst && Disturbed(s, t, 0) && t == s.(copy0 := t.copy0, readers := t.readers)
    && AllLinked(t.copy0, t.hist)
  }

  /** The last store into copy 0: it now holds the updated set. */
  ghost predicate EndFirst(s: State, t: State) {
    s.writer == OnFirst && Disturbed(s, t, 0) && t == s.(copy0 := t.copy0, readers := t.readers, writer := FirstDone)
    && Holds(t.copy0, SetAfter(t.hist, |t.hist|))
  }

  /** The second raw_write_seqcount_latch */
  ghost predicate SwitchOver(s: State, t: State) {
    s.writer == FirstDone && t == s.(clock := s.clock + 1, writer := OnSecond)
  }

  ghost predicate WriteSecond(s: State, t: State) {
    && s.writer == OnSecond && Disturbed(s, t, 1) && t == s.(copy1 := t.copy1, readers := t.readers)
    && AllLinked(t.copy1, t.hist)
  }

  ghost predicate EndSecond(s: State, t: State) {
    s.writer == OnSecond && Disturbed(s, t, 1) && t == s.(copy1 := t.copy1, readers := t.readers, writer := Resting)
    && Holds(t.copy1, SetAfter(t.hist, |t.hist|))
  }

  /** raw_read_seqcount_latch, for a new find */
  ghost predicate StartFind(s: State, t: State, id: int, key: int) {
    && id in s.readers && (s.readers[id].Away? || s.readers[id].Returned?)
    && t == s.(readers := s.readers[id := Started(key, s.clock)])
  }

  /** The root of the copy that the sequence word selects is read. */
  ghost predicate ReadRoot(s: State, t: State, id: int) {
    id in s.readers && s.readers[id].Started? &&
    var r := s.readers[id];
    t == s.(readers := s.readers[id := Walking(r.key, r.start, Copy(s, r.start))])
  }

  /** One turn of the loop of __lt_find. */
  function Walk(r: Reader): Reader
    requires r.Walking?
  {
    match r.cursor
    case Leaf => Finished(r.key, r.start, false)
    case Node(l, e, q) =>
      if r.key < e then Walking(r.key, r.start, l)
      else if r.key > e then Walking(r.key, r.start, q)
      else Finished(r.key, r.start, true)
  }

  ghost predicate WalkOn(s: State, t: State, id: int) {
    id in s.readers && s.readers[id].Walking? && t == s.(readers := s.readers[id := Walk(s.readers[id])])
  }

  /** What read_seqcount_retry decides: return when the sequence word has not changed, start over otherwise. */
  function Checked(clock: nat, r: Reader): Reader
    requires r.Finished?
  {
    if clock % WORD == r.start % WORD then Returned(r.key, r.start, r.found, clock) else Retrying(r.key)
  }

  ghost predicate Check(s: State, t: State, id: int) {
    id in s.readers && s.readers[id].Finished? && t == s.(readers := s.readers[id := Checked(s.clock, s.readers[id])])
  }

  /** raw_read_seqcount_latch, in another turn of the same find */
  ghost predicate Restart(s: State, t: State, id: int) {
    && id in s.readers && s.readers[id].Retrying?
    && t == s.(readers := s.readers[id := Started(s.readers[id].key, s.clock)])
  }

  ghost predicate WriterStep(s: State, t: State) {
    || (exists op :: BeginUpdate(s, t, op)) || WriteFirst(s, t) || EndFirst(s, t) || SwitchOver(s, t)
    || WriteSecond(s, t) || EndSecond(s, t)
  }

  ghost predicate ReaderMove(s: State, t: State, id: int, key: int) {
    StartFind(s, t, id, key) || ReadRoot(s, t, id) || WalkOn(s, t, id) || Check(s, t, id) || Restart(s, t, id)
  }

  ghost predicate ReaderStep(s: State, t: State) {
    exists id, key :: ReaderMove(s, t, id, key)
  }

  ghost predicate Next(s: State, t: State) {
    WriterStep(s, t) || ReaderStep(s, t)
  }

  ghost predicate Run(states: seq<State>) {
    && |states| > 0 && Init(states[0])
    && forall i :: 0 <= i < |states| - 1 ==> Next(states[i], states[i + 1])
  }

  // ----- the invariant

  /** The updates whose effect readers can see are those of the first clock / 2. */
  ghost predicate WriterInv(s: State) {
    match s.writer
    case Resting =>
      && s.clock == 2 * |s.hist| && Holds(s.copy0, SetAfter(s.hist, |s.hist|))
      && Holds(s.copy1, SetAfter(s.hist, |s.hist|))
    case OnFirst => |s.hist| > 0 && s.clock == 2 * |s.hist| - 1 && Holds(s.copy1, SetAfter(s.hist, |s.hist| - 1))
    case FirstDone =>
      && |s.hist| > 0 && s.clock == 2 * |s.hist| - 1 && Holds(s.copy1, SetAfter(s.hist, |s.hist| - 1))
      && Holds(s.copy0, SetAfter(s.hist, |s.hist|))
    case OnSecond => |s.hist| > 0 && s.clock == 2 * |s.hist| && Holds(s.copy0, SetAfter(s.hist, |s.hist|))
  }

  /** What a reader knows: as long as the clock stands still, its search is on track. */
  ghost predicate ReaderInv(s: State, r: Reader)
    requires s.clock / 2 <= |s.hist|
  {
    match r
    case Away => true
    case Started(key, start) => start <= s.clock
    case Walking(key, start, cursor) =>
      && start <= s.clock
      && (start == s.clock ==> Ordered(cursor) && (key in Elements(cursor) <==> key in SetAfter(s.hist, start / 2)))
    case Finished(key, start, found) =>
      start <= s.clock && (start == s.clock ==> (found <==> key in SetAfter(s.hist, start / 2)))
    case Retrying(key) => true
    case Returned(key, start, found, end) =>
      && start <= end <= s.clock && (end - start) % WORD == 0
      && (end - start < WORD ==> (found <==> key in SetAfter(s.hist, start / 2)))
  }

  ghost predicate Inv(s: State) {
    WriterInv(s) && s.clock / 2 <= |s.hist| && forall id :: id in s.readers ==> ReaderInv(s, s.readers[id])
  }

  /** The copy selected by the clock is never being written, and holds the set after clock / 2 updates. */
  lemma StableCopy(s: State)
    requires WriterInv(s)
    ensures s.clock / 2 <= |s.hist| && Holds(Copy(s, s.clock), SetAfter(s.hist, s.clock / 2))
  {
  }

  lemma {:induction false} SetAfterPrefix(hist: seq<Op>, op: Op, n: nat)
    requires n <= |hist|
    ensures SetAfter(hist + [op], n) == SetAfter(hist, n)
  {
    if n > 0 { SetAfterPrefix(hist, op, n - 1); }
  }

  /** A reader left alone keeps its invariant when only the clock and the history grow. */
  lemma ReaderWaits(s: State, t: State, r: Reader)
    requires Inv(s) && ReaderInv(s, r) && t.clock >= s.clock && t.clock / 2 <= |t.hist|
    requires t.hist == s.hist || (t.clock > s.clock && exists op :: t.hist == s.hist + [op])
    ensures ReaderInv(t, r)
  {
    if t.hist != s.hist {
      var op :| t.hist == s.hist + [op];
      if r.Returned? && r.start / 2 <= |s.hist| { SetAfterPrefix(s.hist, op, r.start / 2); }
    }
  }

  /** A store into the copy that is not selected cannot reach a reader whose clock still stands. */
  lemma ReaderDisturbed(s: State, t: State, i: nat, id: int)
    requires
      && Inv(s) && Disturbed(s, t, i) && t.clock == s.clock && t.hist == s.hist && s.clock % 2 != i
      && i < 2 && id in s.readers
    ensures id in t.readers && ReaderInv(t, t.readers[id])
  {
    assert ReaderInv(s, s.readers[id]);
  }

  lemma WriterKeeps(s: State, t: State)
    requires Inv(s) && WriterStep(s, t)
    ensures Inv(t)
  {
    if op :| BeginUpdate(s, t, op) {
      SetAfterPrefix(s.hist, op, |s.hist|);
      assert t.hist == s.hist + [op];
      forall id | id in t.readers ensures ReaderInv(t, t.readers[id]) { ReaderWaits(s, t, s.readers[id]); }
    } else if WriteFirst(s, t) || EndFirst(s, t) {
      forall id | id in t.readers ensures ReaderInv(t, t.readers[id]) { ReaderDisturbed(s, t, 0, id); }
    } else if SwitchOver(s, t) {
      forall id | id in t.readers ensures ReaderInv(t, t.readers[id]) { ReaderWaits(s, t, s.readers[id]); }
    } else {
      forall id | id in t.readers ensures ReaderInv(t, t.readers[id]) { ReaderDisturbed(s, t, 1, id); }
    }
  }

  /** In an ordered tree the key can only be on the side that the comparison points to. */
  lemma SideOnly(t: Tree, key: int)
    requires Ordered(t) && t.Node? && key != t.elem
    ensures key in Elements(t) <==> key in Elements(if key < t.elem then t.left else t.right)
  {
  }

  lemma WalkKeeps(s: State, r: Reader)
    requires s.clock / 2 <= |s.hist| && r.Walking? && ReaderInv(s, r)
    ensures ReaderInv(s, Walk(r))
  {
    if r.cursor.Node? && r.start == s.clock && r.key != r.cursor.elem { SideOnly(r.cursor, r.key); }
  }

  lemma RootKeeps(s: State, r: Reader)
    requires WriterInv(s) && s.clock / 2 <= |s.hist| && r.Started? && ReaderInv(s, r)
    ensures ReaderInv(s, Walking(r.key, r.start, Copy(s, r.start)))
  {
    StableCopy(s);
  }

  lemma CheckKeeps(s: State, r: Reader)
    requires s.clock / 2 <= |s.hist| && r.Finished? && ReaderInv(s, r)
    ensures ReaderInv(s, Checked(s.clock, r))
  {
    if s.clock % WORD == r.start % WORD {
      assert (s.clock - r.start) % WORD == 0;
    }
  }

  /** Only one reader changes, and what it becomes is fine. */
  lemma OneReader(s: State, t: State, id: int, r: Reader)
    requires Inv(s) && t == s.(readers := s.readers[id := r]) && ReaderInv(s, r)
    ensures Inv(t)
  {
    forall i | i in t.readers ensures ReaderInv(t, t.readers[i]) {
      if i != id { assert ReaderInv(s, s.readers[i]); }
    }
  }

  lemma ReaderKeeps(s: State, t: State, id: int, key: int)
    requires Inv(s) && ReaderMove(s, t, id, key)
    ensures Inv(t)
  {
    assert id in s.readers;
    var r := s.readers[id];
    assert ReaderInv(s, r);
    hide WriterInv, ReaderInv, Walk, Copy, Inv, Checked;
    Opened(s);
    if StartFind(s, t, id, key) {
      StartedFine(s, key);
      OneReader(s, t, id, Started(key, s.clock));
    } else if ReadRoot(s, t, id) {
      RootKeeps(s, r);
      OneReader(s, t, id, Walking(r.key, r.start, Copy(s, r.start)));
    } else if WalkOn(s, t, id) {
      WalkKeeps(s, r);
      OneReader(s, t, id, Walk(r));
    } else if Check(s, t, id) {
      CheckKeeps(s, r);
      OneReader(s, t, id, Checked(s.clock, r));
    } else {
      StartedFine(s, r.key);
      OneReader(s, t, id, Started(r.key, s.clock));
    }
  }

  lemma Opened(s: State)
    requires Inv(s)
    ensures WriterInv(s) && s.clock / 2 <= |s.hist|
  {
  }

  lemma StartedFine(s: State, key: int)
    requires s.clock / 2 <= |s.hist|
    ensures ReaderInv(s, Started(key, s.clock))
  {
  }

  lemma {:induction false} RunInv(states: seq<State>, i: nat)
    requires Run(states) && i < |states|
    ensures Inv(states[i])
  {
    if i > 0 {
      RunInv(states, i - 1);
      assert Next(states[i - 1], states[i]);
      if WriterStep(states[i - 1], states[i]) {
        WriterKeeps(states[i - 1], states[i]);
      } else {
        var id, key :| ReaderMove(states[i - 1], states[i], id, key);
        ReaderKeeps(states[i - 1], states[i], id, key);
      }
    }
  }

  // ----- what every run guarantees

  /** Updates that are over, and updates that have begun. */
  function Completed(s: State): nat {
    if s.writer == Resting || |s.hist| == 0 then |s.hist| else |s.hist| - 1
  }

  /** The clock and the history never go back. */
  lemma {:induction false} Forward(states: seq<State>, i: nat, j: nat)
    requires Run(states) && i <= j < |states|
    ensures states[i].clock <= states[j].clock && states[i].hist <= states[j].hist
  {
    if i < j {
      Forward(states, i, j - 1);
      assert Next(states[j - 1], states[j]);
    }
  }

  lemma {:induction false} SetAfterSame(hist: seq<Op>, more: seq<Op>, n: nat)
    requires hist <= more && n <= |hist|
    ensures SetAfter(more, n) == SetAfter(hist, n)
  {
    if n > 0 { SetAfterSame(hist, more, n - 1); }
  }

  /** Between resting and the next latch step, clock / 2 counts the completed updates or one more. */
  lemma ClockCounts(s: State)
    requires WriterInv(s)
    ensures Completed(s) <= s.clock / 2 <= |s.hist|
  {
  }

  /**
   * Linearizability: a find that starts at state i of a run and has returned by state j, with fewer than WORD
   * latch steps in between, answers for the set after n updates, where n counts at least the updates completed
   * when it started and at most those begun when it returned.
   */
  lemma FindLinearizable(states: seq<State>, i: nat, j: nat, id: int)
    requires Run(states) && i < j < |states| && id in states[j].readers
    requires states[j].readers[id].Returned? && states[j].readers[id].start >= states[i].clock
    requires states[j].readers[id].end - states[j].readers[id].start < WORD
    ensures var r, n := states[j].readers[id], states[j].readers[id].start / 2;
      && Completed(states[i]) <= n <= |states[j].hist|
      && (r.found <==> r.key in SetAfter(states[j].hist, n))
      && r.end == r.start
  {
    RunInv(states, i);
    RunInv(states, j);
    ClockCounts(states[i]);
    assert ReaderInv(states[j], states[j].readers[id]);
  }

  /** Finds that start later never answer for an older set. */
  lemma NeverOlder(states: seq<State>, i: nat, j: nat, k: nat, a: int, b: int)
    requires Run(states) && i <= j <= k < |states| && a in states[i].readers && b in states[k].readers
    requires
      && states[i].readers[a].Returned? && states[k].readers[b].Returned?
      && states[k].readers[b].start >= states[j].clock
    ensures states[i].readers[a].start / 2 <= states[k].readers[b].start / 2
  {
    RunInv(states, i);
    Forward(states, i, j);
    assert ReaderInv(states[i], states[i].readers[a]);
  }

  /** The copy that the clock selects is not written to while the clock stands still. */
  lemma {:induction false} CopyUntouched(states: seq<State>, i: nat, j: nat)
    requires Run(states) && i <= j < |states| && states[i].clock == states[j].clock
    ensures Copy(states[j], states[j].clock) == Copy(states[i], states[i].clock)
  {
    hide *;
    if i < j {
      Forward(states, i, j - 1);
      Forward(states, j - 1, j);
      CopyUntouched(states, i, j - 1);
      RunInv(states, j - 1);
      RunNext(states, j - 1);
      Opened(states[j - 1]);
      StepKeepsCopy(states[j - 1], states[j]);
    }
  }

  lemma RunNext(states: seq<State>, i: nat)
    requires Run(states) && i + 1 < |states|
    ensures Next(states[i], states[i + 1])
  {
  }

  lemma StepKeepsCopy(s: State, t: State)
    requires WriterInv(s) && Next(s, t) && t.clock == s.clock
    ensures Copy(t, t.clock) == Copy(s, s.clock)
  {
    hide Holds, Disturbed, SetAfter, Walk, Checked;
  }

  /**
   * A find that reads the sequence word at state i, and returns at the step after state j with fewer than WORD
   * latch steps in between, has searched a copy that nobody modified from i to j.
   */
  lemma FindUndisturbed(states: seq<State>, i: nat, m: nat, j: nat, id: int)
    requires Run(states) && i <= m <= j < |states| && id in states[j].readers
    requires states[j].readers[id].Finished? && states[j].readers[id].start == states[i].clock
    requires Checked(states[j].clock, states[j].readers[id]).Returned? && states[j].clock - states[i].clock < WORD
    ensures states[m].clock == states[i].clock == states[j].clock
    ensures Copy(states[m], states[i].clock) == Copy(states[i], states[i].clock)
    ensures states[i].clock / 2 <= |states[m].hist|
    ensures Holds(Copy(states[m], states[i].clock), SetAfter(states[m].hist, states[i].clock / 2))
  {
    RunInv(states, j);
    assert ReaderInv(states[j], states[j].readers[id]);
    assert (states[j].clock - states[i].clock) % WORD == 0;
    Forward(states, i, m);
    Forward(states, m, j);
    CopyUntouched(states, i, m);
    RunInv(states, m);
    StableCopy(states[m]);
  }

  // ----- an element that is found was linked

  lemma {:induction false} SetAfterLinked(hist: seq<Op>, n: nat, e: int)
    requires n <= |hist| && e in SetAfter(hist, n)
    ensures Insert(e) in hist
  {
    if n > 0 && hist[n - 1] != Insert(e) { SetAfterLinked(hist, n - 1, e); }
  }

  ghost predicate ReaderKnows(hist: seq<Op>, r: Reader) {
    && (r.Walking? ==> AllLinked(r.cursor, hist))
    && ((r.Finished? || r.Returned?) && r.found ==> Insert(r.key) in hist)
  }

  /** Nothing that was never linked can be reached, not even from a copy that is being written. */
  ghost predicate Known(s: State) {
    && AllLinked(s.copy0, s.hist) && AllLinked(s.copy1, s.hist)
    && forall id :: id in s.readers ==> ReaderKnows(s.hist, s.readers[id])
  }

  lemma HoldsLinked(t: Tree, hist: seq<Op>)
    requires Holds(t, SetAfter(hist, |hist|))
    ensures AllLinked(t, hist)
  {
    forall x | x in Elements(t) ensures Insert(x) in hist { SetAfterLinked(hist, |hist|, x); }
  }

  lemma WriterKnows(s: State, t: State)
    requires Known(s) && WriterStep(s, t)
    ensures Known(t)
  {
    if EndFirst(s, t) { HoldsLinked(t.copy0, t.hist); }
    if EndSecond(s, t) { HoldsLinked(t.copy1, t.hist); }
    hide SetAfter, Holds, Proper, Elements;
    forall id | id in t.readers ensures ReaderKnows(t.hist, t.readers[id]) {
      assert id in s.readers && ReaderKnows(s.hist, s.readers[id]);
    }
  }

  lemma WalkKnows(hist: seq<Op>, r: Reader)
    requires r.Walking? && AllLinked(r.cursor, hist)
    ensures ReaderKnows(hist, Walk(r))
  {
    if r.cursor.Node? {
      assert r.cursor.elem in Elements(r.cursor);
      assert Elements(r.cursor.left) <= Elements(r.cursor) && Elements(r.cursor.right) <= Elements(r.cursor);
    }
  }

  lemma ReaderMoveKnows(s: State, t: State, id: int, key: int)
    requires Known(s) && ReaderMove(s, t, id, key)
    ensures Known(t)
  {
    assert id in s.readers && ReaderKnows(s.hist, s.readers[id]);
    if WalkOn(s, t, id) { WalkKnows(s.hist, s.readers[id]); }
    hide AllLinked, Walk;
    forall i | i in t.readers ensures ReaderKnows(t.hist, t.readers[i]) {
      if i != id { assert t.readers[i] == s.readers[i]; }
    }
  }

  lemma {:induction false} RunKnown(states: seq<State>, i: nat)
    requires Run(states) && i < |states|
    ensures Known(states[i])
  {
    if i > 0 {
      RunKnown(states, i - 1);
      RunNext(states, i - 1);
      hide Known, WriterStep, ReaderMove;
      if WriterStep(states[i - 1], states[i]) {
        WriterKnows(states[i - 1], states[i]);
      } else {
        var id, key :| ReaderMove(states[i - 1], states[i], id, key);
        ReaderMoveKnows(states[i - 1], states[i], id, key);
      }
    }
  }

  /** Whatever was written meanwhile, a find that returns an element returns one that was linked. */
  lemma FoundWasLinked(states: seq<State>, i: nat, id: int)
    requires Run(states) && i < |states| && id in states[i].readers
    requires states[i].readers[id].Returned? && states[i].readers[id].found
    ensures Insert(states[i].readers[id].key) in states[i].hist
  {
    RunKnown(states, i);
    assert ReaderKnows(states[i].hist, states[i].readers[id]);
  }

  // ----- a find that is left alone returns

  function Height(t: Tree): nat {
    match t
    case Leaf => 0
    case Node(l, e, r) => 1 + if Height(l) > Height(r) then Height(l) else Height(r)
  }

  /** The second run goes on from the first by steps of one reader only. */
  ghost predicate Alone(states: seq<State>, more: seq<State>, id: int) {
    && |states| > 0 && states <= more && Run(more)
    && var s := states[|states| - 1];
    forall k :: |states| - 1 <= k < |more| ==>
      id in more[k].readers && more[k] == s.(readers := s.readers[id := more[k].readers[id]])
  }

  lemma AloneStart(states: seq<State>, id: int)
    requires Run(states) && id in states[|states| - 1].readers
    ensures Alone(states, states, id)
  {
    var s := states[|states| - 1];
    assert s.readers[id := s.readers[id]] == s.readers;
  }

  lemma AloneStep(states: seq<State>, now: seq<State>, id: int, q: Reader) returns (more: seq<State>)
    requires Alone(states, now, id) && !now[|now| - 1].readers[id].Away?
    requires var s := now[|now| - 1]; ReaderMove(s, s.(readers := s.readers[id := q]), id, s.readers[id].key)
    ensures Alone(states, more, id) && |more| == |now| + 1 && more[|more| - 1].readers[id] == q
  {
    var s := now[|now| - 1];
    var t := s.(readers := s.readers[id := q]);
    hide ReaderMove, Run;
    NextReader(s, t, id, s.readers[id].key);
    Extend(now, t);
    more := now + [t];
    var s0 := states[|states| - 1];
    assert s0.readers[id := s.readers[id]][id := q] == s0.readers[id := q];
  }

  /** The search loop ends, after one turn for every level at most. */
  lemma {:induction false} WalkAlone(states: seq<State>, now: seq<State>, id: int) returns (more: seq<State>)
    requires Alone(states, now, id) && now[|now| - 1].readers[id].Walking?
    ensures Alone(states, more, id)
    ensures var r := now[|now| - 1].readers[id]; var q := more[|more| - 1].readers[id];
      && |more| <= |now| + Height(r.cursor) + 1
      && q.Finished? && q.key == r.key && q.start == r.start
    decreases now[|now| - 1].readers[id].cursor
  {
    var s := now[|now| - 1];
    var r := s.readers[id];
    assert WalkOn(s, s.(readers := s.readers[id := Walk(r)]), id);
    more := AloneStep(states, now, id, Walk(r));
    if Walk(r).Walking? {
      more := WalkAlone(states, more, id);
    }
  }

  lemma RootAlone(states: seq<State>, now: seq<State>, id: int) returns (more: seq<State>)
    requires Alone(states, now, id) && now[|now| - 1].readers[id].Started?
    ensures Alone(states, more, id) && |more| == |now| + 1
    ensures var s := now[|now| - 1]; var r := s.readers[id];
      more[|more| - 1].readers[id] == Walking(r.key, r.start, Copy(s, r.start))
  {
    var s := now[|now| - 1];
    var r := s.readers[id];
    var q := Walking(r.key, r.start, Copy(s, r.start));
    assert ReadRoot(s, s.(readers := s.readers[id := q]), id);
    more := AloneStep(states, now, id, q);
  }

  lemma CheckAlone(states: seq<State>, now: seq<State>, id: int) returns (more: seq<State>)
    requires Alone(states, now, id) && now[|now| - 1].readers[id].Finished?
    ensures Alone(states, more, id) && |more| == |now| + 1
    ensures more[|more| - 1].readers[id] == Checked(now[|now| - 1].clock, now[|now| - 1].readers[id])
  {
    var s := now[|now| - 1];
    var q := Checked(s.clock, s.readers[id]);
    assert Check(s, s.(readers := s.readers[id := q]), id);
    more := AloneStep(states, now, id, q);
  }

  lemma RestartAlone(states: seq<State>, now: seq<State>, id: int) returns (more: seq<State>)
    requires Alone(states, now, id) && now[|now| - 1].readers[id].Retrying?
    ensures Alone(states, more, id) && |more| == |now| + 1
    ensures more[|more| - 1].readers[id] == Started(now[|now| - 1].readers[id].key, now[|now| - 1].clock)
  {
    var s := now[|now| - 1];
    var q := Started(s.readers[id].key, s.clock);
    assert Restart(s, s.(readers := s.readers[id := q]), id);
    more := AloneStep(states, now, id, q);
  }

  lemma AloneIs(states: seq<State>, more: seq<State>, id: int)
    requires Alone(states, more, id)
    ensures |states| > 0 && |more| > 0 && Run(more) && id in more[|more| - 1].readers
    ensures var s, t := states[|states| - 1], more[|more| - 1]; t.clock == s.clock && t.hist == s.hist
  {
  }

  /** From the root on: the answer is right, as nobody moves the clock. */
  lemma FindAlone(states: seq<State>, now: seq<State>, id: int) returns (more: seq<State>)
    requires Alone(states, now, id) && now[|now| - 1].readers[id].Started?
    requires now[|now| - 1].readers[id].start == now[|now| - 1].clock
    ensures Alone(states, more, id)
    ensures var s := now[|now| - 1];
      var key := s.readers[id].key; var q := more[|more| - 1].readers[id];
      && |more| <= |now| + Height(Copy(s, s.clock)) + 3 && s.clock / 2 <= |s.hist|
      && q == Returned(key, s.clock, key in SetAfter(s.hist, s.clock / 2), s.clock)
  {
    hide Alone, Run, SetAfter, Copy, Height;
    AloneIs(states, now, id);
    more := RootAlone(states, now, id);
    more := WalkAlone(states, more, id);
    AloneIs(states, more, id);
    var t := more[|more| - 1];
    RunInv(more, |more| - 1);
    assert ReaderInv(t, t.readers[id]);
    more := CheckAlone(states, more, id);
    AloneIs(states, more, id);
  }

  /**
   * A find that has read the sequence word and is left alone returns, after one step for the root, at most one for
   * every level of the selected copy and one more, and the comparison; and its answer is that of the set after
   * clock / 2 updates. This holds in the middle of any update.
   */
  lemma FindReturns(states: seq<State>, id: int) returns (more: seq<State>)
    requires Run(states) && id in states[|states| - 1].readers
    requires states[|states| - 1].readers[id].Started?
    requires states[|states| - 1].readers[id].start == states[|states| - 1].clock
    ensures Alone(states, more, id)
    ensures var s := states[|states| - 1];
      var key := s.readers[id].key; var q := more[|more| - 1].readers[id];
      && |more| <= |states| + Height(Copy(s, s.clock)) + 3 && s.clock / 2 <= |s.hist|
      && q == Returned(key, s.clock, key in SetAfter(s.hist, s.clock / 2), s.clock)
  {
    AloneStart(states, id);
    more := FindAlone(states, states, id);
  }

  /** Wherever a find stands, and whatever the writer is doing, it returns when it is left alone. */
  lemma FindNeverBlocks(states: seq<State>, id: int) returns (more: seq<State>)
    requires Run(states) && id in states[|states| - 1].readers
    requires var r := states[|states| - 1].readers[id]; !r.Away? && !r.Returned?
    ensures Alone(states, more, id)
    ensures var r, q := states[|states| - 1].readers[id], more[|more| - 1].readers[id]; q.Returned? && q.key == r.key
  {
    hide Alone, Run, SetAfter, Copy, Height;
    AloneStart(states, id);
    var r := states[|states| - 1].readers[id];
    more := states;
    if r.Started? { more := RootAlone(states, more, id); }
    if !r.Finished? && !r.Retrying? { more := WalkAlone(states, more, id); }
    if !r.Retrying? { more := CheckAlone(states, more, id); }
    if more[|more| - 1].readers[id].Retrying? {
      more := RestartAlone(states, more, id);
      AloneIs(states, more, id);
      more := FindAlone(states, more, id);
    }
    AloneIs(states, more, id);
  }

  // ----- the bound on latch steps is needed

  lemma Extend(states: seq<State>, t: State)
    requires Run(states) && Next(states[|states| - 1], t)
    ensures Run(states + [t])
  {
    var more := states + [t];
    forall i | 0 <= i < |more| - 1 ensures Next(more[i], more[i + 1]) {
      if i < |states| - 1 { assert Next(states[i], states[i + 1]); }
    }
  }

  ghost predicate Within(c: Tree, t: Tree) {
    c == t || (t.Node? && (Within(c, t.left) || Within(c, t.right)))
  }

  /** No copy is torn, and what a reader has below it is what the copy has below that node. */
  ghost predicate Plain(s: State) {
    && Ordered(s.copy0) && Ordered(s.copy1)
    && forall id :: id in s.readers && s.readers[id].Walking? ==>
        Within(s.readers[id].cursor, Copy(s, s.readers[id].start))
  }

  /** No node is linked a second time. */
  ghost predicate LinkedOnce(hist: seq<Op>) {
    forall i, j :: 0 <= i < j < |hist| && hist[i].Insert? ==> hist[i] != hist[j]
  }

  /** A run in which every update appears to be done in one piece on each copy. */
  ghost predicate PlainRun(states: seq<State>) {
    && Run(states) && LinkedOnce(states[|states| - 1].hist)
    && forall i :: 0 <= i < |states| ==> Plain(states[i])
  }

  /** The find is over at the end of the run; it read the sequence word in state i or later. */
  ghost predicate ReturnedWith(states: seq<State>, i: nat, id: int, steps: int) {
    Run(states) && i < |states| && var s := states[|states| - 1];
    && id in s.readers && s.readers[id].Returned? && s.readers[id].end - s.readers[id].start == steps
    && states[i].clock <= s.readers[id].start
  }

  /**
   * The answer is that of the set after some number of updates between those completed in state i and those begun
   * when the find returned.
   */
  ghost predicate Right(states: seq<State>, i: nat, id: int)
    requires i < |states| && id in states[|states| - 1].readers && states[|states| - 1].readers[id].Returned?
  {
    var s := states[|states| - 1];
    var r := s.readers[id];
    exists n: nat ::
      && Completed(states[i]) <= n <= |s.hist| && 2 * n <= r.end + 1
      && (r.found <==> r.key in SetAfter(s.hist, n))
  }

  /** Every find that returns with this many latch steps inside it is right. */
  ghost predicate Guaranteed(steps: nat) {
    forall states: seq<State>, i: nat, id: int :: ReturnedWith(states, i, id, steps) ==> Right(states, i, id)
  }

  /** The same of runs without torn copies only. */
  ghost predicate GuaranteedPlainly(steps: nat) {
    forall states: seq<State>, i: nat, id: int ::
      ReturnedWith(states, i, id, steps) && PlainRun(states) ==> Right(states, i, id)
  }

  // ----- a run in which the sequence word comes round

  /** Elements e + 1 and e come, and stay; then e - 1, e - 2, ... come and go. */
  function OpAt(e: int, i: nat): Op {
    if i == 0 then Insert(e + 1)
    else if i == 1 then Insert(e)
    else if i % 2 == 0 then Insert(e - i / 2)
    else Erase(e - i / 2)
  }

  function Churn(e: int, n: nat): seq<Op> {
    seq(n, i requires i >= 0 => OpAt(e, i))
  }

  function ChurnSet(e: int, n: nat): set<int> {
    if n == 0 then {}
    else if n == 1 then {e + 1}
    else if n % 2 == 0 then {e, e + 1}
    else {e - n / 2, e, e + 1}
  }

  lemma {:induction false} ChurnAfter(e: int, n: nat, k: nat)
    requires k <= n
    ensures SetAfter(Churn(e, n), k) == ChurnSet(e, k)
  {
    if k > 0 {
      ChurnAfter(e, n, k - 1);
      assert Churn(e, n)[k - 1] == OpAt(e, k - 1);
    }
  }

  lemma ChurnNext(e: int, n: nat)
    ensures Churn(e, n + 1) == Churn(e, n) + [OpAt(e, n)] && Proper(Churn(e, n), OpAt(e, n))
  {
    ChurnAfter(e, n, n);
  }

  lemma ChurnOnce(e: int, n: nat)
    ensures LinkedOnce(Churn(e, n))
  {
  }

  /**
   * The tree of these elements, as rebalancing leaves it: the third insertion rotates the two nodes that are there,
   * and all later updates come and go at a red leaf.
   */
  function ChurnTree(e: int, n: nat): Tree {
    if n == 0 then Leaf
    else if n == 1 then Node(Leaf, e + 1, Leaf)
    else if n == 2 then Node(Node(Leaf, e, Leaf), e + 1, Leaf)
    else Node(if n % 2 == 0 then Leaf else Node(Leaf, e - n / 2, Leaf), e, Node(Leaf, e + 1, Leaf))
  }

  lemma OneElement(x: int)
    ensures Elements(Node(Leaf, x, Leaf)) == {x}
  {
    assert Elements(Leaf) == {};
  }

  lemma ChurnHolds(e: int, n: nat)
    ensures Holds(ChurnTree(e, n), SetAfter(Churn(e, n), |Churn(e, n)|))
  {
    ChurnAfter(e, n, n);
    OneElement(e - n / 2);
    OneElement(e);
    OneElement(e + 1);
    assert |Churn(e, n)| == n;
  }

  /** The writer at rest after n updates, and one reader. */
  function Quiet(e: int, n: nat, r: Reader): State {
    State(2 * n, ChurnTree(e, n), ChurnTree(e, n), Resting, Churn(e, n), map[0 := r])
  }

  /** The reader before the rotation, at the root, and after it, at the same node, which is a leaf now. */
  function Before(e: int): Reader {
    Walking(e, 4, ChurnTree(e, 2))
  }

  function Behind(e: int): Reader {
    Walking(e, 4, Node(Leaf, e + 1, Leaf))
  }

  /** How the reader is affected by update n. */
  ghost predicate Carried(e: int, n: nat, r: Reader, q: Reader) {
    if r.Walking? then n == 2 && r == Before(e) && q == Behind(e) else q == r
  }

  lemma PlainState(s: State, r: Reader)
    requires s.readers == map[0 := r] && Ordered(s.copy0) && Ordered(s.copy1)
    requires r.Walking? ==> r.start == 4 && Within(r.cursor, s.copy0)
    ensures Plain(s)
  {
  }

  lemma CarriedWithin(e: int, n: nat, r: Reader, q: Reader)
    requires Carried(e, n, r, q)
    ensures r.Walking? ==> r.start == 4 && Within(r.cursor, ChurnTree(e, n))
    ensures q.Walking? ==> q.start == 4 && Within(q.cursor, ChurnTree(e, n + 1))
  {
    if r.Walking? {
      assert Within(ChurnTree(e, 3).right, ChurnTree(e, 3));
    }
  }

  lemma CarriedShaken(e: int, n: nat, r: Reader, q: Reader)
    requires Carried(e, n, r, q)
    ensures Shaken(Churn(e, n + 1), r, q, 0) && Shaken(Churn(e, n + 1), q, q, 1)
  {
    if r.Walking? {
      ChurnHolds(e, 3);
      HoldsLinked(ChurnTree(e, 3), Churn(e, 3));
      assert Elements(ChurnTree(e, 3).right) <= Elements(ChurnTree(e, 3));
    }
  }

  lemma UpdateSteps(e: int, n: nat, r: Reader, q: Reader) returns (s1: State, s2: State, s3: State)
    requires Carried(e, n, r, q)
    ensures WriterStep(Quiet(e, n, r), s1) && WriterStep(s1, s2) && WriterStep(s2, s3)
    ensures WriterStep(s3, Quiet(e, n + 1, q))
    ensures Plain(s1) && Plain(s2) && Plain(s3) && Plain(Quiet(e, n + 1, q))
    ensures s1.hist == s2.hist == s3.hist == Quiet(e, n + 1, q).hist == Churn(e, n + 1)
  {
    var s, t := Quiet(e, n, r), Quiet(e, n + 1, q);
    ChurnNext(e, n);
    ChurnHolds(e, n);
    ChurnHolds(e, n + 1);
    CarriedWithin(e, n, r, q);
    CarriedShaken(e, n, r, q);
    assert |Churn(e, n + 1)| == n + 1 && |Churn(e, n)| == n;
    s1 := s.(clock := 2 * n + 1, writer := OnFirst, hist := Churn(e, n + 1));
    s2 := s1.(copy0 := t.copy0, readers := t.readers, writer := FirstDone);
    s3 := s2.(clock := 2 * n + 2, writer := OnSecond);
    assert Ordered(s.copy0) && Ordered(t.copy0);
    hide SetAfter, Churn, Proper, Shaken, Within, Ordered, Elements, ChurnTree, Carried;
    assert BeginUpdate(s, s1, OpAt(e, n));
    assert EndFirst(s1, s2);
    assert SwitchOver(s2, s3);
    assert EndSecond(s3, t);
    PlainState(s1, r);
    PlainState(s2, q);
    PlainState(s3, q);
    PlainState(t, q);
  }

  lemma ExtendPlain(states: seq<State>, t: State)
    requires PlainRun(states) && Next(states[|states| - 1], t) && Plain(t) && LinkedOnce(t.hist)
    ensures PlainRun(states + [t])
  {
    Extend(states, t);
  }

  lemma NextWriter(s: State, t: State)
    requires WriterStep(s, t)
    ensures Next(s, t)
  {
  }

  lemma NextReader(s: State, t: State, id: int, key: int)
    requires ReaderMove(s, t, id, key)
    ensures Next(s, t)
  {
    assert ReaderStep(s, t);
  }

  lemma UpdateOnce(states: seq<State>, e: int, n: nat, r: Reader, q: Reader) returns (more: seq<State>)
    requires PlainRun(states) && states[|states| - 1] == Quiet(e, n, r) && Carried(e, n, r, q)
    ensures PlainRun(more) && states <= more && more[|more| - 1] == Quiet(e, n + 1, q)
  {
    hide *;
    var s1, s2, s3 := UpdateSteps(e, n, r, q);
    var t := Quiet(e, n + 1, q);
    ChurnOnce(e, n + 1);
    NextWriter(Quiet(e, n, r), s1);
    NextWriter(s1, s2);
    NextWriter(s2, s3);
    NextWriter(s3, t);
    ExtendPlain(states, s1);
    ExtendPlain(states + [s1], s2);
    ExtendPlain(states + [s1] + [s2], s3);
    ExtendPlain(states + [s1] + [s2] + [s3], t);
    more := states + [s1] + [s2] + [s3] + [t];
  }

  lemma {:induction false} UpdateMany(states: seq<State>, e: int, n: nat, m: nat, r: Reader)
    returns (more: seq<State>)
    requires PlainRun(states) && states[|states| - 1] == Quiet(e, n, r) && n <= m && !r.Walking?
    ensures PlainRun(more) && states <= more && more[|more| - 1] == Quiet(e, m, r)
    decreases m - n
  {
    if n == m {
      more := states;
    } else {
      more := UpdateOnce(states, e, n, r, r);
      more := UpdateMany(more, e, n + 1, m, r);
    }
  }

  lemma ReaderOnce(states: seq<State>, e: int, n: nat, r: Reader, q: Reader, key: int) returns (more: seq<State>)
    requires PlainRun(states) && states[|states| - 1] == Quiet(e, n, r)
    requires ReaderMove(Quiet(e, n, r), Quiet(e, n, q), 0, key) && Plain(Quiet(e, n, q))
    ensures PlainRun(more) && states <= more && more[|more| - 1] == Quiet(e, n, q)
  {
    ChurnOnce(e, n);
    assert Quiet(e, n, q).hist == Churn(e, n);
    hide *;
    NextReader(Quiet(e, n, r), Quiet(e, n, q), 0, key);
    ExtendPlain(states, Quiet(e, n, q));
    more := states + [Quiet(e, n, q)];
  }

  /** A reader looks for e in the set {e, e + 1}, and reads the root: the node of e + 1, with e on its left. */
  lemma Enter(e: int) returns (states: seq<State>)
    ensures PlainRun(states) && states[|states| - 1] == Quiet(e, 2, Before(e))
    ensures |states| > 1 && states[|states| - 2] == Quiet(e, 2, Started(e, 4))
  {
    assert Quiet(e, 0, Away).hist == [];
    states := UpdateMany([Quiet(e, 0, Away)], e, 0, 2, Away);
    assert StartFind(Quiet(e, 2, Away), Quiet(e, 2, Started(e, 4)), 0, e);
    states := ReaderOnce(states, e, 2, Away, Started(e, 4), e);
    var was := states;
    assert ReadRoot(Quiet(e, 2, Started(e, 4)), Quiet(e, 2, Before(e)), 0);
    assert ChurnTree(e, 2) == Copy(Quiet(e, 2, Before(e)), 4);
    ChurnOnce(e, 2);
    hide Run, LinkedOnce, ReadRoot, Ordered;
    NextReader(Quiet(e, 2, Started(e, 4)), Quiet(e, 2, Before(e)), 0, e);
    ExtendPlain(states, Quiet(e, 2, Before(e)));
    states := states + [Quiet(e, 2, Before(e))];
  }

  /** The insertion of e - 1 rotates the node of e above it, and the search that goes on below e + 1 misses e. */
  lemma Miss(e: int, states: seq<State>) returns (more: seq<State>)
    requires PlainRun(states) && states[|states| - 1] == Quiet(e, 2, Before(e))
    ensures PlainRun(more) && states <= more && more[|more| - 1] == Quiet(e, 3, Finished(e, 4, false))
  {
    more := UpdateOnce(states, e, 2, Before(e), Behind(e));
    var s, t := Quiet(e, 3, Behind(e)), Quiet(e, 3, Walking(e, 4, Leaf));
    var u := Quiet(e, 3, Finished(e, 4, false));
    assert WalkOn(s, t, 0);
    assert ChurnTree(e, 3).left.left == Leaf && Within(Leaf, ChurnTree(e, 3));
    assert Plain(t);
    more := ReaderOnce(more, e, 3, Behind(e), Walking(e, 4, Leaf), e);
    assert WalkOn(t, u, 0);
    assert Plain(u);
    more := ReaderOnce(more, e, 3, Walking(e, 4, Leaf), Finished(e, 4, false), e);
  }

  /**
   * With any positive multiple of WORD latch steps inside one find the sequence word comes round to its old value,
   * and the find may miss an element that is in the set from its start to its return.
   */
  lemma WrapAroundMisses(elem: int, m: nat) returns (states: seq<State>, i: nat)
    requires m >= 1
    ensures PlainRun(states) && ReturnedWith(states, i, 0, m * WORD)
    ensures var s := states[|states| - 1];
      && s.readers[0].key == elem && !s.readers[0].found && states[i].clock == s.readers[0].start
      && forall n: nat :: Completed(states[i]) <= n <= |s.hist| ==> elem in SetAfter(s.hist, n)
  {
    var n: nat := 2 + m * 0x8000_0000;
    Comes(m);
    states := Enter(elem);
    i := |states| - 2;
    var done := Finished(elem, 4, false);
    states := Miss(elem, states);
    states := UpdateMany(states, elem, 3, n, done);
    var s, t := Quiet(elem, n, done), Quiet(elem, n, Returned(elem, 4, false, 2 * n));
    assert Check(s, t, 0);
    assert Plain(t);
    states := ReaderOnce(states, elem, n, done, t.readers[0], elem);
    assert states[i] == Quiet(elem, 2, Started(elem, 4));
    forall k: nat | 2 <= k <= n ensures elem in SetAfter(Churn(elem, n), k) { ChurnAfter(elem, n, k); }
  }

  lemma {:induction false} Comes(m: nat)
    ensures 2 * (m * 0x8000_0000) == m * WORD && (m * WORD) % WORD == 0 && (4 + m * WORD) % WORD == 4
  {
    if m > 0 { Comes(m - 1); }
  }

  /** No find with a latch step inside it is guaranteed to be right, not even on plain runs. */
  lemma Unguaranteed(steps: nat)
    requires steps % WORD == 0 && steps > 0
    ensures !GuaranteedPlainly(steps)
  {
    assert steps == steps / WORD * WORD;
    var states, i := WrapAroundMisses(0, steps / WORD);
    assert ReturnedWith(states, i, 0, steps);
    assert !Right(states, i, 0);
  }

  /**
   * A find returns only with zero latch steps or a positive multiple of WORD inside it, and it is guaranteed to
   * be right in the first case only. Torn copies make no difference.
   */
  lemma GuaranteedExactly(steps: nat)
    requires steps % WORD == 0
    ensures Guaranteed(steps) <==> steps == 0
    ensures GuaranteedPlainly(steps) <==> steps == 0
  {
    if steps == 0 {
      forall states: seq<State>, i: nat, id: int | ReturnedWith(states, i, id, steps)
        ensures Right(states, i, id)
      {
        RunInv(states, |states| - 1);
        RunInv(states, i);
        ClockCounts(states[i]);
        var s := states[|states| - 1];
        Forward(states, i, |states| - 1);
        assert ReaderInv(s, s.readers[id]);
        var n := s.readers[id].start / 2;
        assert Completed(states[i]) <= n <= |s.hist| && 2 * n <= s.readers[id].end + 1;
      }
    } else {
      Unguaranteed(steps);
    }
  }

  /** No other number of latch steps inside a find lets it return. */
  lemma ReturnsOnMultiples(states: seq<State>, i: nat, id: int)
    requires Run(states) && i < |states| && id in states[i].readers && states[i].readers[id].Returned?
    ensures states[i].readers[id].start <= states[i].readers[id].end
    ensures (states[i].readers[id].end - states[i].readers[id].start) % 0x1_0000_0000 == 0
  {
    RunInv(states, i);
    assert ReaderInv(states[i], states[i].readers[id]);
  }
}
