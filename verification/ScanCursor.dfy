/** The arithmetic of the scan cursor: a counter incremented from its highest masked bit. */
module ScanCursor {
  import opened Bits

  /** v + 1 in a word of n bits */
  function Inc(n: nat, v: nat): (w: nat)
    requires v < Pow2(n)
    ensures w < Pow2(n)
  {
    if v + 1 == Pow2(n) then 0 else v + 1
  }

  function OrWord(n: nat, v: nat, m: nat): (w: nat)
    requires v < Pow2(n) && m < Pow2(n)
    ensures w < Pow2(n)
  {
    OrBound(v, m, n);
    Or(v, m)
  }

  /** The cursor handed back by a call made with cursor v when the smaller mask is m. */
  function NextCursor(n: nat, v: nat, m: nat): (w: nat)
    requires v < Pow2(n) && m < Pow2(n)
    ensures w < Pow2(n)
  {
    Rev(n, Inc(n, Rev(n, OrWord(n, v, Not(n, m)))))
  }

  /** Where a hash or a cursor stands in the order of the scan. */
  function Pos(n: nat, v: nat): nat {
    Rev(n, v)
  }

  lemma {:induction false} HighMaskShifted(k: nat, n: nat)
    requires k <= n
    ensures HighMask(k, n) == Shl(Ones(n - k), k)
  {
    if k > 0 { HighMaskShifted(k - 1, n - 1); }
  }

  lemma MaskBound(k: nat, n: nat)
    requires k <= n
    ensures Ones(k) < Pow2(n)
    ensures Not(n, Ones(k)) == HighMask(k, n) < Pow2(n)
  {
    Pow2Mono(k, n);
  }

  /** v | ~m has the low bits of v below ones. */
  lemma Unmasked(n: nat, v: nat, k: nat)
    requires k <= n && v < Pow2(n)
    ensures HighMask(k, n) < Pow2(n)
    ensures var w := OrWord(n, v, HighMask(k, n)); Low(w, k) == Low(v, k) && Shr(w, k) == Ones(n - k)
  {
    MaskBound(k, n);
    OrHigh(v, k, n);
    HighMaskShifted(k, n);
    Decompose(v, k);
    Recompose(Ones(n - k), Low(v, k), k);
  }

  /** The reversed word that is about to be incremented. */
  lemma BeforeIncrement(n: nat, v: nat, k: nat)
    requires k <= n && v < Pow2(n)
    ensures HighMask(k, n) < Pow2(n)
    ensures Rev(n, OrWord(n, v, HighMask(k, n))) == Shl(Rev(k, v), n - k) + Ones(n - k)
  {
    hide Rev, Shl, Shr, Low, Ones, HighMask, Pow2, Or;
    Unmasked(n, v, k);
    var w := OrWord(n, v, HighMask(k, n));
    RevInjective(k, w, v);
    RevConcat(k, n - k, w);
    RevAllOnes(n - k);
  }

  lemma NextBlock(q: nat, k: nat, w: nat)
    requires q < Pow2(k)
    ensures Shl(q + 1, w) == Shl(q, w) + Ones(w) + 1
    ensures Shl(q + 1, w) <= Pow2(k + w)
    ensures Shl(q + 1, w) == Pow2(k + w) <==> q == Ones(k)
  {
    ShlAdd(q, 1, w);
    ShlPow2(0, w);
    ShlPow2(k, w);
    ShlMono(q + 1, Pow2(k), w);
  }

  /** Incrementing a reversed word: the last block wraps to the cursor 0, any other one moves to the next. */
  lemma IncrementBlock(n: nat, y: nat, k: nat, q: nat)
    requires k <= n && q < Pow2(k)
    requires y == Shl(q, n - k) + Ones(n - k) && y < Pow2(n)
    ensures Inc(n, y) == if q == Ones(k) then 0 else Shl(q + 1, n - k)
    ensures q != Ones(k) ==> Shl(q + 1, n - k) > 0
  {
    NextBlock(q, k, n - k);
  }

  /** One call moves the scan position to the start of the next bucket of the smaller table. */
  lemma NextPosition(n: nat, v: nat, k: nat)
    requires k <= n && v < Pow2(n)
    ensures Ones(k) < Pow2(n)
    ensures NextCursor(n, v, Ones(k)) == 0 <==> Rev(k, v) == Ones(k)
    ensures Rev(k, v) != Ones(k) ==> Pos(n, NextCursor(n, v, Ones(k))) == Shl(Rev(k, v) + 1, n - k)
  {
    hide Rev, Shl, Shr, Low, Ones, HighMask, Pow2, Or;
    MaskBound(k, n);
    BeforeIncrement(n, v, k);
    var y := Rev(n, OrWord(n, v, HighMask(k, n)));
    IncrementBlock(n, y, k, Rev(k, v));
    var p := Inc(n, y);
    RevZero(n);
    RevRev(n, p);
    LowSmall(p, n);
  }

  lemma {:induction false} RevZero(k: nat)
    ensures Rev(k, 0) == 0
  {
    if k > 0 { RevZero(k - 1); }
  }

  /** The hashes that fall into one bucket of a table of size 2^k stand next to each other. */
  lemma ScanBlock(n: nat, h: nat, k: nat)
    requires k <= n
    ensures Shl(Rev(k, h), n - k) <= Pos(n, h) < Shl(Rev(k, h) + 1, n - k)
  {
    RevConcat(k, n - k, h);
    NextBlock(Rev(k, h), k, n - k);
  }

  lemma BlocksOrdered(n: nat, a: nat, b: nat, k: nat)
    requires k <= n && Rev(k, a) < Rev(k, b)
    ensures Shl(Rev(k, a) + 1, n - k) <= Pos(n, b)
    ensures Pos(n, a) < Pos(n, b)
  {
    hide Rev, Shl, Shr, Low, Ones, HighMask, Pow2, Or;
    ScanBlock(n, a, k);
    ScanBlock(n, b, k);
    ShlMono(Rev(k, a) + 1, Rev(k, b), n - k);
  }

  /** The position of the cursor grows strictly until it returns to zero. */
  lemma CursorAdvances(n: nat, v: nat, k: nat)
    requires k <= n && v < Pow2(n)
    ensures Ones(k) < Pow2(n)
    ensures NextCursor(n, v, Ones(k)) != 0 ==> Pos(n, v) < Pos(n, NextCursor(n, v, Ones(k)))
  {
    NextPosition(n, v, k);
    ScanBlock(n, v, k);
  }

  /** The hashes a cursor has moved past; the cursor 0 handed back by a call has moved past all of them. */
  predicate Passed(n: nat, v': nat, h: nat) {
    v' == 0 || Pos(n, h) < Pos(n, v')
  }

  /**
   * What one call does to the set of hashes passed: those it adds all fall into the bucket just visited,
   * and that bucket is passed entirely.
   */
  lemma NextCursorCovers(n: nat, v: nat, k: nat, h: nat)
    requires k <= n && v < Pow2(n)
    ensures Ones(k) < Pow2(n)
    ensures Passed(n, NextCursor(n, v, Ones(k)), h) <==> (Pos(n, h) < Pos(n, v) || Low(h, k) == Low(v, k))
  {
    hide Rev, Shl, Shr, Low, Ones, HighMask, Pow2, Or;
    NextPosition(n, v, k);
    RevInjective(k, h, v);
    if Rev(k, h) < Rev(k, v) {
      BlocksOrdered(n, h, v, k);
      ScanBlock(n, v, k);
    } else if Rev(k, v) < Rev(k, h) {
      BlocksOrdered(n, v, h, k);
    } else {
      ScanBlock(n, h, k);
    }
  }

  /** The cursor handed back has no bit outside the smaller mask. */
  lemma NextCursorMasked(n: nat, v: nat, k: nat)
    requires k <= n && v < Pow2(n)
    ensures Ones(k) < Pow2(n)
    ensures NextCursor(n, v, Ones(k)) < Pow2(k)
  {
    hide Rev, Shl, Shr, Low, Ones, HighMask, Pow2, Or;
    NextPosition(n, v, k);
    var v' := NextCursor(n, v, Ones(k));
    if v' != 0 {
      ShiftedIsMasked(n, v', k, Rev(k, v) + 1);
    }
  }

  /** Seen through the mask of k bits, the cursor counts up by one in reversed order. */
  lemma NextCursorCounts(n: nat, v: nat, k: nat)
    requires k <= n && v < Pow2(n)
    ensures Ones(k) < Pow2(n)
    ensures Rev(k, v) != Ones(k) ==> Rev(k, NextCursor(n, v, Ones(k))) == Rev(k, v) + 1
  {
    hide Rev, Shl, Shr, Low, Ones, HighMask, Pow2, Or;
    NextPosition(n, v, k);
    if Rev(k, v) != Ones(k) {
      var v' := NextCursor(n, v, Ones(k));
      RevTop(k, n - k, v');
      MaskBound(k, n);
      Recompose(Rev(k, v) + 1, 0, n - k);
    }
  }

  /** Only the masked bits of a cursor decide the next one. */
  lemma NextCursorLow(n: nat, u: nat, v: nat, k: nat)
    requires k <= n && u < Pow2(n) && v < Pow2(n) && Low(u, k) == Low(v, k)
    ensures Ones(k) < Pow2(n)
    ensures NextCursor(n, u, Ones(k)) == NextCursor(n, v, Ones(k))
  {
    hide Rev, Low, Ones, HighMask, Pow2, Or, Inc;
    MaskBound(k, n);
    OrHigh(u, k, n);
    OrHigh(v, k, n);
  }

  lemma ShiftedIsMasked(n: nat, v: nat, k: nat, q: nat)
    requires k <= n && v < Pow2(n)
    requires Pos(n, v) == Shl(q, n - k)
    ensures v < Pow2(k)
  {
    var w := n - k;
    Recompose(q, 0, w);
    RevTop(k, w, v);
    RevInjective(w, Shr(v, k), 0);
    RevZero(w);
    LowSmall(0, w);
    Decompose(v, k);
    ShrBound(v, k, w);
    LowSmall(Shr(v, k), w);
    ShlZero(k);
  }

  // ----- the inner loop over the larger table

  /** The loop's own increment: count up in the bits above the smaller mask. */
  function ExpandCursor(n: nat, u: nat, m0: nat): (w: nat)
    requires u < Pow2(n) && m0 < Pow2(n)
    ensures w < Pow2(n)
  {
    AndBound(Inc(n, OrWord(n, u, m0)), Not(n, m0));
    AndBound(u, m0);
    OrWord(n, And(Inc(n, OrWord(n, u, m0)), Not(n, m0)), And(u, m0))
  }

  /** The bits of a cursor between the two masks. */
  function ExtraBits(u: nat, k0: nat, k1: nat): nat
    requires k0 <= k1
  {
    Low(Shr(u, k0), k1 - k0)
  }

  lemma {:induction false} LowSplit(u: nat, k: nat, w: nat)
    ensures Low(u, k + w) == Shl(Low(Shr(u, k), w), k) + Low(u, k)
  {
    if k > 0 { LowSplit(u / 2, k - 1, w); }
  }

  lemma {:induction false} LowInc(q: nat, w: nat)
    ensures Low(q + 1, w) == if Low(q, w) == Ones(w) then 0 else Low(q, w) + 1
  {
    if w > 0 { LowInc(q / 2, w - 1); }
  }

  lemma {:induction false} LowOfPow2(w: nat)
    ensures Low(Pow2(w), w) == 0
  {
    if w > 0 { LowOfPow2(w - 1); }
  }

  /** The increment keeps the bits under the smaller mask and adds one to those above it. */
  lemma ExpandValue(n: nat, u: nat, k0: nat)
    requires k0 <= n && u < Pow2(n)
    ensures Ones(k0) < Pow2(n)
    ensures Low(ExpandCursor(n, u, Ones(k0)), k0) == Low(u, k0)
    ensures Shr(ExpandCursor(n, u, Ones(k0)), k0) == if Shr(u, k0) == Ones(n - k0) then 0 else Shr(u, k0) + 1
  {
    hide Rev, Shl, Shr, Low, Ones, HighMask, Or, And, Pow2;
    MaskBound(k0, n);
    var q, r := Shr(u, k0), Low(u, k0);
    Decompose(u, k0);
    ShrBound(u, k0, n - k0);
    OrOnes(u, k0);
    NextBlock(q, n - k0, k0);
    var x := Inc(n, OrWord(n, u, Ones(k0)));
    ShlZero(k0);
    var q' := if q == Ones(n - k0) then 0 else q + 1;
    assert x == Shl(q', k0);
    Recompose(q', 0, k0);
    AndHigh(x, k0, n);
    LowSmall(x, n);
    AndOnes(u, k0);
    OrDisjoint(q', r, k0);
    Recompose(q', r, k0);
  }

  /** The loop ends when the bits between the masks are zero again. */
  predicate ExpandDone(u: nat, m0: nat, m1: nat) {
    And(u, Xor(m0, m1)) == 0
  }

  lemma ExpandDoneValue(u: nat, k0: nat, k1: nat)
    requires k0 <= k1
    ensures ExpandDone(u, Ones(k0), Ones(k1)) <==> ExtraBits(u, k0, k1) == 0
  {
    hide Rev, Shl, Shr, Low, Ones, HighMask, Or, And, Pow2, Xor;
    XorOnes(k0, k1);
    AndHigh(u, k0, k1);
    LowSplit(u, k0, k1 - k0);
    ShlZero(k0);
    ShlMono(0, ExtraBits(u, k0, k1), k0);
  }

  /** One round of the loop, in terms of the bits between the masks. */
  lemma ExpandRound(n: nat, u: nat, k0: nat, k1: nat)
    requires k0 <= k1 <= n && u < Pow2(n)
    ensures Ones(k0) < Pow2(n)
    ensures ExtraBits(u, k0, k1) < Pow2(k1 - k0)
    ensures var u' := ExpandCursor(n, u, Ones(k0));
      && Low(u', k0) == Low(u, k0)
      && (ExpandDone(u', Ones(k0), Ones(k1)) <==> ExtraBits(u, k0, k1) == Ones(k1 - k0))
      && (!ExpandDone(u', Ones(k0), Ones(k1)) ==> ExtraBits(u', k0, k1) == ExtraBits(u, k0, k1) + 1)
  {
    hide Rev, Shl, Shr, Low, Ones, HighMask, Or, And, Pow2, Xor, ExpandCursor, ExpandDone;
    var w := k1 - k0;
    ExpandValue(n, u, k0);
    var u' := ExpandCursor(n, u, Ones(k0));
    ExpandDoneValue(u', k0, k1);
    Decompose(Shr(u, k0), w);
    LowInc(Shr(u, k0), w);
    if Shr(u, k0) == Ones(n - k0) {
      LowOnes(w, n - k0);
      RevZero(w);
      LowOfZero(w);
    }
  }

  lemma {:induction false} LowOnes(w: nat, n: nat)
    requires w <= n
    ensures Low(Ones(n), w) == Ones(w)
  {
    if w > 0 { LowOnes(w - 1, n - 1); }
  }

  lemma {:induction false} LowOfZero(w: nat)
    ensures Low(0, w) == 0
  {
    if w > 0 { LowOfZero(w - 1); }
  }

  /** The buckets of the larger table visited by the loop, in order. */
  function Expansions(n: nat, u: nat, k0: nat, k1: nat): (bs: seq<nat>)
    requires k0 <= k1 <= n && u < Pow2(n)
    decreases Pow2(k1 - k0) - ExtraBits(u, k0, k1)
  {
    MaskBound(k0, n);
    ExpandRound(n, u, k0, k1);
    var u' := ExpandCursor(n, u, Ones(k0));
    if !ExpandDone(u', Ones(k0), Ones(k1)) then
      ExpandRound(n, u', k0, k1); [And(u, Ones(k1))] + Expansions(n, u', k0, k1)
    else [And(u, Ones(k1))]
  }

  /** Exactly the expansions of the cursor's bucket that are not below the cursor as numbers are visited. */
  lemma {:induction false} ExpansionsExact(n: nat, u: nat, k0: nat, k1: nat, b: nat)
    requires k0 <= k1 <= n && u < Pow2(n) && b < Pow2(k1)
    ensures b in Expansions(n, u, k0, k1) <==> Low(b, k0) == Low(u, k0) && ExtraBits(u, k0, k1) <= ExtraBits(b, k0, k1)
    decreases Pow2(k1 - k0) - ExtraBits(u, k0, k1)
  {
    hide Rev, Shl, Shr, Low, Ones, HighMask, Or, And, Pow2, Xor, ExpandCursor, ExpandDone, ExtraBits;
    MaskBound(k0, n);
    ExpandRound(n, u, k0, k1);
    AndOnes(u, k1);
    BucketParts(b, u, k0, k1);
    var u' := ExpandCursor(n, u, Ones(k0));
    ExtraBitsBound(b, k0, k1);
    if !ExpandDone(u', Ones(k0), Ones(k1)) {
      ExpandRound(n, u', k0, k1);
      ExpansionsExact(n, u', k0, k1, b);
    }
  }

  lemma ExtraBitsBound(b: nat, k0: nat, k1: nat)
    requires k0 <= k1
    ensures ExtraBits(b, k0, k1) <= Ones(k1 - k0)
  {
    Decompose(Shr(b, k0), k1 - k0);
  }

  /** A bucket of the larger table is determined by its two groups of bits. */
  lemma BucketParts(b: nat, u: nat, k0: nat, k1: nat)
    requires k0 <= k1 && b < Pow2(k1)
    ensures b == Low(u, k1) <==> Low(b, k0) == Low(u, k0) && ExtraBits(b, k0, k1) == ExtraBits(u, k0, k1)
  {
    hide Rev, Shl, Shr, Low, Ones, HighMask, Or, And, Pow2, Xor;
    LowSmall(b, k1);
    LowSplit(b, k0, k1 - k0);
    LowSplit(u, k0, k1 - k0);
    Decompose(b, k0);
    Decompose(u, k0);
    Recompose(ExtraBits(b, k0, k1), Low(b, k0), k0);
    Recompose(ExtraBits(u, k0, k1), Low(u, k0), k0);
  }

  // ----- when a call made with two tables leaves no gap

  /** Zero or 2^i - 1: no zero bit below a one bit. */
  predicate IsOnes(q: nat) {
    And(q, q + 1) == 0
  }

  lemma IsOnesHalf(q: nat)
    requires q > 0
    ensures IsOnes(q) <==> q % 2 == 1 && IsOnes(q / 2)
  {
    if q % 2 == 1 {
      assert q + 1 == 2 * (q / 2 + 1);
      AndEven(q, q / 2 + 1);
    } else {
      assert q + 1 == 2 * (q / 2) + 1;
      AndOdd(q, q / 2);
      AndSelf(q / 2);
    }
  }

  lemma {:induction false} AndSelf(a: nat)
    ensures And(a, a) == a
  {
    if a > 0 { AndSelf(a / 2); }
  }

  /** Below 2^i - 1 every number is also earlier in the order of the scan... */
  lemma {:induction false} OnesIsLast(w: nat, q: nat, p: nat)
    requires IsOnes(q) && p < q < Pow2(w)
    ensures Rev(w, p) < Rev(w, q)
  {
    IsOnesHalf(q);
    if p % 2 == 1 { OnesIsLast(w - 1, q / 2, p / 2); }
  }

  /** ...and below any other number some number is later. */
  lemma {:induction false} LaterBelow(w: nat, q: nat) returns (p: nat)
    requires !IsOnes(q) && q < Pow2(w)
    ensures p < q && Rev(w, q) < Rev(w, p)
  {
    assert q > 0;
    IsOnesHalf(q);
    if q % 2 == 0 {
      p := 1;
    } else {
      var r := LaterBelow(w - 1, q / 2);
      p := 2 * r + 1;
    }
  }

  /** A call made while two tables exist visits the bucket of every hash that its cursor newly moves past. */
  ghost predicate LeavesNoGap(n: nat, v: nat, k0: nat, k1: nat)
    requires k0 <= k1 <= n && v < Pow2(n)
  {
    MaskBound(k0, n);
    forall h: nat :: h < Pow2(n) && Pos(n, v) <= Pos(n, h) && Passed(n, NextCursor(n, v, Ones(k0)), h)
      ==> Low(h, k1) in Expansions(n, v, k0, k1)
  }

  lemma RevExtra(h: nat, k0: nat, k1: nat)
    requires k0 <= k1
    ensures Rev(k1, h) == Shl(Rev(k0, h), k1 - k0) + Rev(k1 - k0, ExtraBits(h, k0, k1))
  {
    RevConcat(k0, k1 - k0, h);
    LowLow(Shr(h, k0), k1 - k0, k1 - k0);
    RevInjective(k1 - k0, Shr(h, k0), ExtraBits(h, k0, k1));
  }

  lemma LowBucket(h: nat, k0: nat, k1: nat)
    requires k0 <= k1
    ensures Low(h, k1) < Pow2(k1)
    ensures Low(Low(h, k1), k0) == Low(h, k0) && ExtraBits(Low(h, k1), k0, k1) == ExtraBits(h, k0, k1)
  {
    hide Rev, Shl, Shr, Low, Ones, HighMask, Or, And, Pow2, Xor;
    Decompose(h, k1);
    LowLow(h, k0, k1);
    LowLow(h, k1, k1);
    LowSplit(h, k0, k1 - k0);
    LowSplit(Low(h, k1), k0, k1 - k0);
    Decompose(h, k0);
    Recompose(ExtraBits(h, k0, k1), Low(h, k0), k0);
    Recompose(ExtraBits(Low(h, k1), k0, k1), Low(h, k0), k0);
  }

  lemma NoGapForHash(n: nat, v: nat, k0: nat, k1: nat, h: nat)
    requires k0 <= k1 <= n && v < Pow2(n)
    requires IsOnes(ExtraBits(v, k0, k1))
    requires Low(h, k0) == Low(v, k0) && Pos(n, v) <= Pos(n, h)
    ensures Low(h, k1) in Expansions(n, v, k0, k1)
  {
    hide Rev, Shl, Shr, Low, Ones, HighMask, Or, And, Pow2, Xor, Expansions, ExtraBits, IsOnes, Pos;
    LowBucket(h, k0, k1);
    ExpansionsExact(n, v, k0, k1, Low(h, k1));
    var p, q := ExtraBits(h, k0, k1), ExtraBits(v, k0, k1);
    if p < q {
      ExpandRound(n, v, k0, k1);
      OnesIsLast(k1 - k0, q, p);
      RevExtra(h, k0, k1);
      RevExtra(v, k0, k1);
      RevInjective(k0, h, v);
      BlocksOrdered(n, h, v, k1);
      assert false;
    }
  }

  lemma GapHash(n: nat, v: nat, k0: nat, k1: nat) returns (h: nat)
    requires k0 <= k1 <= n && v < Pow2(n)
    requires !IsOnes(ExtraBits(v, k0, k1))
    ensures h < Pow2(k1) && h < Pow2(n) && Low(h, k0) == Low(v, k0)
    ensures Pos(n, v) < Pos(n, h)
    ensures Low(h, k1) == h && h !in Expansions(n, v, k0, k1)
  {
    hide Rev, Shl, Shr, Low, Ones, HighMask, Or, And, Pow2, Xor, Expansions, IsOnes, Pos;
    var w := k1 - k0;
    ExpandRound(n, v, k0, k1);
    var p := LaterBelow(w, ExtraBits(v, k0, k1));
    h := Shl(p, k0) + Low(v, k0);
    Decompose(v, k0);
    Recompose(p, Low(v, k0), k0);
    LowSmall(p, w);
    ShlMono(p, Pow2(w), k0);
    ShlPow2(w, k0);
    Pow2Mono(k1, n);
    LowSmall(h, k1);
    RevExtra(h, k0, k1);
    RevExtra(v, k0, k1);
    RevInjective(k0, h, v);
    BlocksOrdered(n, v, h, k1);
    ExpansionsExact(n, v, k0, k1, h);
  }

  /**
   * A call made with two tables leaves no gap exactly when the bits of its cursor between the two masks
   * are zero or 2^i - 1.
   */
  lemma NoGapCondition(n: nat, v: nat, k0: nat, k1: nat)
    requires k0 <= k1 <= n && v < Pow2(n)
    ensures LeavesNoGap(n, v, k0, k1) <==> IsOnes(ExtraBits(v, k0, k1))
  {
    hide Rev, Shl, Shr, Low, Ones, HighMask, Or, And, Pow2, Xor, Expansions, IsOnes, Pos, ExtraBits, NextCursor, Passed;
    MaskBound(k0, n);
    if IsOnes(ExtraBits(v, k0, k1)) {
      forall h: nat | h < Pow2(n) && Pos(n, v) <= Pos(n, h) && Passed(n, NextCursor(n, v, Ones(k0)), h)
        ensures Low(h, k1) in Expansions(n, v, k0, k1)
      {
        NextCursorCovers(n, v, k0, h);
        NoGapForHash(n, v, k0, k1, h);
      }
    } else {
      var h := GapHash(n, v, k0, k1);
      NextCursorCovers(n, v, k0, h);
    }
  }
}
