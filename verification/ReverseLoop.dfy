/** The loop that reverses the bits of a word, swapping ever smaller blocks, computes the reversal of Bits. */
module ReverseLoop {
  import opened Bits

  function BitAt(a: nat, i: nat): (b: nat)
    ensures b < 2
  {
    if i == 0 then a % 2 else BitAt(a / 2, i - 1)
  }

  lemma {:induction false} SameBits(n: nat, a: nat, b: nat)
    requires a < Pow2(n) && b < Pow2(n)
    requires forall i: nat :: i < n ==> BitAt(a, i) == BitAt(b, i)
    ensures a == b
  {
    if n > 0 {
      assert BitAt(a, 0) == BitAt(b, 0);
      forall i: nat | i < n - 1 ensures BitAt(a / 2, i) == BitAt(b / 2, i) {
        assert BitAt(a, i + 1) == BitAt(b, i + 1);
      }
      SameBits(n - 1, a / 2, b / 2);
    }
  }

  // ----- the bits of each operator

  lemma {:induction false} BitOfZero(i: nat)
    ensures BitAt(0, i) == 0
  {
    if i > 0 { BitOfZero(i - 1); }
  }

  lemma {:induction false} BitAnd(a: nat, b: nat, i: nat)
    ensures BitAt(And(a, b), i) == if BitAt(a, i) == 1 && BitAt(b, i) == 1 then 1 else 0
  {
    BitOfZero(i);
    if i > 0 && a > 0 && b > 0 { BitAnd(a / 2, b / 2, i - 1); }
  }

  lemma {:induction false} BitOr(a: nat, b: nat, i: nat)
    ensures BitAt(Or(a, b), i) == if BitAt(a, i) == 1 || BitAt(b, i) == 1 then 1 else 0
  {
    BitOfZero(i);
    if i > 0 && a + b > 0 { BitOr(a / 2, b / 2, i - 1); }
  }

  lemma {:induction false} BitXor(a: nat, b: nat, i: nat)
    ensures BitAt(Xor(a, b), i) == if BitAt(a, i) != BitAt(b, i) then 1 else 0
  {
    BitOfZero(i);
    if i > 0 && a + b > 0 { BitXor(a / 2, b / 2, i - 1); }
  }

  lemma {:induction false} BitNot(n: nat, a: nat, i: nat)
    requires a < Pow2(n) && i < n
    ensures BitAt(Not(n, a), i) == 1 - BitAt(a, i)
  {
    assert Not(n, a) / 2 == Not(n - 1, a / 2) && Not(n, a) % 2 == 1 - a % 2;
    if i > 0 { BitNot(n - 1, a / 2, i - 1); }
  }

  lemma {:induction false} BitShr(a: nat, s: nat, i: nat)
    ensures BitAt(Shr(a, s), i) == BitAt(a, i + s)
  {
    if s > 0 { BitShr(a / 2, s - 1, i); }
  }

  lemma {:induction false} BitShl(a: nat, s: nat, i: nat)
    ensures BitAt(Shl(a, s), i) == if i < s then 0 else BitAt(a, i - s)
  {
    if s > 0 && i > 0 { BitShl(a, s - 1, i - 1); }
  }

  lemma {:induction false} BitLow(a: nat, n: nat, i: nat)
    ensures BitAt(Low(a, n), i) == if i < n then BitAt(a, i) else 0
  {
    if n == 0 { BitOfZero(i); } else if i > 0 { BitLow(a / 2, n - 1, i - 1); }
  }

  /** a << s in a word of n bits */
  function ShlWord(n: nat, a: nat, s: nat): (w: nat)
    ensures w < Pow2(n)
  {
    Decompose(Shl(a, s), n);
    Low(Shl(a, s), n)
  }

  lemma BitShlWord(n: nat, a: nat, s: nat, i: nat)
    requires i < n
    ensures BitAt(ShlWord(n, a, s), i) == if i < s then 0 else BitAt(a, i - s)
  {
    BitLow(Shl(a, s), n, i);
    BitShl(a, s, i);
  }

  /** Reversal moves bit i to bit n-1-i. */
  lemma {:induction false} RevBit(n: nat, a: nat, i: nat)
    requires i < n
    ensures BitAt(Rev(n, a), n - 1 - i) == BitAt(a, i)
  {
    if i == 0 {
      HighBit(Rev(n - 1, a / 2), a % 2, n - 1, n - 1);
    } else {
      RevBit(n - 1, a / 2, i - 1);
      HighBit(Rev(n - 1, a / 2), a % 2, n - 1, n - 1 - i);
    }
  }

  lemma {:induction false} HighBit(a: nat, t: nat, k: nat, i: nat)
    requires a < Pow2(k) && t < 2 && i <= k
    ensures BitAt((if t == 1 then Pow2(k) else 0) + a, i) == if i == k then t else BitAt(a, i)
  {
    if i > 0 {
      HighBit(a / 2, t, k - 1, i - 1);
    }
  }

  // ----- the index a bit comes from

  /** The index i with its bit k changed. */
  function Flip(i: nat, k: nat): nat {
    Decompose(i, k);
    if Shr(i, k) % 2 == 0 then i + Pow2(k) else FlipBelow(i, k); i - Pow2(k)
  }

  lemma FlipBelow(i: nat, k: nat)
    requires Shr(i, k) > 0
    ensures Pow2(k) <= i
  {
    Decompose(i, k);
    ShlMono(1, Shr(i, k), k);
    ShlPow2(0, k);
  }

  lemma FlipParts(i: nat, k: nat)
    ensures Low(Flip(i, k), k) == Low(i, k)
    ensures Shr(Flip(i, k), k) == if Shr(i, k) % 2 == 0 then Shr(i, k) + 1 else Shr(i, k) - 1
  {
    Decompose(i, k);
    var q := Shr(i, k);
    ShlPow2(0, k);
    if q % 2 == 0 {
      ShlAdd(q, 1, k);
      Recompose(q + 1, Low(i, k), k);
    } else {
      ShlAdd(q - 1, 1, k);
      Recompose(q - 1, Low(i, k), k);
    }
  }

  /** The index i with bits k to j-1 changed. */
  function Mirror(j: nat, k: nat, i: nat): nat
    requires k <= j
    decreases j - k
  {
    if k == j then i else Mirror(j, k + 1, Flip(i, k))
  }

  lemma ShrNext(i: nat, k: nat)
    ensures Shr(i, k + 1) == Shr(i, k) / 2
    decreases k
  {
    if k > 0 { ShrNext(i / 2, k - 1); }
  }

  lemma {:induction false} MirrorValue(j: nat, k: nat, i: nat)
    requires k <= j && i < Pow2(j)
    ensures Shr(i, k) <= Ones(j - k)
    ensures Mirror(j, k, i) == Shl(Ones(j - k) - Shr(i, k), k) + Low(i, k)
    decreases j - k
  {
    hide Shr, Shl, Low, Flip, Pow2, Rev;
    ShrBound(i, k, j - k);
    if k < j {
      FlipRange(j, k, i);
      MirrorValue(j, k + 1, Flip(i, k));
      MirrorStep(j, k, i);
    } else {
      LowSmall(i, k);
      ShlZero(k);
    }
  }

  /** Changing bit k and then those above it changes bits k and above. */
  lemma MirrorStep(j: nat, k: nat, i: nat)
    requires k < j && Shr(i, k) <= Ones(j - k) && Shr(Flip(i, k), k + 1) <= Ones(j - k - 1)
    ensures var f := Flip(i, k);
      Shl(Ones(j - k - 1) - Shr(f, k + 1), k + 1) + Low(f, k + 1) == Shl(Ones(j - k) - Shr(i, k), k) + Low(i, k)
  {
    assert Ones(j - k) == 2 * Ones(j - k - 1) + 1;
    hide Shr, Shl, Low, Flip, Pow2, Rev, Ones;
    var f, q := Flip(i, k), Shr(i, k);
    FlipParts(i, k);
    ShrNext(f, k);
    LowTop(f, k);
    var x := Ones(j - k - 1) - Shr(f, k + 1);
    assert Shr(f, k + 1) == q / 2;
    assert Ones(j - k) - q == 2 * x + (1 - q % 2);
    ShlAdd(2 * x, 1 - q % 2, k);
    ShlDouble(x, k);
    ShlBit(1 - q % 2, k);
  }

  lemma ShlBit(b: nat, k: nat)
    requires b < 2
    ensures Shl(b, k) == if b == 1 then Pow2(k) else 0
  {
    ShlPow2(0, k);
    ShlZero(k);
  }

  lemma {:induction false} ShlDouble(x: nat, k: nat)
    ensures Shl(2 * x, k) == Shl(x, k + 1)
  {
    if k > 0 { ShlDouble(x, k - 1); }
  }

  lemma FlipRange(j: nat, k: nat, i: nat)
    requires k < j && i < Pow2(j)
    ensures Flip(i, k) < Pow2(j)
  {
    hide Shr, Shl, Low;
    FlipParts(i, k);
    ShrBound(i, k, j - k);
    var f := Flip(i, k);
    Decompose(f, k);
    assert Shr(f, k) + 1 <= Pow2(j - k);
    ShlMono(Shr(f, k) + 1, Pow2(j - k), k);
    ShlAdd(Shr(f, k), 1, k);
    ShlPow2(0, k);
    ShlPow2(j - k, k);
  }

  // ----- the loop

  /** The mask of stage k has exactly the bits whose block of 2^k bits has an even number. */
  ghost predicate StageMask(n: nat, k: nat, mask: nat) {
    mask < Pow2(n) && forall i: nat :: i < n ==> BitAt(mask, i) == 1 - Shr(i, k) % 2
  }

  ghost predicate StageBits(j: nat, k: nat, v: nat, r: nat)
    requires k <= j
  {
    r < Pow2(Pow2(j)) && forall i: nat :: i < Pow2(j) ==> BitAt(r, i) == BitAt(v, Mirror(j, k, i))
  }

  lemma FirstMask(j: nat)
    ensures StageMask(Pow2(j), j, Not(Pow2(j), 0))
  {
    forall i: nat | i < Pow2(j) ensures BitAt(Not(Pow2(j), 0), i) == 1 - Shr(i, j) % 2 {
      BitNot(Pow2(j), 0, i);
      BitOfZero(i);
      LowSmall(i, j);
    }
  }

  lemma FirstBits(j: nat, v: nat)
    requires v < Pow2(Pow2(j))
    ensures StageBits(j, j, v, v)
  {
  }

  lemma {:induction false} XorBound(a: nat, b: nat, k: nat)
    requires a < Pow2(k) && b < Pow2(k)
    ensures Xor(a, b) < Pow2(k)
  {
    if k > 0 { XorBound(a / 2, b / 2, k - 1); }
  }

  lemma ShrMinus(i: nat, k: nat)
    requires i >= Pow2(k)
    ensures Shr(i, k) > 0 && Shr(i - Pow2(k), k) == Shr(i, k) - 1
  {
    hide Shr, Shl, Low;
    Decompose(i, k);
    if Shr(i, k) == 0 { ShlZero(k); }
    ShlAdd(Shr(i, k) - 1, 1, k);
    ShlPow2(0, k);
    Recompose(Shr(i, k) - 1, Low(i, k), k);
  }

  lemma NextMask(n: nat, k: nat, mask: nat)
    requires StageMask(n, k + 1, mask)
    ensures StageMask(n, k, Xor(mask, ShlWord(n, mask, Pow2(k))))
  {
    hide Shr, Shl, Low, BitAt, Xor, Pow2;
    var s := Pow2(k);
    XorBound(mask, ShlWord(n, mask, s), n);
    forall i: nat | i < n ensures BitAt(Xor(mask, ShlWord(n, mask, s)), i) == 1 - Shr(i, k) % 2 {
      BitXor(mask, ShlWord(n, mask, s), i);
      BitShlWord(n, mask, s, i);
      ShrNext(i, k);
      if i >= s {
        ShrMinus(i, k);
        ShrNext(i - s, k);
      } else {
        LowSmall(i, k);
      }
    }
  }

  /** One turn of the loop: pieces of s bits change places. */
  function Swap(n: nat, r: nat, s: nat, mask: nat): nat
    requires mask < Pow2(n)
  {
    Or(And(Shr(r, s), mask), And(ShlWord(n, r, s), Not(n, mask)))
  }

  lemma SwapBit(n: nat, r: nat, s: nat, mask: nat, i: nat)
    requires mask < Pow2(n) && i < n
    ensures BitAt(Swap(n, r, s, mask), i) ==
      if BitAt(mask, i) == 1 then BitAt(r, i + s) else if i < s then 0 else BitAt(r, i - s)
  {
    BitOr(And(Shr(r, s), mask), And(ShlWord(n, r, s), Not(n, mask)), i);
    BitAnd(Shr(r, s), mask, i);
    BitAnd(ShlWord(n, r, s), Not(n, mask), i);
    BitNot(n, mask, i);
    BitShr(r, s, i);
    BitShlWord(n, r, s, i);
  }

  lemma NextBits(j: nat, k: nat, v: nat, r: nat, mask: nat)
    requires k < j && StageBits(j, k + 1, v, r) && StageMask(Pow2(j), k, mask)
    ensures StageBits(j, k, v, Swap(Pow2(j), r, Pow2(k), mask))
  {
    hide *;
    var n, s := Pow2(j), Pow2(k);
    StageOpen(j, k, v, r, mask);
    SwapBound(n, r, s, mask);
    forall i: nat | i < n ensures BitAt(Swap(n, r, s, mask), i) == BitAt(v, Mirror(j, k, i)) {
      NextBit(j, k, v, r, mask, i);
    }
    StageClose(j, k, v, Swap(n, r, s, mask));
  }

  lemma StageOpen(j: nat, k: nat, v: nat, r: nat, mask: nat)
    requires k < j && StageBits(j, k + 1, v, r) && StageMask(Pow2(j), k, mask)
    ensures r < Pow2(Pow2(j)) && mask < Pow2(Pow2(j))
  {
  }

  lemma StageClose(j: nat, k: nat, v: nat, r: nat)
    requires k <= j && r < Pow2(Pow2(j)) && forall i: nat :: i < Pow2(j) ==> BitAt(r, i) == BitAt(v, Mirror(j, k, i))
    ensures StageBits(j, k, v, r)
  {
  }

  lemma NextBit(j: nat, k: nat, v: nat, r: nat, mask: nat, i: nat)
    requires k < j && StageBits(j, k + 1, v, r) && StageMask(Pow2(j), k, mask) && i < Pow2(j)
    ensures mask < Pow2(Pow2(j))
    ensures BitAt(Swap(Pow2(j), r, Pow2(k), mask), i) == BitAt(v, Mirror(j, k, i))
  {
    hide Shr, Shl, Low, BitAt, Xor, Pow2, Or, And, Not, Swap, Flip, ShlWord, Mirror;
    SwapBit(Pow2(j), r, Pow2(k), mask, i);
    FlipRange(j, k, i);
    FlipIs(i, k);
    MirrorUnfold(j, k, i);
  }

  lemma MirrorUnfold(j: nat, k: nat, i: nat)
    requires k < j
    ensures Mirror(j, k, i) == Mirror(j, k + 1, Flip(i, k))
  {
  }

  lemma FlipIs(i: nat, k: nat)
    ensures Shr(i, k) % 2 == 0 ==> Flip(i, k) == i + Pow2(k)
    ensures Shr(i, k) % 2 == 1 ==> Pow2(k) <= i && Flip(i, k) == i - Pow2(k)
  {
    if Shr(i, k) % 2 == 1 { FlipBelow(i, k); }
  }

  lemma SwapBound(n: nat, r: nat, s: nat, mask: nat)
    requires r < Pow2(n) && mask < Pow2(n)
    ensures Swap(n, r, s, mask) < Pow2(n)
  {
    hide Shr, Low, Shl, And, Or;
    AndBound(Shr(r, s), mask);
    ShrSmaller(r, s);
    AndBound(ShlWord(n, r, s), Not(n, mask));
    OrBound(And(Shr(r, s), mask), And(ShlWord(n, r, s), Not(n, mask)), n);
  }

  lemma {:induction false} ShrSmaller(a: nat, s: nat)
    ensures Shr(a, s) <= a
  {
    if s > 0 { ShrSmaller(a / 2, s - 1); }
  }

  lemma LastStage(j: nat, v: nat, r: nat)
    requires StageBits(j, 0, v, r) && v < Pow2(Pow2(j))
    ensures r == Rev(Pow2(j), v)
  {
    hide BitAt, Rev, Mirror;
    var n := Pow2(j);
    forall i: nat | i < n ensures BitAt(r, i) == BitAt(Rev(n, v), i) {
      MirrorValue(j, 0, i);
      RevBit(n, v, n - 1 - i);
    }
    SameBits(n, r, Rev(n, v));
  }

  /** rev: the loop for a word of 2^j bits. */
  method ReverseBits(j: nat, v: nat) returns (r: nat)
    requires v < Pow2(Pow2(j))
    ensures r == Rev(Pow2(j), v)
  {
    hide BitAt, Rev, Mirror, Swap, Xor, Not;
    var n := Pow2(j);
    var s, mask := n, Not(n, 0);
    r := v;
    ghost var k: nat := j;
    FirstMask(j);
    FirstBits(j, v);
    while s / 2 > 0
      invariant k <= j && s == Pow2(k)
      invariant StageMask(n, k, mask) && StageBits(j, k, v, r)
      decreases k
    {
      s, k := s / 2, k - 1;
      NextMask(n, k, mask);
      mask := Xor(mask, ShlWord(n, mask, s));
      NextBits(j, k, v, r, mask);
      r := Swap(n, r, s, mask);
    }
    LastStage(j, v, r);
  }
}
