/**
 * Unsigned words of n bits as numbers below 2^n: the operators & | ^ ~ << >> of C, and bit reversal.
 * Everything is defined bit by bit, so that every proof is an induction on the number of bits.
 */
module Bits {

  // ----- shifts

  function Shl(a: nat, k: nat): nat {
    if k == 0 then a else 2 * Shl(a, k - 1)
  }

  function Shr(a: nat, k: nat): nat {
    if k == 0 then a else Shr(a / 2, k - 1)
  }

  /** The k lowest bits of a number. */
  function Low(a: nat, k: nat): nat {
    if k == 0 then 0 else 2 * Low(a / 2, k - 1) + a % 2
  }

  function Pow2(k: nat): (p: nat)
    ensures p > 0
  {
    if k == 0 then 1 else 2 * Pow2(k - 1)
  }

  lemma {:induction false} Decompose(a: nat, k: nat)
    ensures a == Shl(Shr(a, k), k) + Low(a, k)
    ensures Low(a, k) < Pow2(k)
  {
    if k > 0 { Decompose(a / 2, k - 1); }
  }

  lemma {:induction false} Recompose(x: nat, y: nat, k: nat)
    requires y < Pow2(k)
    ensures Shr(Shl(x, k) + y, k) == x && Low(Shl(x, k) + y, k) == y
  {
    if k > 0 {
      Recompose(x, y / 2, k - 1);
      assert (Shl(x, k) + y) / 2 == Shl(x, k - 1) + y / 2;
    }
  }

  lemma {:induction false} ShlAdd(x: nat, y: nat, k: nat)
    ensures Shl(x + y, k) == Shl(x, k) + Shl(y, k)
  {
    if k > 0 { ShlAdd(x, y, k - 1); }
  }

  lemma {:induction false} ShlShl(x: nat, j: nat, k: nat)
    ensures Shl(Shl(x, j), k) == Shl(x, j + k)
  {
    if k > 0 { ShlShl(x, j, k - 1); }
  }

  lemma {:induction false} ShlPow2(j: nat, k: nat)
    ensures Shl(Pow2(j), k) == Pow2(j + k)
  {
    if k > 0 { ShlPow2(j, k - 1); }
  }

  lemma {:induction false} ShlMono(x: nat, y: nat, k: nat)
    requires x <= y
    ensures Shl(x, k) <= Shl(y, k)
    ensures x < y ==> Shl(x, k) + Pow2(k) <= Shl(y, k)
  {
    if k > 0 { ShlMono(x, y, k - 1); }
  }

  lemma {:induction false} ShrMono(x: nat, y: nat, k: nat)
    requires x <= y
    ensures Shr(x, k) <= Shr(y, k)
  {
    if k > 0 { ShrMono(x / 2, y / 2, k - 1); }
  }

  lemma {:induction false} Pow2Mono(j: nat, k: nat)
    requires j <= k
    ensures Pow2(j) <= Pow2(k)
    ensures j < k ==> Pow2(j) < Pow2(k)
    decreases k
  {
    if j < k { Pow2Mono(j, k - 1); }
  }

  lemma {:induction false} ShrBound(a: nat, k: nat, w: nat)
    requires a < Pow2(k + w)
    ensures Shr(a, k) < Pow2(w)
  {
    if k > 0 { ShrBound(a / 2, k - 1, w); }
  }

  lemma {:induction false} LowSmall(a: nat, k: nat)
    requires a < Pow2(k)
    ensures Low(a, k) == a && Shr(a, k) == 0
  {
    if k > 0 { LowSmall(a / 2, k - 1); }
  }

  lemma {:induction false} LowLow(a: nat, j: nat, k: nat)
    requires j <= k
    ensures Low(Low(a, k), j) == Low(a, j)
  {
    if j > 0 { LowLow(a / 2, j - 1, k - 1); }
  }

  // ----- & | ^ ~

  function And(a: nat, b: nat): nat {
    if a == 0 || b == 0 then 0 else 2 * And(a / 2, b / 2) + (if a % 2 == 1 && b % 2 == 1 then 1 else 0)
  }

  function Or(a: nat, b: nat): nat
    decreases a + b
  {
    if a == 0 && b == 0 then 0 else 2 * Or(a / 2, b / 2) + (if a % 2 == 1 || b % 2 == 1 then 1 else 0)
  }

  function Xor(a: nat, b: nat): nat
    decreases a + b
  {
    if a == 0 && b == 0 then 0 else 2 * Xor(a / 2, b / 2) + (if a % 2 != b % 2 then 1 else 0)
  }

  /** Complement in a word of n bits. */
  function Not(n: nat, a: nat): (c: nat)
    requires a < Pow2(n)
    ensures c < Pow2(n)
  {
    Pow2(n) - 1 - a
  }

  /** The mask of the k lowest bits. */
  function Ones(k: nat): (m: nat)
    ensures m == Pow2(k) - 1
  {
    if k == 0 then 0 else 2 * Ones(k - 1) + 1
  }

  /** The mask of bits k to n-1. */
  function HighMask(k: nat, n: nat): (m: nat)
    requires k <= n
    ensures m + Ones(k) == Ones(n)
  {
    if k == 0 then Ones(n) else 2 * HighMask(k - 1, n - 1)
  }

  lemma {:induction false} AndOnes(a: nat, k: nat)
    ensures And(a, Ones(k)) == Low(a, k)
  {
    if k > 0 {
      AndOnes(a / 2, k - 1);
      AndOdd(a, Ones(k - 1));
    }
  }

  lemma AndOdd(a: nat, b: nat)
    ensures And(a, 2 * b + 1) == 2 * And(a / 2, b) + a % 2
  {
  }

  lemma AndEven(a: nat, b: nat)
    ensures And(a, 2 * b) == 2 * And(a / 2, b)
  {
  }

  lemma {:induction false} AndHigh(a: nat, k: nat, n: nat)
    requires k <= n
    ensures And(a, HighMask(k, n)) + Low(a, k) == Low(a, n)
  {
    if k == 0 {
      AndOnes(a, n);
    } else {
      AndHigh(a / 2, k - 1, n - 1);
      AndEven(a, HighMask(k - 1, n - 1));
    }
  }

  lemma {:induction false} OrOnes(a: nat, k: nat)
    ensures Or(a, Ones(k)) + Low(a, k) == a + Ones(k)
  {
    if k > 0 {
      OrOnes(a / 2, k - 1);
      OrOdd(a, Ones(k - 1));
    } else {
      OrZero(a);
    }
  }

  lemma OrOdd(a: nat, b: nat)
    ensures Or(a, 2 * b + 1) == 2 * Or(a / 2, b) + 1
  {
  }

  lemma OrEven(a: nat, b: nat)
    ensures Or(a, 2 * b) == 2 * Or(a / 2, b) + a % 2
  {
  }

  lemma {:induction false} OrZero(a: nat)
    ensures Or(a, 0) == a
  {
    if a > 0 { OrZero(a / 2); }
  }

  lemma {:induction false} OrHigh(a: nat, k: nat, n: nat)
    requires k <= n && a < Pow2(n)
    ensures Or(a, HighMask(k, n)) == Low(a, k) + HighMask(k, n)
  {
    if k == 0 {
      OrOnes(a, n);
      LowSmall(a, n);
    } else {
      assert a / 2 < Pow2(n - 1);
      OrHigh(a / 2, k - 1, n - 1);
      OrEven(a, HighMask(k - 1, n - 1));
    }
  }

  /** Numbers with no bit in common are joined by adding them. */
  lemma {:induction false} OrDisjoint(a: nat, b: nat, k: nat)
    requires b < Pow2(k)
    ensures Or(Shl(a, k), b) == Shl(a, k) + b
  {
    if k == 0 {
      OrZero(a);
    } else {
      OrDisjoint(a, b / 2, k - 1);
      OrDouble(Shl(a, k - 1), b);
    }
  }

  lemma OrDouble(a: nat, b: nat)
    ensures Or(2 * a, b) == 2 * Or(a, b / 2) + b % 2
  {
  }

  lemma {:induction false} OrBound(a: nat, b: nat, k: nat)
    requires a < Pow2(k) && b < Pow2(k)
    ensures Or(a, b) < Pow2(k)
  {
    if k > 0 { OrBound(a / 2, b / 2, k - 1); }
  }

  lemma {:induction false} AndBound(a: nat, b: nat)
    ensures And(a, b) <= a
  {
    if a > 0 && b > 0 { AndBound(a / 2, b / 2); }
  }

  /** The bits where two masks differ. */
  lemma {:induction false} XorOnes(k: nat, n: nat)
    requires k <= n
    ensures Xor(Ones(k), Ones(n)) == HighMask(k, n)
  {
    if k > 0 {
      XorOnes(k - 1, n - 1);
      var p, q := Ones(k - 1), Ones(n - 1);
      assert Ones(k) == 2 * p + 1 && Ones(n) == 2 * q + 1;
      XorOdd(p, q);
    } else {
      XorZero(Ones(n));
    }
  }

  lemma XorOdd(a: nat, b: nat)
    ensures Xor(2 * a + 1, 2 * b + 1) == 2 * Xor(a, b)
  {
  }

  lemma {:induction false} XorZero(a: nat)
    ensures Xor(0, a) == a
  {
    if a > 0 { XorZero(a / 2); }
  }

  // ----- bit reversal

  /** The number whose k bits are the k lowest bits of a, in the opposite order. */
  function Rev(k: nat, a: nat): (r: nat)
    ensures r < Pow2(k)
  {
    if k == 0 then 0 else (if a % 2 == 1 then Pow2(k - 1) else 0) + Rev(k - 1, a / 2)
  }

  /** Reversal of two pieces laid side by side. */
  lemma {:induction false} RevConcat(k: nat, w: nat, a: nat)
    ensures Rev(k + w, a) == Shl(Rev(k, a), w) + Rev(w, Shr(a, k))
  {
    if k > 0 {
      RevConcat(k - 1, w, a / 2);
      ShlPow2(k - 1, w);
      var t := if a % 2 == 1 then Pow2(k - 1) else 0;
      ShlAdd(t, Rev(k - 1, a / 2), w);
      ShlZero(w);
    } else {
      ShlZero(w);
    }
  }

  lemma {:induction false} ShlZero(k: nat)
    ensures Shl(0, k) == 0
  {
    if k > 0 { ShlZero(k - 1); }
  }

  /** The top k bits of a reversal are the reversal of the low k bits. */
  lemma RevTop(k: nat, w: nat, a: nat)
    ensures Shr(Rev(k + w, a), w) == Rev(k, a)
    ensures Low(Rev(k + w, a), w) == Rev(w, Shr(a, k))
  {
    RevConcat(k, w, a);
    Recompose(Rev(k, a), Rev(w, Shr(a, k)), w);
  }

  /** Equal low bits give equal reversals, and conversely. */
  lemma {:induction false} RevInjective(k: nat, a: nat, b: nat)
    ensures Rev(k, a) == Rev(k, b) <==> Low(a, k) == Low(b, k)
  {
    if k > 0 {
      RevInjective(k - 1, a / 2, b / 2);
    }
  }

  /** The lowest bit of a reversal is the highest bit of the number. */
  lemma {:induction false} RevLast(k: nat, a: nat)
    ensures Rev(k + 1, a) == 2 * Rev(k, a) + Shr(a, k) % 2
  {
    if k > 0 { RevLast(k - 1, a / 2); }
  }

  lemma {:induction false} LowTop(a: nat, k: nat)
    ensures Low(a, k + 1) == Low(a, k) + (if Shr(a, k) % 2 == 1 then Pow2(k) else 0)
  {
    if k > 0 { LowTop(a / 2, k - 1); }
  }

  /** Reversing twice gives the low bits back. */
  lemma {:induction false} RevRev(k: nat, a: nat)
    ensures Rev(k, Rev(k, a)) == Low(a, k)
  {
    if k > 0 {
      RevRev(k - 1, a);
      RevLast(k - 1, a);
      LowTop(a, k - 1);
    }
  }

  lemma {:induction false} RevAllOnes(k: nat)
    ensures Rev(k, Ones(k)) == Ones(k)
  {
    if k > 0 { RevAllOnes(k - 1); }
  }
}
