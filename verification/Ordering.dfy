/** Comparison functions given by the caller, and the sequences they sort. */
module Ordering {

  type Cmp = (int, int) -> int

  ghost predicate TotalPreorder(cmp: Cmp) {
    && (forall a, b :: cmp(a, b) < 0 <==> cmp(b, a) > 0)
    && (forall a, b, c :: cmp(a, b) <= 0 && cmp(b, c) <= 0 ==> cmp(a, c) <= 0)
  }

  lemma LessThrough(cmp: Cmp, a: int, b: int, c: int)
    requires TotalPreorder(cmp)
    ensures cmp(a, b) <= 0 && cmp(b, c) < 0 ==> cmp(a, c) < 0
    ensures cmp(a, b) < 0 && cmp(b, c) <= 0 ==> cmp(a, c) < 0
    ensures cmp(a, b) <= 0 && cmp(b, c) <= 0 ==> cmp(a, c) <= 0
    ensures cmp(a, b) > 0 <==> cmp(b, a) < 0
  {
    assert cmp(c, a) <= 0 && cmp(a, b) <= 0 ==> cmp(c, b) <= 0;
    assert cmp(b, c) <= 0 && cmp(c, a) <= 0 ==> cmp(b, a) <= 0;
    assert cmp(a, c) < 0 <==> cmp(c, a) > 0;
    assert cmp(b, c) < 0 <==> cmp(c, b) > 0;
    assert cmp(a, b) < 0 <==> cmp(b, a) > 0;
  }
}
