/** Looking up a server on the ring of consistent hashing. */
module Ketama {

  /** One entry of the continuum: a place on the ring and the server it stands for. */
  datatype Point = Point(point: nat, server: int)

  predicate Sorted(ring: seq<Point>) {
    forall i, j :: 0 <= i < j < |ring| ==> ring[i].point <= ring[j].point
  }

  /** The first entry at or behind h, or entry 0 when h lies behind them all. */
  ghost predicate Owns(ring: seq<Point>, h: nat, k: nat) {
    && k < |ring|
    && (forall i :: 0 <= i < k ==> ring[i].point < h)
    && (h <= ring[k].point || (k == 0 && forall i :: 0 <= i < |ring| ==> ring[i].point < h))
  }

  lemma OwnerUnique(ring: seq<Point>, h: nat, k: nat, l: nat)
    requires Owns(ring, h, k) && Owns(ring, h, l)
    ensures k == l
  {
  }

  /** ketama_get_server, from the hash of the key on; the result is the index of the entry returned. */
  method GetServer(ring: seq<Point>, h: nat) returns (r: nat)
    requires ring != [] && Sorted(ring)
    ensures Owns(ring, h, r)
  {
    var n := |ring|;
    var lowp, highp := 0, n;
    while true
      invariant 0 <= lowp <= highp <= n
      invariant forall i :: 0 <= i < lowp ==> ring[i].point < h
      invariant highp < n ==> h <= ring[highp].point
      decreases highp - lowp
    {
      var midp := (lowp + highp) / 2;
      if midp == n {
        return 0;
      }
      var midval := ring[midp].point;
      var midval1 := if midp == 0 then 0 else ring[midp - 1].point;
      if h <= midval && h > midval1 {
        return midp;
      }
      if midval < h {
        lowp := midp + 1;
      } else {
        highp := midp - 1;
      }
      if lowp > highp {
        return 0;
      }
    }
  }

  // ----- deleting entries

  /** The entries of the ring that are kept, in order. */
  function Kept(ring: seq<Point>, keep: seq<bool>): seq<Point>
    requires |keep| == |ring|
  {
    if ring == [] then [] else
      var n := |ring| - 1;
      Kept(ring[..n], keep[..n]) + if keep[n] then [ring[n]] else []
  }

  /** Where entry k of the ring stands among the kept ones. */
  function NewIndex(keep: seq<bool>, k: nat): nat
    requires k <= |keep|
  {
    if k == 0 then 0 else NewIndex(keep, k - 1) + if keep[k - 1] then 1 else 0
  }

  lemma {:induction false} NewIndexPrefix(keep: seq<bool>, n: nat, k: nat)
    requires k <= n <= |keep|
    ensures NewIndex(keep[..n], k) == NewIndex(keep, k)
  {
    if k > 0 { NewIndexPrefix(keep, n, k - 1); }
  }

  lemma KeptStep(ring: seq<Point>, keep: seq<bool>)
    requires |keep| == |ring| && ring != []
    ensures var n := |ring| - 1; Kept(ring, keep) == Kept(ring[..n], keep[..n]) + if keep[n] then [ring[n]] else []
  {
  }

  lemma {:induction false} KeptLength(ring: seq<Point>, keep: seq<bool>)
    requires |keep| == |ring|
    ensures |Kept(ring, keep)| == NewIndex(keep, |keep|)
  {
    if ring != [] {
      var n := |ring| - 1;
      KeptLength(ring[..n], keep[..n]);
      NewIndexPrefix(keep, n, n);
    }
  }

  /** A kept entry is in its place. */
  lemma {:induction false} PlaceOf(ring: seq<Point>, keep: seq<bool>, k: nat)
    requires |keep| == |ring| && k < |ring| && keep[k]
    ensures NewIndex(keep, k) < |Kept(ring, keep)| && Kept(ring, keep)[NewIndex(keep, k)] == ring[k]
  {
    var n := |ring| - 1;
    KeptStep(ring, keep);
    NewIndexPrefix(keep, n, k);
    KeptLength(ring[..n], keep[..n]);
    hide Kept;
    if k < n { PlaceOf(ring[..n], keep[..n], k); }
  }

  /** Every place holds a kept entry. */
  lemma {:induction false} OriginOf(ring: seq<Point>, keep: seq<bool>, j: nat) returns (k: nat)
    requires |keep| == |ring| && j < |Kept(ring, keep)|
    ensures k < |ring| && keep[k] && NewIndex(keep, k) == j && Kept(ring, keep)[j] == ring[k]
  {
    var n := |ring| - 1;
    KeptStep(ring, keep);
    KeptLength(ring[..n], keep[..n]);
    if j < |Kept(ring[..n], keep[..n])| {
      k := OriginOf(ring[..n], keep[..n], j);
    } else {
      k := n;
    }
    NewIndexPrefix(keep, n, k);
    PlaceOf(ring, keep, k);
  }

  lemma {:induction false} NewIndexMonotone(keep: seq<bool>, k: nat, l: nat)
    requires k <= l <= |keep|
    ensures NewIndex(keep, k) <= NewIndex(keep, l)
    ensures k < l && keep[k] ==> NewIndex(keep, k) < NewIndex(keep, l)
  {
    if k < l { NewIndexMonotone(keep, k, l - 1); }
  }

  /** Deleting entries other than its own leaves a key with its owner: only keys of deleted entries move. */
  lemma OnlyDeletedMove(ring: seq<Point>, keep: seq<bool>, h: nat, k: nat)
    requires |keep| == |ring| && Sorted(ring) && Owns(ring, h, k) && keep[k]
    ensures Owns(Kept(ring, keep), h, NewIndex(keep, k)) && Kept(ring, keep)[NewIndex(keep, k)] == ring[k]
  {
    PlaceOf(ring, keep, k);
    var kept, j := Kept(ring, keep), NewIndex(keep, k);
    if k == 0 { assert j == 0; }
    forall i | 0 <= i < |kept| ensures (i < j ==> kept[i].point < h) && (ring[k].point < h ==> kept[i].point < h) {
      var o := OriginOf(ring, keep, i);
      if o >= k { NewIndexMonotone(keep, k, o); }
    }
  }

  lemma KeptSorted(ring: seq<Point>, keep: seq<bool>)
    requires |keep| == |ring| && Sorted(ring)
    ensures Sorted(Kept(ring, keep))
  {
    var kept := Kept(ring, keep);
    forall i, j | 0 <= i < j < |kept| ensures kept[i].point <= kept[j].point {
      var o := OriginOf(ring, keep, i);
      var p := OriginOf(ring, keep, j);
      if p <= o { NewIndexMonotone(keep, p, o); }
    }
  }

  /** Two lookups, before and after entries were deleted, agree unless the owner itself was deleted. */
  method Remap(ring: seq<Point>, keep: seq<bool>, h: nat) returns (before: Point, after: Point)
    requires |keep| == |ring| && Sorted(ring) && Kept(ring, keep) != []
    ensures exists k :: 0 <= k < |ring| && Owns(ring, h, k) && before == ring[k] && (keep[k] ==> after == before)
  {
    KeptSorted(ring, keep);
    var k := GetServer(ring, h);
    var l := GetServer(Kept(ring, keep), h);
    before, after := ring[k], Kept(ring, keep)[l];
    if keep[k] {
      OnlyDeletedMove(ring, keep, h, k);
      OwnerUnique(Kept(ring, keep), h, l, NewIndex(keep, k));
    }
  }
}
