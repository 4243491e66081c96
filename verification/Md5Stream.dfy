/** Hashing a message piece by piece: what is absorbed, what is left over, and the length in two words. */
module Md5Stream {
  import opened Md5Spec

  const WORD := 0x1_0000_0000

  // ----- whole blocks and the rest

  function Whole(n: nat): nat {
    n / 64 * 64
  }

  /** The state after all whole blocks of m. */
  function Absorbed(m: seq<Byte>): State {
    Absorb(INITIAL, m[..Whole(|m|)])
  }

  /** What is left of m behind its whole blocks. */
  function Rest(m: seq<Byte>): (r: seq<Byte>)
    ensures |r| == |m| % 64
  {
    m[Whole(|m|)..]
  }

  /** Bytes that do not fill the block wait. */
  lemma Stay(m: seq<Byte>, x: seq<Byte>)
    requires |m| % 64 + |x| < 64
    ensures Absorbed(m + x) == Absorbed(m) && Rest(m + x) == Rest(m) + x
  {
    assert Whole(|m + x|) == Whole(|m|);
    assert (m + x)[..Whole(|m|)] == m[..Whole(|m|)];
  }

  /** Bytes that fill the block are absorbed with what waited. */
  lemma Fill(m: seq<Byte>, x: seq<Byte>)
    requires |m| % 64 + |x| == 64
    ensures |Rest(m) + x| == 64 && Absorbed(m + x) == Block(Absorbed(m), Rest(m) + x) && Rest(m + x) == []
  {
    var w := Whole(|m|);
    assert Whole(|m + x|) == |m + x| == w + 64;
    assert (m + x)[..w + 64] == m[..w] + (Rest(m) + x);
    hide Absorb, Block;
    AbsorbOne(INITIAL, m[..w], Rest(m) + x);
  }

  lemma RestNone(m: seq<Byte>)
    ensures |m| % 64 == 0 ==> Rest(m) == []
  {
  }

  // ----- the length in bits, in two 32-bit words

  ghost predicate CountIs(lo: nat, hi: nat, n: nat) {
    lo < WORD && hi < WORD && lo + WORD * hi == (8 * n) % 0x1_0000_0000_0000_0000
  }

  /** The low-order word still tells how many bytes wait. */
  lemma CountOffset(lo: nat, hi: nat, n: nat)
    requires CountIs(lo, hi, n)
    ensures (lo / 8) % 64 == n % 64
  {
    var q := 8 * n / 0x1_0000_0000_0000_0000;
    assert 8 * n == lo + WORD * hi + 0x1_0000_0000_0000_0000 * q;
    assert lo == 8 * (n - 0x2000_0000 * hi - 0x2000_0000_0000_0000 * q);
  }

  /** Adding the length of a piece word by word, with a carry. */
  lemma CountAdd(lo: nat, hi: nat, n: nat, k: nat)
    requires CountIs(lo, hi, n)
    ensures var bits := (8 * k) % WORD; var lo' := (lo + bits) % WORD;
      && (lo' < bits <==> lo' < lo)
      && CountIs(lo', (hi + k / 0x2000_0000 + (if lo' < bits then 1 else 0)) % WORD, n + k)
  {
    var bits := (8 * k) % WORD;
    var high := k / 0x2000_0000;
    assert 8 * k == bits + WORD * high;
    var lo' := (lo + bits) % WORD;
    var carry := if lo' < bits then 1 else 0;
    assert lo + bits == lo' + WORD * carry;
    var q := 8 * n / 0x1_0000_0000_0000_0000;
    assert 8 * n == lo + WORD * hi + 0x1_0000_0000_0000_0000 * q;
    assert 8 * (n + k) == lo' + WORD * (hi + high + carry) + 0x1_0000_0000_0000_0000 * q;
    CountWrap(n + k, lo', hi + high + carry, q);
  }

  lemma CountWrap(n: nat, lo: nat, sum: nat, q: nat)
    requires 8 * n == lo + WORD * sum + 0x1_0000_0000_0000_0000 * q && lo < WORD
    ensures CountIs(lo, sum % WORD, n)
  {
    var h := sum / WORD;
    assert sum == WORD * h + sum % WORD;
    assert 8 * n == (lo + WORD * (sum % WORD)) + 0x1_0000_0000_0000_0000 * (h + q);
    Unique(8 * n, lo + WORD * (sum % WORD), h + q);
  }

  /** Wrapping around after every addition is wrapping around once. */
  lemma ModTwice(x: nat, y: nat)
    ensures (x % WORD + y) % WORD == (x + y) % WORD && (x + y % WORD) % WORD == (x + y) % WORD
  {
    ModAdd(x % WORD + y, x / WORD);
    ModAdd(x + y % WORD, y / WORD);
  }

  lemma ModAdd(x: nat, q: nat)
    ensures (x + WORD * q) % WORD == x % WORD
  {
    Unique32(x + WORD * q, x % WORD, x / WORD + q);
  }

  lemma Unique32(x: nat, r: nat, q: nat)
    requires x == r + WORD * q && r < WORD
    ensures x % WORD == r
  {
  }

  lemma Unique(x: nat, r: nat, q: nat)
    requires x == r + 0x1_0000_0000_0000_0000 * q && r < 0x1_0000_0000_0000_0000
    ensures x % 0x1_0000_0000_0000_0000 == r
  {
  }

  function Power256(k: nat): (p: nat)
    ensures p > 0
  {
    if k == 0 then 1 else 256 * Power256(k - 1)
  }

  /** The bytes of a number put together from a low and a high part. */
  lemma {:induction false} BytesJoin(k: nat, lo: nat, hi: nat, j: nat)
    requires lo < Power256(k)
    ensures ByteOf(lo + Power256(k) * hi, j) == if j < k then ByteOf(lo, j) else ByteOf(hi, j - k)
  {
    hide ByteOf;
    if k > 0 {
      var x := Power256(k - 1) * hi;
      TimesAgain(k, hi);
      AddMultiple(lo, x);
      if j > 0 {
        ByteNext(lo + 256 * x, j);
        ByteNext(lo, j);
        BytesJoin(k - 1, lo / 256, hi, j - 1);
      } else {
        ByteFirst(lo + 256 * x);
        ByteFirst(lo);
      }
    }
  }

  lemma TimesAgain(k: nat, hi: nat)
    requires k > 0
    ensures Power256(k) * hi == 256 * (Power256(k - 1) * hi)
  {
  }

  lemma AddMultiple(lo: nat, x: nat)
    ensures (lo + 256 * x) % 256 == lo % 256 && (lo + 256 * x) / 256 == lo / 256 + x
  {
  }

  lemma ByteFirst(n: nat)
    ensures ByteOf(n, 0) == (n % 256) as Byte
  {
  }

  lemma ByteNext(n: nat, j: nat)
    requires j > 0
    ensures ByteOf(n, j) == ByteOf(n / 256, j - 1)
  {
  }

  /** The eight bytes of the length are the four bytes of each word, the low-order word first. */
  lemma CountBytes(lo: nat, hi: nat, n: nat)
    requires CountIs(lo, hi, n)
    ensures LengthBytes((8 * n) % 0x1_0000_0000_0000_0000) == FourBytes(lo) + FourBytes(hi)
  {
    var v := (8 * n) % 0x1_0000_0000_0000_0000;
    assert v == lo + 0x1_0000_0000 * hi && lo < 0x1_0000_0000;
    Power4();
    hide *;
    LengthAre(v);
    forall j: nat | j < 8
      ensures LengthBytes(v)[j] == (FourBytes(lo) + FourBytes(hi))[j]
    {
      BytesJoin(4, lo, hi, j);
      if j < 4 { FourAre(lo, j); } else { FourAre(hi, j - 4); }
    }
  }

  lemma Power4()
    ensures Power256(4) == 0x1_0000_0000
  {
    assert Power256(2) == 0x10000;
    assert Power256(4) == 256 * (256 * Power256(2));
  }

  lemma LengthAre(n: nat)
    ensures forall j: nat :: j < 8 ==> LengthBytes(n)[j] == ByteOf(n, j)
  {
  }

  /** (unsigned char)(w >> 8 * k) */
  function ShiftedByte(w: nat, k: nat): Byte
    requires k < 4
  {
    var v := if k == 0 then w else if k == 1 then w / 0x100 else if k == 2 then w / 0x10000 else w / 0x1000000;
    (v % 256) as Byte
  }

  function FourBytes(w: nat): (s: seq<Byte>)
    ensures |s| == 4
  {
    [ShiftedByte(w, 0), ShiftedByte(w, 1), ShiftedByte(w, 2), ShiftedByte(w, 3)]
  }

  lemma FourAre(w: nat, j: nat)
    requires j < 4
    ensures FourBytes(w)[j] == ShiftedByte(w, j) == ByteOf(w, j)
  {
    hide ByteOf;
    if j > 0 { ByteNext(w, j); }
    if j > 1 { ByteNext(w / 256, j - 1); }
    if j > 2 { ByteNext(w / 256 / 256, j - 2); }
    ByteFirst(w);
    ByteFirst(w / 256);
    ByteFirst(w / 256 / 256);
    ByteFirst(w / 256 / 256 / 256);
    Nested(w);
  }

  lemma Nested(w: nat)
    ensures w / 256 / 256 == w / 0x10000 && w / 256 / 256 / 256 == w / 0x1000000
  {
  }

  // ----- padding

  lemma ZerosAdd(a: nat, b: nat)
    ensures Zeros(a) + Zeros(b) == Zeros(a + b)
  {
  }

  /** All of the padded message is absorbed. */
  lemma PaddedAbsorbed(m: seq<Byte>)
    ensures
      && |Padded(m)| % 64 == 0 && Absorbed(Padded(m)) == Absorb(INITIAL, Padded(m))
      && Digest(m) == Output(Absorbed(Padded(m)))
  {
    PaddedLength(m);
    assert Padded(m)[..|Padded(m)|] == Padded(m);
  }

  /** The pieces of a message, put together. */
  function Joined(chunks: seq<seq<Byte>>): seq<Byte> {
    if chunks == [] then [] else chunks[0] + Joined(chunks[1..])
  }

  lemma {:induction false} JoinedMore(chunks: seq<seq<Byte>>, i: nat)
    requires i < |chunks|
    ensures Joined(chunks[..i + 1]) == Joined(chunks[..i]) + chunks[i]
  {
    if i == 0 {
      assert chunks[..1] == [chunks[0]] && chunks[..0] == [];
    } else {
      JoinedMore(chunks[1..], i - 1);
      assert chunks[1..][..i] == chunks[..i + 1][1..] && chunks[1..][..i - 1] == chunks[..i][1..];
    }
  }

  // ----- memcpy and memset

  method Copy(dst: array<Byte>, at: nat, src: seq<Byte>)
    requires at + |src| <= dst.Length
    modifies dst
    ensures dst[..] == old(dst[..])[..at] + src + old(dst[..])[at + |src|..]
  {
    forall k | 0 <= k < |src| {
      dst[at + k] := src[k];
    }
  }

  lemma BlockOf(s: State, X: seq<Word>, block: seq<Byte>)
    requires |block| == 64 && |X| == 16 && forall i :: 0 <= i < 16 ==> X[i] == WordAt(block, i)
    ensures X == Words(block) && Block(s, block) == Added(s, Steps(64, s, X))
  {
    hide WordAt, Steps, Added;
  }
}
