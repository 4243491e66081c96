/** Deutsch's MD5: md5_append and md5_finish over a block buffer. */
module Md5Deutsch {
  import opened Md5Spec
  import opened Md5Rounds
  import opened Md5Stream

  const PAD: seq<Byte> := [0x80] + Zeros(63)

  /** Four bytes added up make the word that their bits make. */
  lemma SumIsWord(x: Word, y: Word, z: Word, w: Word)
    requires x < 0x100 && y < 0x100 && z < 0x100 && w < 0x100
    ensures x + (y << 8) + (z << 16) + (w << 24) == x | (y << 8) | (z << 16) | (w << 24)
  {
  }

  class Md5State {
    const count: array<nat>   // the message length in bits, low-order word first
    const abcd: array<Word>   // the digest buffer
    const buf: array<Byte>    // the accumulated block
    ghost var m: seq<Byte>    // the message so far

    ghost function Registers(): State
      requires abcd.Length == 4
      reads abcd
    {
      State(abcd[0], abcd[1], abcd[2], abcd[3])
    }

    ghost predicate Valid()
      reads this, count, abcd, buf
    {
      && count.Length == 2 && abcd.Length == 4 && buf.Length == 64
      && CountIs(count[0], count[1], |m|)
      && Registers() == Absorbed(m) && buf[..|m| % 64] == Rest(m)
    }

    /** md5_init */
    constructor ()
      ensures Valid() && m == [] && fresh(count) && fresh(abcd) && fresh(buf)
    {
      count := new nat[2](i => 0);
      abcd := new Word[] [0x67452301, 0xffffffff ^ 0x10325476, 0xffffffff ^ 0x67452301, 0x10325476];
      buf := new Byte[64];
      m := [];
    }

    /** md5_process */
    method Process(data: seq<Byte>)
      requires |data| == 64 && abcd.Length == 4
      modifies abcd
      ensures Registers() == Block(old(Registers()), data)
    {
      hide *;
      ghost var s := Registers();
      OpenRegisters();
      var xbuf := new Word[16];
      var i := 0;
      while i < 16
        modifies xbuf
        invariant 0 <= i <= 16 && forall j :: 0 <= j < i ==> xbuf[j] == WordAt(data, j)
      {
        WordIs(data, i);
        xbuf[i] := SumOf(data[4 * i..4 * i + 4]);
        i := i + 1;
      }
      var X := xbuf[..];
      BlockOf(s, X, data);
      StepsNone(s, X);
      var u := Round1(State(abcd[0], abcd[1], abcd[2], abcd[3]), X, s);
      u := Round2(u, X, s);
      u := Round3(u, X, s);
      u := Round4(u, X, s);
      AddedIs(s, u);
      abcd[0] := Plus(abcd[0], u.a);
      abcd[1] := Plus(abcd[1], u.b);
      abcd[2] := Plus(abcd[2], u.c);
      abcd[3] := Plus(abcd[3], u.d);
      OpenRegisters();
    }

    lemma OpenRegisters()
      requires abcd.Length == 4
      ensures Registers() == State(abcd[0], abcd[1], abcd[2], abcd[3])
    {
    }

    lemma Opened()
      requires Valid()
      ensures count.Length == 2 && abcd.Length == 4 && buf.Length == 64 && CountIs(count[0], count[1], |m|)
      ensures Registers() == Absorbed(m) && buf[..|m| % 64] == Rest(m)
    {
    }

    lemma Closed()
      requires count.Length == 2 && abcd.Length == 4 && buf.Length == 64 && CountIs(count[0], count[1], |m|)
      requires Registers() == Absorbed(m) && buf[..|m| % 64] == Rest(m)
      ensures Valid()
    {
    }

    /** The length of a piece is added to the two words of the count. */
    method AddLength(nbytes: nat, ghost n: nat)
      requires count.Length == 2 && CountIs(count[0], count[1], n) && nbytes < 0x8000_0000
      modifies count
      ensures CountIs(count[0], count[1], n + nbytes)
    {
      CountAdd(count[0], count[1], n, nbytes);
      ModTwice(count[1] + nbytes / 0x2000_0000, 1);
      hide CountIs;
      var nbits := (8 * nbytes) % WORD;
      count[1] := (count[1] + nbytes / 0x2000_0000) % WORD;
      count[0] := (count[0] + nbits) % WORD;
      if count[0] < nbits {
        count[1] := (count[1] + 1) % WORD;
      }
    }

    /** md5_append */
    method Append(data: seq<Byte>)
      requires Valid() && |data| <= 0x7fff_ffc0
      modifies this`m, count, abcd, buf
      ensures Valid() && m == old(m) + data
    {
      hide *;
      Opened();
      ghost var m0 := m;
      var left := |data|;
      CountOffset(count[0], count[1], |m|);
      var offset := count[0] / 8 % 64;
      assert data[..0] == [] && m0 + data[..0] == m0;
      if left <= 0 {
        return;
      }
      AddLength(left, |m0|);
      m := m0 + data;
      var p := 0;
      // an initial partial block
      if offset != 0 {
        var copy := if offset + left > 64 then 64 - offset else left;
        Copy(buf, offset, data[..copy]);
        assert buf[..offset + copy] == Rest(m0) + data[..copy];
        if offset + copy < 64 {
          assert data[..copy] == data;
          Stay(m0, data);
          Closed();
          return;
        }
        Fill(m0, data[..copy]);
        p, left := p + copy, left - copy;
        assert buf[..] == buf[..offset + copy];
        Process(buf[..]);
      } else {
        RestNone(m0);
      }
      // full blocks
      while left >= 64
        modifies abcd
        invariant 0 <= p <= |data| && left == |data| - p && (|m0| + p) % 64 == 0
        invariant Registers() == Absorbed(m0 + data[..p])
        decreases left
      {
        FillNext(m0, data, p);
        Process(data[p..p + 64]);
        p, left := p + 64, left - 64;
      }
      // a final partial block
      assert m0 + data == (m0 + data[..p]) + data[p..];
      RestNone(m0 + data[..p]);
      Stay(m0 + data[..p], data[p..]);
      if left != 0 {
        Copy(buf, 0, data[p..p + left]);
      }
      LeftOver(m0, data, p);
      Closed();
    }

    /** md5_finish */
    method Finish() returns (digest: seq<Byte>)
      requires Valid()
      modifies this`m, count, abcd, buf
      ensures digest == Digest(old(m))
    {
      hide *;
      ghost var m0 := m;
      Opened();
      var data := new Byte[8];
      var i := 0;
      while i < 8
        modifies data
        invariant 0 <= i <= 8 && forall j :: 0 <= j < i ==> data[j] == ShiftedByte(count[j / 4], j % 4)
      {
        data[i] := ShiftedByte(count[i / 4], i % 4);
        i := i + 1;
      }
      LengthSaved(count[0], count[1], |m0|, data[..]);
      CountOffset(count[0], count[1], |m0|);
      var bytes: int := count[0] / 8;
      var k := (55 - bytes) % 64 + 1;
      PadCount(bytes, |m0|);
      PadIs(k);
      Append(PAD[..k]);
      Append(data[..]);
      PadFits(m0, k, data[..]);
      PaddedAbsorbed(m0);
      Opened();
      OpenRegisters();
      digest := [];
      i := 0;
      while i < 16
        invariant 0 <= i <= 16 && |digest| == i
        invariant forall j :: 0 <= j < i ==> digest[j] == WordByte(abcd[j / 4], j % 4)
      {
        digest := digest + [WordByte(abcd[i / 4], i % 4)];
        i := i + 1;
      }
      OutputIs(Registers(), digest);
    }
  }

  lemma LengthSaved(lo: nat, hi: nat, n: nat, data: seq<Byte>)
    requires CountIs(lo, hi, n) && |data| == 8
    requires forall j :: 0 <= j < 8 ==> data[j] == ShiftedByte(if j / 4 == 0 then lo else hi, j % 4)
    ensures data == LengthBytes((8 * n) % 0x1_0000_0000_0000_0000)
  {
    CountBytes(lo, hi, n);
    hide CountIs, LengthBytes, FourBytes, ShiftedByte;
    forall j: nat | j < 4 ensures data[j] == ShiftedByte(lo, j) && data[4 + j] == ShiftedByte(hi, j) {
      assert j / 4 == 0 && j % 4 == j && (4 + j) / 4 == 1 && (4 + j) % 4 == j;
    }
    FourIs(lo, data[..4]);
    FourIs(hi, data[4..]);
    assert data == data[..4] + data[4..];
  }

  lemma PadCount(x: int, n: int)
    requires x % 64 == n % 64
    ensures (55 - x) % 64 == (55 - n) % 64
  {
  }

  lemma FourIs(w: nat, bytes: seq<Byte>)
    requires |bytes| == 4 && forall j :: 0 <= j < 4 ==> bytes[j] == ShiftedByte(w, j)
    ensures bytes == FourBytes(w)
  {
    hide ShiftedByte;
  }

  lemma PadIs(k: nat)
    requires 1 <= k <= 64
    ensures |PAD| == 64 && PAD[..k] == [0x80] + Zeros(k - 1) && |PAD[..k]| == k
  {
  }

  /** The padding bytes and the length make the padded message. */
  lemma PadFits(m: seq<Byte>, k: nat, data: seq<Byte>)
    requires
      && k == (55 - |m|) % 64 + 1 && data == LengthBytes((8 * |m|) % 0x1_0000_0000_0000_0000)
      && |PAD| == 64 && PAD[..k] == [0x80] + Zeros(k - 1)
    ensures (m + PAD[..k]) + data == Padded(m)
  {
    hide LengthBytes;
  }

  lemma OutputIs(s: State, digest: seq<Byte>)
    requires |digest| == 16
    requires forall j :: 0 <= j < 16 ==>
        digest[j] ==
          WordByte(if j / 4 == 0 then s.a else if j / 4 == 1 then s.b else if j / 4 == 2 then s.c else s.d, j % 4)
    ensures digest == Output(s)
  {
    hide WordByte, Encode;
    EncodeIs(s.a, digest[0..4]);
    EncodeIs(s.b, digest[4..8]);
    EncodeIs(s.c, digest[8..12]);
    EncodeIs(s.d, digest[12..16]);
    assert digest == digest[0..4] + digest[4..8] + digest[8..12] + digest[12..16];
  }

  lemma EncodeIs(w: Word, bytes: seq<Byte>)
    requires |bytes| == 4 && forall j :: 0 <= j < 4 ==> bytes[j] == WordByte(w, j)
    ensures bytes == Encode(w)
  {
    hide WordByte;
  }

  /** Hashing a message in any number of pieces gives the digest of the whole. */
  method HashPieces(pieces: seq<seq<Byte>>) returns (digest: seq<Byte>)
    requires forall i :: 0 <= i < |pieces| ==> |pieces[i]| <= 0x7fff_ffc0
    ensures digest == Digest(Joined(pieces))
  {
    var pms := new Md5State();
    var i := 0;
    while i < |pieces|
      invariant 0 <= i <= |pieces| && pms.Valid() && pms.m == Joined(pieces[..i])
      invariant fresh(pms) && fresh(pms.count) && fresh(pms.abcd) && fresh(pms.buf)
    {
      JoinedMore(pieces, i);
      hide *;
      pms.Append(pieces[i]);
      i := i + 1;
    }
    assert pieces[..|pieces|] == pieces;
    digest := pms.Finish();
  }

  lemma LeftOver(m: seq<Byte>, data: seq<Byte>, p: nat)
    requires p <= |data| && (|m| + p) % 64 == 0 && |data| - p < 64
    ensures |m + data| % 64 == |data| - p && data[p..p + (|data| - p)] == data[p..]
  {
  }

  /** The next 64 bytes form a whole block. */
  lemma FillNext(m: seq<Byte>, data: seq<Byte>, p: nat)
    requires p + 64 <= |data| && (|m| + p) % 64 == 0
    ensures Absorbed(m + data[..p + 64]) == Block(Absorbed(m + data[..p]), data[p..p + 64]) && (|m| + p + 64) % 64 == 0
  {
    var n, x := m + data[..p], data[p..p + 64];
    assert n + x == m + data[..p + 64];
    hide Absorbed, Block;
    RestNone(n);
    Fill(n, x);
    assert [] + x == x;
  }

  lemma WordIs(block: seq<Byte>, i: nat)
    requires |block| == 64 && i < 16
    ensures WordAt(block, i) == Decode(block[4 * i..4 * i + 4])
  {
  }

  function SumOf(xp: seq<Byte>): (w: Word)
    requires |xp| == 4
    ensures w == Decode(xp)
  {
    SumIsWord(xp[0] as Word, xp[1] as Word, xp[2] as Word, xp[3] as Word);
    (xp[0] as Word) + ((xp[1] as Word) << 8) + ((xp[2] as Word) << 16) + ((xp[3] as Word) << 24)
  }
}
