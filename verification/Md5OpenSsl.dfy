/** The OpenSSL form of MD5: MD5_Update and MD5_Final over a block buffer with its own fill count. */
module Md5OpenSsl {
  import opened Md5Spec
  import opened Md5Rounds
  import opened Md5Stream

  class Md5Ctx {
    var A: Word
    var B: Word
    var C: Word
    var D: Word
    var Nl: nat
    var Nh: nat
    const data: array<Byte>
    var num: nat
    ghost var m: seq<Byte>  // the message so far

    ghost function Registers(): State
      reads this`A, this`B, this`C, this`D
    {
      State(A, B, C, D)
    }

    ghost predicate Valid()
      reads this, data
    {
      && data.Length == 64 && num == |m| % 64 && CountIs(Nl, Nh, |m|)
      && Registers() == Absorbed(m) && data[..num] == Rest(m)
    }

    /** MD5_Init */
    constructor ()
      ensures Valid() && m == [] && fresh(data)
    {
      A, B, C, D := 0x67452301, 0xefcdab89, 0x98badcfe, 0x10325476;
      Nl, Nh, num := 0, 0, 0;
      data := new Byte[64](i => 0);
      m := [];
    }

    lemma Opened()
      requires Valid()
      ensures
        && data.Length == 64 && num == |m| % 64 && CountIs(Nl, Nh, |m|) && Registers() == Absorbed(m)
        && data[..num] == Rest(m)
    {
    }

    lemma Closed()
      requires
        && data.Length == 64 && num == |m| % 64 && CountIs(Nl, Nh, |m|) && Registers() == Absorbed(m)
        && data[..num] == Rest(m)
      ensures Valid()
    {
    }

    lemma OpenRegisters()
      ensures Registers() == State(A, B, C, D)
    {
    }

    /**
     * One turn of md5_block_data_order; the words are loaded first, as the rounds between its loads do not
     * touch them.
     */
    method OneBlock(block: seq<Byte>)
      requires |block| == 64
      modifies this`A, this`B, this`C, this`D
      ensures Registers() == Block(old(Registers()), block)
    {
      hide *;
      ghost var s := Registers();
      OpenRegisters();
      var X := Words(block);
      BlockIs(s, block);
      StepsNone(s, X);
      var u := Order0(State(A, B, C, D), X, s);
      u := Order1(u, X, s);
      u := Order2(u, X, s);
      u := Order3(u, X, s);
      AddedIs(s, u);
      A := Plus(A, u.a);
      B := Plus(B, u.b);
      C := Plus(C, u.c);
      D := Plus(D, u.d);
      OpenRegisters();
    }

    /** md5_block_data_order */
    method BlockDataOrder(data_: seq<Byte>, num_: nat)
      requires |data_| == 64 * num_
      modifies this`A, this`B, this`C, this`D
      ensures Registers() == Absorb(old(Registers()), data_)
    {
      hide *;
      ghost var s0 := Registers();
      var p, num := 0, num_;
      AbsorbStep(s0, data_[..0]);
      while num > 0
        invariant 0 <= num <= num_ && p == 64 * (num_ - num) && Registers() == Absorb(s0, data_[..p])
      {
        num := num - 1;
        OneBlock(data_[p..p + 64]);
        AbsorbOne(s0, data_[..p], data_[p..p + 64]);
        assert data_[..p] + data_[p..p + 64] == data_[..p + 64];
        p := p + 64;
      }
      assert data_[..p] == data_;
    }

    /** The length of a piece is added to the two words of the count. */
    method AddLength(len: nat, ghost n: nat)
      requires CountIs(Nl, Nh, n) && len < 0x1_0000_0000_0000_0000
      modifies this`Nl, this`Nh
      ensures CountIs(Nl, Nh, n + len)
    {
      CountAdd(Nl, Nh, n, len);
      var l := (Nl + (len % WORD * 8) % WORD) % WORD;
      ShiftLength(len);
      ghost var hi, carry := Nh, if l < Nl then 1 else 0;
      ModTwice(hi + carry, len / 0x2000_0000);
      ModTwice(hi + carry, len / 0x2000_0000 % WORD);
      NoWrap(hi);
      hide CountIs;
      if l < Nl {
        Nh := (Nh + 1) % WORD;
      }
      Nh := (Nh + len / 0x2000_0000 % WORD) % WORD;
      Nl := l;
    }

    /** All but the count agrees with the message so far. */
    ghost predicate Midway()
      reads this, data
    {
      data.Length == 64 && num == |m| % 64 && Registers() == Absorbed(m) && data[..num] == Rest(m)
    }

    lemma MidwayIs()
      ensures Midway() <==> data.Length == 64 && num == |m| % 64 && Registers() == Absorbed(m) && data[..num] == Rest(m)
      ensures Registers() == State(A, B, C, D)
    {
    }

    /** Adds to the bytes that wait; when they fill the block it is absorbed. Returns how many bytes were taken. */
    method TopUp(data_: seq<Byte>) returns (p: nat)
      requires Midway() && num > 0
      modifies this`A, this`B, this`C, this`D, this`num, this`m, data
      ensures p == (if |data_| + old(num) >= 64 then 64 - old(num) else |data_|)
      ensures Midway() && m == old(m) + data_[..p] && (|data_| + old(num) >= 64 ==> num == 0)
    {
      hide *;
      MidwayIs();
      var n, len := num, |data_|;
      if len >= 64 || len + n >= 64 {
        p := 64 - n;
        Copy(data, n, data_[..p]);
        Fill(m, data_[..p]);
        assert data[..] == Rest(m) + data_[..p];
        BlockDataOrder(data[..], 1);
        AbsorbJust(Absorbed(m), data[..]);
        num := 0;
        m := m + data_[..p];
        Copy(data, 0, Zeros(64));
        assert data[..0] == [];
      } else {
        p := len;
        assert data_[..p] == data_;
        Copy(data, n, data_);
        assert data[..n + len] == Rest(m) + data_;
        num := num + len;
        Stay(m, data_);
        NotFilled(|m|, len);
        m := m + data_;
      }
      MidwayIs();
    }

    /** Absorbs whole blocks directly. */
    method Direct(data_: seq<Byte>, n: nat)
      requires Midway() && num == 0 && |data_| == 64 * n
      modifies this`A, this`B, this`C, this`D, this`m
      ensures Midway() && m == old(m) + data_
    {
      hide *;
      MidwayIs();
      BlockDataOrder(data_, n);
      FillAll(m, data_);
      m := m + data_;
      RestNone(m);
      assert data[..0] == [];
      MidwayIs();
    }

    /** Keeps the last bytes for later. */
    method Keep(data_: seq<Byte>)
      requires Midway() && num == 0 && |data_| < 64
      modifies this`num, this`m, data
      ensures Midway() && m == old(m) + data_
    {
      hide *;
      MidwayIs();
      var len := |data_|;
      Stay(m, data_);
      NotFilled(|m|, len);
      RestNone(m);
      assert [] + data_ == data_;
      if len != 0 {
        num := len;
        Copy(data, 0, data_);
      }
      m := m + data_;
      MidwayIs();
    }

    /** MD5_Update */
    method Update(data_: seq<Byte>) returns (r: int)
      requires Valid() && |data_| < 0x1_0000_0000_0000_0000
      modifies this, data
      ensures Valid() && m == old(m) + data_ && r == 1
    {
      hide *;
      Opened();
      ghost var m0 := m;
      var len := |data_|;
      OpenRegisters();
      Nothing(m0, data_);
      if len == 0 {
        return 1;
      }
      AddLength(len, |m0|);
      MidwayIs();
      var p := 0;
      if num != 0 {
        p := TopUp(data_);
        Taken(m0, data_, p);
        if p == len && num != 0 {
          MidwayIs();
          Closed();
          return 1;
        }
        len := len - p;
      }
      var n := len / 64;
      if n > 0 {
        Direct(data_[p..p + 64 * n], n);
        n := n * 64;
        Onward(m0, data_, p, n);
        p, len := p + n, len - n;
      }
      Onward(m0, data_, p, len);
      Keep(data_[p..p + len]);
      Taken(m0, data_, |data_|);
      MidwayIs();
      Closed();
      return 1;
    }

    /** The byte 0x80, and zeros to the end of the block when the length does not fit behind it. */
    method Mark() returns (n: nat, ghost z: nat)
      requires Midway()
      modifies this`A, this`B, this`C, this`D, data
      ensures z == (if num < 56 then 0 else 63 - num) && n == (if num < 56 then num + 1 else 0)
      ensures
        && Registers() == Absorbed(m + ([0x80] + Zeros(z)))
        && data[..n] == Rest(m + ([0x80] + Zeros(z))) && n == |Rest(m + ([0x80] + Zeros(z)))|
    {
      hide *;
      MidwayIs();
      n := num;
      Copy(data, n, [0x80]);
      assert data[..n + 1] == Rest(m) + [0x80];
      n, z := n + 1, 0;
      NoZeros();
      if n > 56 {
        z := 64 - n;
        Copy(data, n, Zeros(64 - n));
        assert data[..] == Rest(m) + ([0x80] + Zeros(z));
        Fill(m, [0x80] + Zeros(z));
        BlockDataOrder(data[..], 1);
        AbsorbJust(Absorbed(m), data[..]);
        n := 0;
        assert data[..0] == [];
      } else {
        Stay(m, [0x80]);
      }
    }

    /** Zeros and the length complete the last block. */
    method LastBlock(n: nat, ghost w: seq<Byte>)
      requires data.Length == 64 && n <= 56 && n == |Rest(w)| && data[..n] == Rest(w) && Registers() == Absorbed(w)
      modifies this`A, this`B, this`C, this`D, data
      ensures Registers() == Absorbed(w + (Zeros(56 - n) + (FourBytes(Nl) + FourBytes(Nh))))
    {
      hide *;
      Copy(data, n, Zeros(56 - n));
      assert data[..56] == Rest(w) + Zeros(56 - n);
      Copy(data, 56, FourBytes(Nl));
      assert data[..60] == Rest(w) + (Zeros(56 - n) + FourBytes(Nl));
      Copy(data, 60, FourBytes(Nh));
      assert data[..] == Rest(w) + (Zeros(56 - n) + (FourBytes(Nl) + FourBytes(Nh)));
      Fill(w, Zeros(56 - n) + (FourBytes(Nl) + FourBytes(Nh)));
      BlockDataOrder(data[..], 1);
      AbsorbJust(Absorbed(w), data[..]);
    }

    /** MD5_Final */
    method Final() returns (md: seq<Byte>)
      requires Valid()
      modifies this`A, this`B, this`C, this`D, this`num, data
      ensures md == Digest(m) && num == 0 && data[..] == Zeros(64)
    {
      hide *;
      Opened();
      MidwayIs();
      ghost var z: nat;
      var n: nat;
      n, z := Mark();
      LastBlock(n, m + ([0x80] + Zeros(z)));
      CountBytes(Nl, Nh, |m|);
      PaddedPieces(m, n, z);
      PaddedAbsorbed(m);
      OpenRegisters();
      num := 0;
      Copy(data, 0, Zeros(64));
      md := Encode(A) + Encode(B) + Encode(C) + Encode(D);
      OutputOf(Registers());
    }
  }

  lemma NoZeros()
    ensures [0x80] + Zeros(0) == [0x80]
  {
  }

  lemma OutputOf(s: State)
    ensures Output(s) == Encode(s.a) + Encode(s.b) + Encode(s.c) + Encode(s.d)
  {
  }

  /** The pieces written into the last block or two make the padded message. */
  lemma PaddedPieces(m: seq<Byte>, n: nat, z: nat)
    requires z == (if |m| % 64 < 56 then 0 else 63 - |m| % 64) && n == (if |m| % 64 < 56 then |m| % 64 + 1 else 0)
    ensures (m + ([0x80] + Zeros(z))) + (Zeros(56 - n) + LengthBytes((8 * |m|) % 0x1_0000_0000_0000_0000)) == Padded(m)
  {
    ZerosAdd(z, 56 - n);
    assert z + (56 - n) == ZeroCount(m);
    hide Zeros, LengthBytes, ZeroCount;
    Flatten(m, [0x80], Zeros(z), Zeros(56 - n), LengthBytes(Length(m)));
  }

  lemma Flatten(m: seq<Byte>, a: seq<Byte>, b: seq<Byte>, c: seq<Byte>, d: seq<Byte>)
    ensures (m + (a + b)) + (c + d) == m + a + (b + c) + d
  {
  }

  /** Hashing a message in any number of pieces gives the digest of the whole. */
  method HashPieces(pieces: seq<seq<Byte>>) returns (digest: seq<Byte>)
    requires forall i :: 0 <= i < |pieces| ==> |pieces[i]| < 0x1_0000_0000_0000_0000
    ensures digest == Digest(Joined(pieces))
  {
    var c := new Md5Ctx();
    var i := 0;
    while i < |pieces|
      invariant 0 <= i <= |pieces| && c.Valid() && c.m == Joined(pieces[..i])
      invariant fresh(c) && fresh(c.data)
    {
      JoinedMore(pieces, i);
      hide *;
      var _ := c.Update(pieces[i]);
      i := i + 1;
    }
    assert pieces[..|pieces|] == pieces;
    digest := c.Final();
  }

  lemma BlockIs(s: State, block: seq<Byte>)
    requires |block| == 64
    ensures |Words(block)| == 16 && Block(s, block) == Added(s, Steps(64, s, Words(block)))
  {
    hide Steps, Added, WordAt;
  }

  lemma Nothing(m: seq<Byte>, x: seq<Byte>)
    ensures m + x[..0] == m && (|x| == 0 ==> m + x == m)
  {
  }

  lemma Taken(m: seq<Byte>, x: seq<Byte>, p: nat)
    requires p <= |x|
    ensures p == |x| ==> m + x[..p] == m + x
  {
    assert x[..|x|] == x;
  }

  lemma Onward(m: seq<Byte>, x: seq<Byte>, p: nat, n: nat)
    requires p + n <= |x|
    ensures (m + x[..p]) + x[p..p + n] == m + x[..p + n]
  {
  }

  lemma AbsorbJust(s: State, block: seq<Byte>)
    requires |block| == 64
    ensures Absorb(s, block) == Block(s, block)
  {
    AbsorbOne(s, [], block);
    assert [] + block == block;
  }

  lemma NotFilled(n: nat, len: nat)
    requires n % 64 + len < 64
    ensures (n + len) % 64 == n % 64 + len
  {
  }

  lemma AbsorbedWhole(m: seq<Byte>)
    requires |m| % 64 == 0
    ensures Absorbed(m) == Absorb(INITIAL, m)
  {
    assert Whole(|m|) == |m| && m[..|m|] == m;
    hide Absorb;
  }

  /** Whole blocks behind whole blocks. */
  lemma FillAll(m: seq<Byte>, x: seq<Byte>)
    requires |m| % 64 == 0 && |x| % 64 == 0
    ensures |m + x| % 64 == 0 && Absorbed(m + x) == Absorb(Absorbed(m), x)
  {
    hide *;
    AbsorbMore(INITIAL, m, x);
    AbsorbedWhole(m);
    AbsorbedWhole(m + x);
  }

  lemma NoWrap(x: nat)
    ensures x < WORD ==> x % WORD == x
  {
  }

  /** The shifted length, cut off to a word, is the low-order word of the length in bits. */
  lemma ShiftLength(len: nat)
    ensures (len % WORD * 8) % WORD == (8 * len) % WORD
  {
    var q := len / WORD;
    assert 8 * len == len % WORD * 8 + WORD * (8 * q);
    ModAdd(len % WORD * 8, 8 * q);
  }
}
