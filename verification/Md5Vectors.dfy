/** What the specification of MD5 computes: the digests that section A.5 of RFC 1321 lists for "" and "abc". */
module Md5Vectors {
  import opened Md5Spec
  import opened Md5Rounds

  // ----- words and bytes

  /** The bytes of a word make that word again, and no other. */
  lemma DecodeEncode(w: Word)
    ensures Decode(Encode(w)) == w
  {
    WordParts(w);
  }

  lemma WordParts(w: Word)
    ensures
      (w & 0xff) | (((w >> 8) & 0xff) << 8) | (((w >> 16) & 0xff) << 16) | (((w >> 24) & 0xff) << 24) == w
  {
  }

  lemma EncodeDecode(bytes: seq<Byte>)
    requires |bytes| == 4
    ensures Encode(Decode(bytes)) == bytes
  {
    ByteParts(bytes[0] as Word, bytes[1] as Word, bytes[2] as Word, bytes[3] as Word);
  }

  lemma ByteParts(x: Word, y: Word, z: Word, v: Word)
    requires x < 0x100 && y < 0x100 && z < 0x100 && v < 0x100
    ensures var w := x | (y << 8) | (z << 16) | (v << 24);
      w & 0xff == x && (w >> 8) & 0xff == y && (w >> 16) & 0xff == z && (w >> 24) & 0xff == v
  {
  }

  lemma OneBlock(m: seq<Byte>, X: seq<Word>, s: State)
    requires |Padded(m)| == 64 && |X| == 16 && Words(Padded(m)) == X && Steps(64, INITIAL, X) == s
    ensures Digest(m) == Output(Added(INITIAL, s))
  {
    PaddedLength(m);
    var p := Padded(m);
    hide Padded, Words, Steps, Added, Output, Absorb;
    AbsorbStep(INITIAL, p);
    assert p[..64] == p && p[64..] == [];
    AbsorbStep(Block(INITIAL, p), []);
  }

  // ----- from the bytes of a short message to the words of its block

  lemma SmallByte(n: nat, j: nat)
    requires n < 256 && 0 < j < 8
    ensures LengthBytes(n)[j] == 0
  {
    ZeroByte(j - 1);
    assert ByteOf(n, j) == ByteOf(n / 256, j - 1);
  }

  lemma {:induction false} ZeroByte(j: nat)
    ensures ByteOf(0, j) == 0
  {
    if j > 0 { ZeroByte(j - 1); }
  }

  lemma BytesFirst()
    ensures Decode([0x80, 0, 0, 0]) == 0x80 && Decode([0x61, 0x62, 0x63, 0x80]) == 0x80636261
    ensures Decode([0, 0, 0, 0]) == 0 && Decode([24, 0, 0, 0]) == 24
  {
  }

  // ----- the message ""

  /** The block that "" is padded to. */
  const EMPTY: seq<Word> := [0x80, 0, 0, 0, 0, 0, 0, 0, 0, 0, 0, 0, 0, 0, 0, 0]

  lemma Empty4()
    ensures Steps(4, INITIAL, EMPTY) == State(0xa5202774, 0x1b163203, 0xe7f06b23, 0xf59592dd)
  {
    hide Steps, T, TableOf, Index, Shift, SetF, SetG, SetH, SetI;
    StepsNone(INITIAL, EMPTY);
    Entries0();
    QuadF(0, INITIAL, EMPTY);
    Empty0Values();
  }

  lemma Empty0Values()
    ensures SetF(0x67452301, 0xefcdab89, 0x98badcfe, 0x10325476, 0x00000080, 7, 0xd76aa478) == 0xa5202774
    ensures SetF(0x10325476, 0xa5202774, 0xefcdab89, 0x98badcfe, 0x00000000, 12, 0xe8c7b756) == 0xf59592dd
    ensures SetF(0x98badcfe, 0xf59592dd, 0xa5202774, 0xefcdab89, 0x00000000, 17, 0x242070db) == 0xe7f06b23
    ensures SetF(0xefcdab89, 0xe7f06b23, 0xf59592dd, 0xa5202774, 0x00000000, 22, 0xc1bdceee) == 0x1b163203
  {
  }

  lemma Empty8()
    ensures Steps(8, INITIAL, EMPTY) == State(0x32033344, 0x9bc13ce9, 0xf5b158db, 0x2f35d494)
  {
    hide Steps, T, TableOf, Index, Shift, SetF, SetG, SetH, SetI;
    Empty4();
    Entries4();
    QuadF(4, INITIAL, EMPTY);
    Empty4Values();
  }

  lemma Empty4Values()
    ensures SetF(0xa5202774, 0x1b163203, 0xe7f06b23, 0xf59592dd, 0x00000000, 7, 0xf57c0faf) == 0x32033344
    ensures SetF(0xf59592dd, 0x32033344, 0x1b163203, 0xe7f06b23, 0x00000000, 12, 0x4787c62a) == 0x2f35d494
    ensures SetF(0xe7f06b23, 0x2f35d494, 0x32033344, 0x1b163203, 0x00000000, 17, 0xa8304613) == 0xf5b158db
    ensures SetF(0x1b163203, 0xf5b158db, 0x2f35d494, 0x32033344, 0x00000000, 22, 0xfd469501) == 0x9bc13ce9
  {
  }

  lemma Empty12()
    ensures Steps(12, INITIAL, EMPTY) == State(0x3893b991, 0x70768a29, 0xe1ef0576, 0xfce4a312)
  {
    hide Steps, T, TableOf, Index, Shift, SetF, SetG, SetH, SetI;
    Empty8();
    Entries8();
    QuadF(8, INITIAL, EMPTY);
    Empty8Values();
  }

  lemma Empty8Values()
    ensures SetF(0x32033344, 0x9bc13ce9, 0xf5b158db, 0x2f35d494, 0x00000000, 7, 0x698098d8) == 0x3893b991
    ensures SetF(0x2f35d494, 0x3893b991, 0x9bc13ce9, 0xf5b158db, 0x00000000, 12, 0x8b44f7af) == 0xfce4a312
    ensures SetF(0xf5b158db, 0xfce4a312, 0x3893b991, 0x9bc13ce9, 0x00000000, 17, 0xffff5bb1) == 0xe1ef0576
    ensures SetF(0x9bc13ce9, 0xe1ef0576, 0xfce4a312, 0x3893b991, 0x00000000, 22, 0x895cd7be) == 0x70768a29
  {
  }

  lemma Empty16()
    ensures Steps(16, INITIAL, EMPTY) == State(0xf56c7cf1, 0xd6819c6a, 0x5aa53f75, 0x374943a7)
  {
    hide Steps, T, TableOf, Index, Shift, SetF, SetG, SetH, SetI;
    Empty12();
    Entries12();
    QuadF(12, INITIAL, EMPTY);
    Empty12Values();
  }

  lemma Empty12Values()
    ensures SetF(0x3893b991, 0x70768a29, 0xe1ef0576, 0xfce4a312, 0x00000000, 7, 0x6b901122) == 0xf56c7cf1
    ensures SetF(0xfce4a312, 0xf56c7cf1, 0x70768a29, 0xe1ef0576, 0x00000000, 12, 0xfd987193) == 0x374943a7
    ensures SetF(0xe1ef0576, 0x374943a7, 0xf56c7cf1, 0x70768a29, 0x00000000, 17, 0xa679438e) == 0x5aa53f75
    ensures SetF(0x70768a29, 0x5aa53f75, 0x374943a7, 0xf56c7cf1, 0x00000000, 22, 0x49b40821) == 0xd6819c6a
  {
  }

  lemma Empty20()
    ensures Steps(20, INITIAL, EMPTY) == State(0x1c7d7513, 0xbd782e17, 0xc095f13a, 0x7bd57a3a)
  {
    hide Steps, T, TableOf, Index, Shift, SetF, SetG, SetH, SetI;
    Empty16();
    Entries16();
    QuadG(16, INITIAL, EMPTY);
    Empty16Values();
  }

  lemma Empty16Values()
    ensures SetG(0xf56c7cf1, 0xd6819c6a, 0x5aa53f75, 0x374943a7, 0x00000000, 5, 0xf61e2562) == 0x1c7d7513
    ensures SetG(0x374943a7, 0x1c7d7513, 0xd6819c6a, 0x5aa53f75, 0x00000000, 9, 0xc040b340) == 0x7bd57a3a
    ensures SetG(0x5aa53f75, 0x7bd57a3a, 0x1c7d7513, 0xd6819c6a, 0x00000000, 14, 0x265e5a51) == 0xc095f13a
    ensures SetG(0xd6819c6a, 0xc095f13a, 0x7bd57a3a, 0x1c7d7513, 0x00000080, 20, 0xe9b6c7aa) == 0xbd782e17
  {
  }

  lemma Empty24()
    ensures Steps(24, INITIAL, EMPTY) == State(0x3d1e3e6c, 0xe422531a, 0xeb41643e, 0x68b7b3e3)
  {
    hide Steps, T, TableOf, Index, Shift, SetF, SetG, SetH, SetI;
    Empty20();
    Entries20();
    QuadG(20, INITIAL, EMPTY);
    Empty20Values();
  }

  lemma Empty20Values()
    ensures SetG(0x1c7d7513, 0xbd782e17, 0xc095f13a, 0x7bd57a3a, 0x00000000, 5, 0xd62f105d) == 0x3d1e3e6c
    ensures SetG(0x7bd57a3a, 0x3d1e3e6c, 0xbd782e17, 0xc095f13a, 0x00000000, 9, 0x02441453) == 0x68b7b3e3
    ensures SetG(0xc095f13a, 0x68b7b3e3, 0x3d1e3e6c, 0xbd782e17, 0x00000000, 14, 0xd8a1e681) == 0xeb41643e
    ensures SetG(0xbd782e17, 0xeb41643e, 0x68b7b3e3, 0x3d1e3e6c, 0x00000000, 20, 0xe7d3fbc8) == 0xe422531a
  {
  }

  lemma Empty28()
    ensures Steps(28, INITIAL, EMPTY) == State(0x306ec122, 0xa0572807, 0xa3c663da, 0xd28c77c2)
  {
    hide Steps, T, TableOf, Index, Shift, SetF, SetG, SetH, SetI;
    Empty24();
    Entries24();
    QuadG(24, INITIAL, EMPTY);
    Empty24Values();
  }

  lemma Empty24Values()
    ensures SetG(0x3d1e3e6c, 0xe422531a, 0xeb41643e, 0x68b7b3e3, 0x00000000, 5, 0x21e1cde6) == 0x306ec122
    ensures SetG(0x68b7b3e3, 0x306ec122, 0xe422531a, 0xeb41643e, 0x00000000, 9, 0xc33707d6) == 0xd28c77c2
    ensures SetG(0xeb41643e, 0xd28c77c2, 0x306ec122, 0xe422531a, 0x00000000, 14, 0xf4d50d87) == 0xa3c663da
    ensures SetG(0xe422531a, 0xa3c663da, 0xd28c77c2, 0x306ec122, 0x00000000, 20, 0x455a14ed) == 0xa0572807
  {
  }

  lemma Empty32()
    ensures Steps(32, INITIAL, EMPTY) == State(0x13707036, 0xa2205f1f, 0x1c31c384, 0xae7813db)
  {
    hide Steps, T, TableOf, Index, Shift, SetF, SetG, SetH, SetI;
    Empty28();
    Entries28();
    QuadG(28, INITIAL, EMPTY);
    Empty28Values();
  }

  lemma Empty28Values()
    ensures SetG(0x306ec122, 0xa0572807, 0xa3c663da, 0xd28c77c2, 0x00000000, 5, 0xa9e3e905) == 0x13707036
    ensures SetG(0xd28c77c2, 0x13707036, 0xa0572807, 0xa3c663da, 0x00000000, 9, 0xfcefa3f8) == 0xae7813db
    ensures SetG(0xa3c663da, 0xae7813db, 0x13707036, 0xa0572807, 0x00000000, 14, 0x676f02d9) == 0x1c31c384
    ensures SetG(0xa0572807, 0x1c31c384, 0xae7813db, 0x13707036, 0x00000000, 20, 0x8d2a4c8a) == 0xa2205f1f
  {
  }

  lemma Empty36()
    ensures Steps(36, INITIAL, EMPTY) == State(0xdf63eaa1, 0x004b6669, 0x12f3e755, 0xc3689f5b)
  {
    hide Steps, T, TableOf, Index, Shift, SetF, SetG, SetH, SetI;
    Empty32();
    Entries32();
    QuadH(32, INITIAL, EMPTY);
    Empty32Values();
  }

  lemma Empty32Values()
    ensures SetH(0x13707036, 0xa2205f1f, 0x1c31c384, 0xae7813db, 0x00000000, 4, 0xfffa3942) == 0xdf63eaa1
    ensures SetH(0xae7813db, 0xdf63eaa1, 0xa2205f1f, 0x1c31c384, 0x00000000, 11, 0x8771f681) == 0xc3689f5b
    ensures SetH(0x1c31c384, 0xc3689f5b, 0xdf63eaa1, 0xa2205f1f, 0x00000000, 16, 0x6d9d6122) == 0x12f3e755
    ensures SetH(0xa2205f1f, 0x12f3e755, 0xc3689f5b, 0xdf63eaa1, 0x00000000, 23, 0xfde5380c) == 0x004b6669
  {
  }

  lemma Empty40()
    ensures Steps(40, INITIAL, EMPTY) == State(0x5f7a9b2e, 0xc5dc8c15, 0x91ca4cb7, 0xabc34e16)
  {
    hide Steps, T, TableOf, Index, Shift, SetF, SetG, SetH, SetI;
    Empty36();
    Entries36();
    QuadH(36, INITIAL, EMPTY);
    Empty36Values();
  }

  lemma Empty36Values()
    ensures SetH(0xdf63eaa1, 0x004b6669, 0x12f3e755, 0xc3689f5b, 0x00000000, 4, 0xa4beea44) == 0x5f7a9b2e
    ensures SetH(0xc3689f5b, 0x5f7a9b2e, 0x004b6669, 0x12f3e755, 0x00000000, 11, 0x4bdecfa9) == 0xabc34e16
    ensures SetH(0x12f3e755, 0xabc34e16, 0x5f7a9b2e, 0x004b6669, 0x00000000, 16, 0xf6bb4b60) == 0x91ca4cb7
    ensures SetH(0x004b6669, 0x91ca4cb7, 0xabc34e16, 0x5f7a9b2e, 0x00000000, 23, 0xbebfbc70) == 0xc5dc8c15
  {
  }

  lemma Empty44()
    ensures Steps(44, INITIAL, EMPTY) == State(0x4497169d, 0x0fe32453, 0xfd95f243, 0x76fd93d4)
  {
    hide Steps, T, TableOf, Index, Shift, SetF, SetG, SetH, SetI;
    Empty40();
    Entries40();
    QuadH(40, INITIAL, EMPTY);
    Empty40Values();
  }

  lemma Empty40Values()
    ensures SetH(0x5f7a9b2e, 0xc5dc8c15, 0x91ca4cb7, 0xabc34e16, 0x00000000, 4, 0x289b7ec6) == 0x4497169d
    ensures SetH(0xabc34e16, 0x4497169d, 0xc5dc8c15, 0x91ca4cb7, 0x00000080, 11, 0xeaa127fa) == 0x76fd93d4
    ensures SetH(0x91ca4cb7, 0x76fd93d4, 0x4497169d, 0xc5dc8c15, 0x00000000, 16, 0xd4ef3085) == 0xfd95f243
    ensures SetH(0xc5dc8c15, 0xfd95f243, 0x76fd93d4, 0x4497169d, 0x00000000, 23, 0x04881d05) == 0x0fe32453
  {
  }

  lemma Empty48()
    ensures Steps(48, INITIAL, EMPTY) == State(0x3f55edfd, 0xca7d2dbd, 0x68d84ea2, 0x22a31f54)
  {
    hide Steps, T, TableOf, Index, Shift, SetF, SetG, SetH, SetI;
    Empty44();
    Entries44();
    QuadH(44, INITIAL, EMPTY);
    Empty44Values();
  }

  lemma Empty44Values()
    ensures SetH(0x4497169d, 0x0fe32453, 0xfd95f243, 0x76fd93d4, 0x00000000, 4, 0xd9d4d039) == 0x3f55edfd
    ensures SetH(0x76fd93d4, 0x3f55edfd, 0x0fe32453, 0xfd95f243, 0x00000000, 11, 0xe6db99e5) == 0x22a31f54
    ensures SetH(0xfd95f243, 0x22a31f54, 0x3f55edfd, 0x0fe32453, 0x00000000, 16, 0x1fa27cf8) == 0x68d84ea2
    ensures SetH(0x0fe32453, 0x68d84ea2, 0x22a31f54, 0x3f55edfd, 0x00000000, 23, 0xc4ac5665) == 0xca7d2dbd
  {
  }

  lemma Empty52()
    ensures Steps(52, INITIAL, EMPTY) == State(0x93aa2577, 0x561e0689, 0xcd85b8cb, 0x1688dc85)
  {
    hide Steps, T, TableOf, Index, Shift, SetF, SetG, SetH, SetI;
    Empty48();
    Entries48();
    QuadI(48, INITIAL, EMPTY);
    Empty48Values();
  }

  lemma Empty48Values()
    ensures SetI(0x3f55edfd, 0xca7d2dbd, 0x68d84ea2, 0x22a31f54, 0x00000080, 6, 0xf4292244) == 0x93aa2577
    ensures SetI(0x22a31f54, 0x93aa2577, 0xca7d2dbd, 0x68d84ea2, 0x00000000, 10, 0x432aff97) == 0x1688dc85
    ensures SetI(0x68d84ea2, 0x1688dc85, 0x93aa2577, 0xca7d2dbd, 0x00000000, 15, 0xab9423a7) == 0xcd85b8cb
    ensures SetI(0xca7d2dbd, 0xcd85b8cb, 0x1688dc85, 0x93aa2577, 0x00000000, 21, 0xfc93a039) == 0x561e0689
  {
  }

  lemma Empty56()
    ensures Steps(56, INITIAL, EMPTY) == State(0x5625a114, 0x1e77fa61, 0x392ad0d0, 0x3450f42b)
  {
    hide Steps, T, TableOf, Index, Shift, SetF, SetG, SetH, SetI;
    Empty52();
    Entries52();
    QuadI(52, INITIAL, EMPTY);
    Empty52Values();
  }

  lemma Empty52Values()
    ensures SetI(0x93aa2577, 0x561e0689, 0xcd85b8cb, 0x1688dc85, 0x00000000, 6, 0x655b59c3) == 0x5625a114
    ensures SetI(0x1688dc85, 0x5625a114, 0x561e0689, 0xcd85b8cb, 0x00000000, 10, 0x8f0ccc92) == 0x3450f42b
    ensures SetI(0xcd85b8cb, 0x3450f42b, 0x5625a114, 0x561e0689, 0x00000000, 15, 0xffeff47d) == 0x392ad0d0
    ensures SetI(0x561e0689, 0x392ad0d0, 0x3450f42b, 0x5625a114, 0x00000000, 21, 0x85845dd1) == 0x1e77fa61
  {
  }

  lemma Empty60()
    ensures Steps(60, INITIAL, EMPTY) == State(0x474a9c8c, 0x30130182, 0x36594b14, 0xdfce00bc)
  {
    hide Steps, T, TableOf, Index, Shift, SetF, SetG, SetH, SetI;
    Empty56();
    Entries56();
    QuadI(56, INITIAL, EMPTY);
    Empty56Values();
  }

  lemma Empty56Values()
    ensures SetI(0x5625a114, 0x1e77fa61, 0x392ad0d0, 0x3450f42b, 0x00000000, 6, 0x6fa87e4f) == 0x474a9c8c
    ensures SetI(0x3450f42b, 0x474a9c8c, 0x1e77fa61, 0x392ad0d0, 0x00000000, 10, 0xfe2ce6e0) == 0xdfce00bc
    ensures SetI(0x392ad0d0, 0xdfce00bc, 0x474a9c8c, 0x1e77fa61, 0x00000000, 15, 0xa3014314) == 0x36594b14
    ensures SetI(0x1e77fa61, 0x36594b14, 0xdfce00bc, 0x474a9c8c, 0x00000000, 21, 0x4e0811a1) == 0x30130182
  {
  }

  lemma Empty64()
    ensures Steps(64, INITIAL, EMPTY) == State(0x7246fad3, 0x14e45506, 0xff4ea3eb, 0x6e10a476)
  {
    hide Steps, T, TableOf, Index, Shift, SetF, SetG, SetH, SetI;
    Empty60();
    Entries60();
    QuadI(60, INITIAL, EMPTY);
    Empty60Values();
  }

  lemma Empty60Values()
    ensures SetI(0x474a9c8c, 0x30130182, 0x36594b14, 0xdfce00bc, 0x00000000, 6, 0xf7537e82) == 0x7246fad3
    ensures SetI(0xdfce00bc, 0x7246fad3, 0x30130182, 0x36594b14, 0x00000000, 10, 0xbd3af235) == 0x6e10a476
    ensures SetI(0x36594b14, 0x6e10a476, 0x7246fad3, 0x30130182, 0x00000000, 15, 0x2ad7d2bb) == 0xff4ea3eb
    ensures SetI(0x30130182, 0xff4ea3eb, 0x6e10a476, 0x7246fad3, 0x00000000, 21, 0xeb86d391) == 0x14e45506
  {
  }

  lemma EmptyPadded()
    ensures var p := Padded([]);
      && |p| == 64 && p[0..4] == [0x80, 0x00, 0x00, 0x00] && p[56] == 0
      && forall j :: 4 <= j < 64 && j != 56 ==> p[j] == 0
  {
    var m: seq<Byte> := [];
    assert ZeroCount(m) == 55 && Length(m) == 0;
    forall j: nat | 0 < j < 8 ensures LengthBytes(0)[j] == 0 { SmallByte(0, j); }
    assert LengthBytes(0)[0] == 0;
  }

  lemma EmptyWords()
    ensures |Padded([])| == 64 && Words(Padded([])) == EMPTY
  {
    EmptyPadded();
    var p := Padded([]);
    hide Padded;
    BytesFirst();
    forall i: nat | i < 16 ensures WordAt(p, i) == EMPTY[i] {
      if i == 0 {
        assert p[4 * i..4 * i + 4] == p[0..4];
      } else {
        assert p[4 * i..4 * i + 4] == [p[4 * i], 0, 0, 0];
      }
    }
  }

  /** The digest of "". */
  lemma EmptyDigest()
    ensures Digest([]) ==
        [0xd4, 0x1d, 0x8c, 0xd9, 0x8f, 0x00, 0xb2, 0x04,
         0xe9, 0x80, 0x09, 0x98, 0xec, 0xf8, 0x42, 0x7e]
  {
    hide Steps, Padded, Words, Digest, Output, Added;
    EmptyWords();
    Empty64();
    EmptySums();
    EmptyOutput();
    OneBlock([], EMPTY, State(0x7246fad3, 0x14e45506, 0xff4ea3eb, 0x6e10a476));
  }

  lemma EmptySums()
    ensures Added(INITIAL, State(0x7246fad3, 0x14e45506, 0xff4ea3eb, 0x6e10a476)) ==
        State(0xd98c1dd4, 0x04b2008f, 0x980980e9, 0x7e42f8ec)
  {
  }

  lemma EmptyEncoded()
    ensures Encode(0xd98c1dd4) == [0xd4, 0x1d, 0x8c, 0xd9]
    ensures Encode(0x04b2008f) == [0x8f, 0x00, 0xb2, 0x04]
    ensures Encode(0x980980e9) == [0xe9, 0x80, 0x09, 0x98]
    ensures Encode(0x7e42f8ec) == [0xec, 0xf8, 0x42, 0x7e]
  {
  }

  lemma EmptyOutput()
    ensures Output(State(0xd98c1dd4, 0x04b2008f, 0x980980e9, 0x7e42f8ec)) ==
        [0xd4, 0x1d, 0x8c, 0xd9, 0x8f, 0x00, 0xb2, 0x04,
         0xe9, 0x80, 0x09, 0x98, 0xec, 0xf8, 0x42, 0x7e]
  {
    EmptyEncoded();
    hide Encode;
  }

  // ----- the message "abc"

  /** The block that "abc" is padded to. */
  const ABC: seq<Word> := [0x80636261, 0, 0, 0, 0, 0, 0, 0, 0, 0, 0, 0, 0, 0, 0x18, 0]

  lemma Abc4()
    ensures Steps(4, INITIAL, ABC) == State(0xd6d117b4, 0x7ad956f2, 0x2f6fbd72, 0x344a8432)
  {
    hide Steps, T, TableOf, Index, Shift, SetF, SetG, SetH, SetI;
    StepsNone(INITIAL, ABC);
    Entries0();
    QuadF(0, INITIAL, ABC);
    Abc0Values();
  }

  lemma Abc0Values()
    ensures SetF(0x67452301, 0xefcdab89, 0x98badcfe, 0x10325476, 0x80636261, 7, 0xd76aa478) == 0xd6d117b4
    ensures SetF(0x10325476, 0xd6d117b4, 0xefcdab89, 0x98badcfe, 0x00000000, 12, 0xe8c7b756) == 0x344a8432
    ensures SetF(0x98badcfe, 0x344a8432, 0xd6d117b4, 0xefcdab89, 0x00000000, 17, 0x242070db) == 0x2f6fbd72
    ensures SetF(0xefcdab89, 0x2f6fbd72, 0x344a8432, 0xd6d117b4, 0x00000000, 22, 0xc1bdceee) == 0x7ad956f2
  {
  }

  lemma Abc8()
    ensures Steps(8, INITIAL, ABC) == State(0xc73741ef, 0x928d99f6, 0x207dc67b, 0x8bac3051)
  {
    hide Steps, T, TableOf, Index, Shift, SetF, SetG, SetH, SetI;
    Abc4();
    Entries4();
    QuadF(4, INITIAL, ABC);
    Abc4Values();
  }

  lemma Abc4Values()
    ensures SetF(0xd6d117b4, 0x7ad956f2, 0x2f6fbd72, 0x344a8432, 0x00000000, 7, 0xf57c0faf) == 0xc73741ef
    ensures SetF(0x344a8432, 0xc73741ef, 0x7ad956f2, 0x2f6fbd72, 0x00000000, 12, 0x4787c62a) == 0x8bac3051
    ensures SetF(0x2f6fbd72, 0x8bac3051, 0xc73741ef, 0x7ad956f2, 0x00000000, 17, 0xa8304613) == 0x207dc67b
    ensures SetF(0x7ad956f2, 0x207dc67b, 0x8bac3051, 0xc73741ef, 0x00000000, 22, 0xfd469501) == 0x928d99f6
  {
  }

  lemma Abc12()
    ensures Steps(12, INITIAL, ABC) == State(0x854b3712, 0x5ed49596, 0x3020401c, 0x74e2f284)
  {
    hide Steps, T, TableOf, Index, Shift, SetF, SetG, SetH, SetI;
    Abc8();
    Entries8();
    QuadF(8, INITIAL, ABC);
    Abc8Values();
  }

  lemma Abc8Values()
    ensures SetF(0xc73741ef, 0x928d99f6, 0x207dc67b, 0x8bac3051, 0x00000000, 7, 0x698098d8) == 0x854b3712
    ensures SetF(0x8bac3051, 0x854b3712, 0x928d99f6, 0x207dc67b, 0x00000000, 12, 0x8b44f7af) == 0x74e2f284
    ensures SetF(0x207dc67b, 0x74e2f284, 0x854b3712, 0x928d99f6, 0x00000000, 17, 0xffff5bb1) == 0x3020401c
    ensures SetF(0x928d99f6, 0x3020401c, 0x74e2f284, 0x854b3712, 0x00000000, 22, 0x895cd7be) == 0x5ed49596
  {
  }

  lemma Abc16()
    ensures Steps(16, INITIAL, ABC) == State(0xdda9b9a6, 0x72aff2e0, 0xe396856b, 0xa1051895)
  {
    hide Steps, T, TableOf, Index, Shift, SetF, SetG, SetH, SetI;
    Abc12();
    Entries12();
    QuadF(12, INITIAL, ABC);
    Abc12Values();
  }

  lemma Abc12Values()
    ensures SetF(0x854b3712, 0x5ed49596, 0x3020401c, 0x74e2f284, 0x00000000, 7, 0x6b901122) == 0xdda9b9a6
    ensures SetF(0x74e2f284, 0xdda9b9a6, 0x5ed49596, 0x3020401c, 0x00000000, 12, 0xfd987193) == 0xa1051895
    ensures SetF(0x3020401c, 0xa1051895, 0xdda9b9a6, 0x5ed49596, 0x00000018, 17, 0xa679438e) == 0xe396856b
    ensures SetF(0x5ed49596, 0xe396856b, 0xa1051895, 0xdda9b9a6, 0x00000000, 22, 0x49b40821) == 0x72aff2e0
  {
  }

  lemma Abc20()
    ensures Steps(20, INITIAL, ABC) == State(0x3e9e9126, 0xb5b204e4, 0xe25e1652, 0x4a1d804e)
  {
    hide Steps, T, TableOf, Index, Shift, SetF, SetG, SetH, SetI;
    Abc16();
    Entries16();
    QuadG(16, INITIAL, ABC);
    Abc16Values();
  }

  lemma Abc16Values()
    ensures SetG(0xdda9b9a6, 0x72aff2e0, 0xe396856b, 0xa1051895, 0x00000000, 5, 0xf61e2562) == 0x3e9e9126
    ensures SetG(0xa1051895, 0x3e9e9126, 0x72aff2e0, 0xe396856b, 0x00000000, 9, 0xc040b340) == 0x4a1d804e
    ensures SetG(0xe396856b, 0x4a1d804e, 0x3e9e9126, 0x72aff2e0, 0x00000000, 14, 0x265e5a51) == 0xe25e1652
    ensures SetG(0x72aff2e0, 0xe25e1652, 0x4a1d804e, 0x3e9e9126, 0x80636261, 20, 0xe9b6c7aa) == 0xb5b204e4
  {
  }

  lemma Abc24()
    ensures Steps(24, INITIAL, ABC) == State(0x59a8ffda, 0x47092c07, 0xabfc7920, 0x6d002f1e)
  {
    hide Steps, T, TableOf, Index, Shift, SetF, SetG, SetH, SetI;
    Abc20();
    Entries20();
    QuadG(20, INITIAL, ABC);
    Abc20Values();
  }

  lemma Abc20Values()
    ensures SetG(0x3e9e9126, 0xb5b204e4, 0xe25e1652, 0x4a1d804e, 0x00000000, 5, 0xd62f105d) == 0x59a8ffda
    ensures SetG(0x4a1d804e, 0x59a8ffda, 0xb5b204e4, 0xe25e1652, 0x00000000, 9, 0x02441453) == 0x6d002f1e
    ensures SetG(0xe25e1652, 0x6d002f1e, 0x59a8ffda, 0xb5b204e4, 0x00000000, 14, 0xd8a1e681) == 0xabfc7920
    ensures SetG(0xb5b204e4, 0xabfc7920, 0x6d002f1e, 0x59a8ffda, 0x00000000, 20, 0xe7d3fbc8) == 0x47092c07
  {
  }

  lemma Abc28()
    ensures Steps(28, INITIAL, ABC) == State(0xb7f268cf, 0x786acb8f, 0xfe1623b1, 0x09388eff)
  {
    hide Steps, T, TableOf, Index, Shift, SetF, SetG, SetH, SetI;
    Abc24();
    Entries24();
    QuadG(24, INITIAL, ABC);
    Abc24Values();
  }

  lemma Abc24Values()
    ensures SetG(0x59a8ffda, 0x47092c07, 0xabfc7920, 0x6d002f1e, 0x00000000, 5, 0x21e1cde6) == 0xb7f268cf
    ensures SetG(0x6d002f1e, 0xb7f268cf, 0x47092c07, 0xabfc7920, 0x00000018, 9, 0xc33707d6) == 0x09388eff
    ensures SetG(0xabfc7920, 0x09388eff, 0xb7f268cf, 0x47092c07, 0x00000000, 14, 0xf4d50d87) == 0xfe1623b1
    ensures SetG(0x47092c07, 0xfe1623b1, 0x09388eff, 0xb7f268cf, 0x00000000, 20, 0x455a14ed) == 0x786acb8f
  {
  }

  lemma Abc32()
    ensures Steps(32, INITIAL, ABC) == State(0x790a77fb, 0x726342d3, 0xa62884aa, 0x9f47e4f8)
  {
    hide Steps, T, TableOf, Index, Shift, SetF, SetG, SetH, SetI;
    Abc28();
    Entries28();
    QuadG(28, INITIAL, ABC);
    Abc28Values();
  }

  lemma Abc28Values()
    ensures SetG(0xb7f268cf, 0x786acb8f, 0xfe1623b1, 0x09388eff, 0x00000000, 5, 0xa9e3e905) == 0x790a77fb
    ensures SetG(0x09388eff, 0x790a77fb, 0x786acb8f, 0xfe1623b1, 0x00000000, 9, 0xfcefa3f8) == 0x9f47e4f8
    ensures SetG(0xfe1623b1, 0x9f47e4f8, 0x790a77fb, 0x786acb8f, 0x00000000, 14, 0x676f02d9) == 0xa62884aa
    ensures SetG(0x786acb8f, 0xa62884aa, 0x9f47e4f8, 0x790a77fb, 0x00000000, 20, 0x8d2a4c8a) == 0x726342d3
  {
  }

  lemma Abc36()
    ensures Steps(36, INITIAL, ABC) == State(0xb3707ebf, 0x3b0875c7, 0x8d212ff5, 0x60127b2e)
  {
    hide Steps, T, TableOf, Index, Shift, SetF, SetG, SetH, SetI;
    Abc32();
    Entries32();
    QuadH(32, INITIAL, ABC);
    Abc32Values();
  }

  lemma Abc32Values()
    ensures SetH(0x790a77fb, 0x726342d3, 0xa62884aa, 0x9f47e4f8, 0x00000000, 4, 0xfffa3942) == 0xb3707ebf
    ensures SetH(0x9f47e4f8, 0xb3707ebf, 0x726342d3, 0xa62884aa, 0x00000000, 11, 0x8771f681) == 0x60127b2e
    ensures SetH(0xa62884aa, 0x60127b2e, 0xb3707ebf, 0x726342d3, 0x00000000, 16, 0x6d9d6122) == 0x8d212ff5
    ensures SetH(0x726342d3, 0x8d212ff5, 0x60127b2e, 0xb3707ebf, 0x00000018, 23, 0xfde5380c) == 0x3b0875c7
  {
  }

  lemma Abc40()
    ensures Steps(40, INITIAL, ABC) == State(0x21b117b9, 0x5a2f5ea5, 0x3575227e, 0x6e7429d5)
  {
    hide Steps, T, TableOf, Index, Shift, SetF, SetG, SetH, SetI;
    Abc36();
    Entries36();
    QuadH(36, INITIAL, ABC);
    Abc36Values();
  }

  lemma Abc36Values()
    ensures SetH(0xb3707ebf, 0x3b0875c7, 0x8d212ff5, 0x60127b2e, 0x00000000, 4, 0xa4beea44) == 0x21b117b9
    ensures SetH(0x60127b2e, 0x21b117b9, 0x3b0875c7, 0x8d212ff5, 0x00000000, 11, 0x4bdecfa9) == 0x6e7429d5
    ensures SetH(0x8d212ff5, 0x6e7429d5, 0x21b117b9, 0x3b0875c7, 0x00000000, 16, 0xf6bb4b60) == 0x3575227e
    ensures SetH(0x3b0875c7, 0x3575227e, 0x6e7429d5, 0x21b117b9, 0x00000000, 23, 0xbebfbc70) == 0x5a2f5ea5
  {
  }

  lemma Abc44()
    ensures Steps(44, INITIAL, ABC) == State(0x11de1779, 0x4c6124f4, 0x31c465ca, 0xfadcaa38)
  {
    hide Steps, T, TableOf, Index, Shift, SetF, SetG, SetH, SetI;
    Abc40();
    Entries40();
    QuadH(40, INITIAL, ABC);
    Abc40Values();
  }

  lemma Abc40Values()
    ensures SetH(0x21b117b9, 0x5a2f5ea5, 0x3575227e, 0x6e7429d5, 0x00000000, 4, 0x289b7ec6) == 0x11de1779
    ensures SetH(0x6e7429d5, 0x11de1779, 0x5a2f5ea5, 0x3575227e, 0x80636261, 11, 0xeaa127fa) == 0xfadcaa38
    ensures SetH(0x3575227e, 0xfadcaa38, 0x11de1779, 0x5a2f5ea5, 0x00000000, 16, 0xd4ef3085) == 0x31c465ca
    ensures SetH(0x5a2f5ea5, 0x31c465ca, 0xfadcaa38, 0x11de1779, 0x00000000, 23, 0x04881d05) == 0x4c6124f4
  {
  }

  lemma Abc48()
    ensures Steps(48, INITIAL, ABC) == State(0x7f2e507b, 0x7beb9700, 0x8fae6399, 0x99d9679d)
  {
    hide Steps, T, TableOf, Index, Shift, SetF, SetG, SetH, SetI;
    Abc44();
    Entries44();
    QuadH(44, INITIAL, ABC);
    Abc44Values();
  }

  lemma Abc44Values()
    ensures SetH(0x11de1779, 0x4c6124f4, 0x31c465ca, 0xfadcaa38, 0x00000000, 4, 0xd9d4d039) == 0x7f2e507b
    ensures SetH(0xfadcaa38, 0x7f2e507b, 0x4c6124f4, 0x31c465ca, 0x00000000, 11, 0xe6db99e5) == 0x99d9679d
    ensures SetH(0x31c465ca, 0x99d9679d, 0x7f2e507b, 0x4c6124f4, 0x00000000, 16, 0x1fa27cf8) == 0x8fae6399
    ensures SetH(0x4c6124f4, 0x8fae6399, 0x99d9679d, 0x7f2e507b, 0x00000000, 23, 0xc4ac5665) == 0x7beb9700
  {
  }

  lemma Abc52()
    ensures Steps(52, INITIAL, ABC) == State(0x7b201df8, 0x8bf025c4, 0xb298cefd, 0xf4e8e96e)
  {
    hide Steps, T, TableOf, Index, Shift, SetF, SetG, SetH, SetI;
    Abc48();
    Entries48();
    QuadI(48, INITIAL, ABC);
    Abc48Values();
  }

  lemma Abc48Values()
    ensures SetI(0x7f2e507b, 0x7beb9700, 0x8fae6399, 0x99d9679d, 0x80636261, 6, 0xf4292244) == 0x7b201df8
    ensures SetI(0x99d9679d, 0x7b201df8, 0x7beb9700, 0x8fae6399, 0x00000000, 10, 0x432aff97) == 0xf4e8e96e
    ensures SetI(0x8fae6399, 0xf4e8e96e, 0x7b201df8, 0x7beb9700, 0x00000018, 15, 0xab9423a7) == 0xb298cefd
    ensures SetI(0x7beb9700, 0xb298cefd, 0xf4e8e96e, 0x7b201df8, 0x00000000, 21, 0xfc93a039) == 0x8bf025c4
  {
  }

  lemma Abc56()
    ensures Steps(56, INITIAL, ABC) == State(0x06cc5e8a, 0x3bfa2c27, 0x7d632dd0, 0x5b0d97aa)
  {
    hide Steps, T, TableOf, Index, Shift, SetF, SetG, SetH, SetI;
    Abc52();
    Entries52();
    QuadI(52, INITIAL, ABC);
    Abc52Values();
  }

  lemma Abc52Values()
    ensures SetI(0x7b201df8, 0x8bf025c4, 0xb298cefd, 0xf4e8e96e, 0x00000000, 6, 0x655b59c3) == 0x06cc5e8a
    ensures SetI(0xf4e8e96e, 0x06cc5e8a, 0x8bf025c4, 0xb298cefd, 0x00000000, 10, 0x8f0ccc92) == 0x5b0d97aa
    ensures SetI(0xb298cefd, 0x5b0d97aa, 0x06cc5e8a, 0x8bf025c4, 0x00000000, 15, 0xffeff47d) == 0x7d632dd0
    ensures SetI(0x8bf025c4, 0x7d632dd0, 0x5b0d97aa, 0x06cc5e8a, 0x00000000, 21, 0x85845dd1) == 0x3bfa2c27
  {
  }

  lemma Abc60()
    ensures Steps(60, INITIAL, ABC) == State(0x7f81cc35, 0x7327d604, 0x4f9dbe3f, 0x094454ab)
  {
    hide Steps, T, TableOf, Index, Shift, SetF, SetG, SetH, SetI;
    Abc56();
    Entries56();
    QuadI(56, INITIAL, ABC);
    Abc56Values();
  }

  lemma Abc56Values()
    ensures SetI(0x06cc5e8a, 0x3bfa2c27, 0x7d632dd0, 0x5b0d97aa, 0x00000000, 6, 0x6fa87e4f) == 0x7f81cc35
    ensures SetI(0x5b0d97aa, 0x7f81cc35, 0x3bfa2c27, 0x7d632dd0, 0x00000000, 10, 0xfe2ce6e0) == 0x094454ab
    ensures SetI(0x7d632dd0, 0x094454ab, 0x7f81cc35, 0x3bfa2c27, 0x00000000, 15, 0xa3014314) == 0x4f9dbe3f
    ensures SetI(0x3bfa2c27, 0x4f9dbe3f, 0x094454ab, 0x7f81cc35, 0x00000000, 21, 0x4e0811a1) == 0x7327d604
  {
  }

  lemma Abc64()
    ensures Steps(64, INITIAL, ABC) == State(0x310ade8f, 0xc08226b3, 0xe484b9d8, 0x624d8cb2)
  {
    hide Steps, T, TableOf, Index, Shift, SetF, SetG, SetH, SetI;
    Abc60();
    Entries60();
    QuadI(60, INITIAL, ABC);
    Abc60Values();
  }

  lemma Abc60Values()
    ensures SetI(0x7f81cc35, 0x7327d604, 0x4f9dbe3f, 0x094454ab, 0x00000000, 6, 0xf7537e82) == 0x310ade8f
    ensures SetI(0x094454ab, 0x310ade8f, 0x7327d604, 0x4f9dbe3f, 0x00000000, 10, 0xbd3af235) == 0x624d8cb2
    ensures SetI(0x4f9dbe3f, 0x624d8cb2, 0x310ade8f, 0x7327d604, 0x00000000, 15, 0x2ad7d2bb) == 0xe484b9d8
    ensures SetI(0x7327d604, 0xe484b9d8, 0x624d8cb2, 0x310ade8f, 0x00000000, 21, 0xeb86d391) == 0xc08226b3
  {
  }

  lemma AbcPadded()
    ensures var p := Padded([0x61, 0x62, 0x63]);
      && |p| == 64 && p[0..4] == [0x61, 0x62, 0x63, 0x80] && p[56] == 24
      && forall j :: 4 <= j < 64 && j != 56 ==> p[j] == 0
  {
    var m: seq<Byte> := [0x61, 0x62, 0x63];
    assert ZeroCount(m) == 52 && Length(m) == 24;
    forall j: nat | 0 < j < 8 ensures LengthBytes(24)[j] == 0 { SmallByte(24, j); }
    assert LengthBytes(24)[0] == 24;
  }

  lemma AbcWords()
    ensures |Padded([0x61, 0x62, 0x63])| == 64 && Words(Padded([0x61, 0x62, 0x63])) == ABC
  {
    AbcPadded();
    var p := Padded([0x61, 0x62, 0x63]);
    hide Padded;
    BytesFirst();
    forall i: nat | i < 16 ensures WordAt(p, i) == ABC[i] {
      if i == 0 {
        assert p[4 * i..4 * i + 4] == p[0..4];
      } else {
        assert p[4 * i..4 * i + 4] == [p[4 * i], 0, 0, 0];
      }
    }
  }

  /** The digest of "abc". */
  lemma AbcDigest()
    ensures Digest([0x61, 0x62, 0x63]) ==
        [0x90, 0x01, 0x50, 0x98, 0x3c, 0xd2, 0x4f, 0xb0,
         0xd6, 0x96, 0x3f, 0x7d, 0x28, 0xe1, 0x7f, 0x72]
  {
    hide Steps, Padded, Words, Digest, Output, Added;
    AbcWords();
    Abc64();
    AbcSums();
    AbcOutput();
    OneBlock([0x61, 0x62, 0x63], ABC, State(0x310ade8f, 0xc08226b3, 0xe484b9d8, 0x624d8cb2));
  }

  lemma AbcSums()
    ensures Added(INITIAL, State(0x310ade8f, 0xc08226b3, 0xe484b9d8, 0x624d8cb2)) ==
        State(0x98500190, 0xb04fd23c, 0x7d3f96d6, 0x727fe128)
  {
  }

  lemma AbcEncoded()
    ensures Encode(0x98500190) == [0x90, 0x01, 0x50, 0x98]
    ensures Encode(0xb04fd23c) == [0x3c, 0xd2, 0x4f, 0xb0]
    ensures Encode(0x7d3f96d6) == [0xd6, 0x96, 0x3f, 0x7d]
    ensures Encode(0x727fe128) == [0x28, 0xe1, 0x7f, 0x72]
  {
  }

  lemma AbcOutput()
    ensures Output(State(0x98500190, 0xb04fd23c, 0x7d3f96d6, 0x727fe128)) ==
        [0x90, 0x01, 0x50, 0x98, 0x3c, 0xd2, 0x4f, 0xb0,
         0xd6, 0x96, 0x3f, 0x7d, 0x28, 0xe1, 0x7f, 0x72]
  {
    AbcEncoded();
    hide Encode;
  }
}
