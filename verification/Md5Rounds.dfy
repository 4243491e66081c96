/** The 64 operations written out in the two implementations, and that both compute what RFC 1321 prescribes. */
module Md5Rounds {
  import opened Md5Spec

  // ----- the step macros of md5.c

  function SetF(a: Word, b: Word, c: Word, d: Word, x: Word, s: nat, t: Word): Word
    requires 0 < s < 32
  {
    Plus(RotateLeft(Plus(Plus(Plus(a, F(b, c, d)), x), t), s), b)
  }

  function SetG(a: Word, b: Word, c: Word, d: Word, x: Word, s: nat, t: Word): Word
    requires 0 < s < 32
  {
    Plus(RotateLeft(Plus(Plus(Plus(a, G(b, c, d)), x), t), s), b)
  }

  function SetH(a: Word, b: Word, c: Word, d: Word, x: Word, s: nat, t: Word): Word
    requires 0 < s < 32
  {
    Plus(RotateLeft(Plus(Plus(Plus(a, H(b, c, d)), x), t), s), b)
  }

  function SetI(a: Word, b: Word, c: Word, d: Word, x: Word, s: nat, t: Word): Word
    requires 0 < s < 32
  {
    Plus(RotateLeft(Plus(Plus(Plus(a, I(b, c, d)), x), t), s), b)
  }

  function Table1(i: nat): Word
    requires 1 <= i <= 16
  {
    match i
    case 1 => 0xffffffff ^ 0x28955b87
    case 2 => 0xffffffff ^ 0x173848a9
    case 3 => 0x242070db
    case 4 => 0xffffffff ^ 0x3e423111
    case 5 => 0xffffffff ^ 0x0a83f050
    case 6 => 0x4787c62a
    case 7 => 0xffffffff ^ 0x57cfb9ec
    case 8 => 0xffffffff ^ 0x02b96afe
    case 9 => 0x698098d8
    case 10 => 0xffffffff ^ 0x74bb0850
    case 11 => 0xffffffff ^ 0x0000a44e
    case 12 => 0xffffffff ^ 0x76a32841
    case 13 => 0x6b901122
    case 14 => 0xffffffff ^ 0x02678e6c
    case 15 => 0xffffffff ^ 0x5986bc71
    case _ => 0x49b40821
  }

  function Table2(i: nat): Word
    requires 17 <= i <= 32
  {
    match i
    case 17 => 0xffffffff ^ 0x09e1da9d
    case 18 => 0xffffffff ^ 0x3fbf4cbf
    case 19 => 0x265e5a51
    case 20 => 0xffffffff ^ 0x16493855
    case 21 => 0xffffffff ^ 0x29d0efa2
    case 22 => 0x02441453
    case 23 => 0xffffffff ^ 0x275e197e
    case 24 => 0xffffffff ^ 0x182c0437
    case 25 => 0x21e1cde6
    case 26 => 0xffffffff ^ 0x3cc8f829
    case 27 => 0xffffffff ^ 0x0b2af278
    case 28 => 0x455a14ed
    case 29 => 0xffffffff ^ 0x561c16fa
    case 30 => 0xffffffff ^ 0x03105c07
    case 31 => 0x676f02d9
    case _ => 0xffffffff ^ 0x72d5b375
  }

  function Table3(i: nat): Word
    requires 33 <= i <= 48
  {
    match i
    case 33 => 0xffffffff ^ 0x0005c6bd
    case 34 => 0xffffffff ^ 0x788e097e
    case 35 => 0x6d9d6122
    case 36 => 0xffffffff ^ 0x021ac7f3
    case 37 => 0xffffffff ^ 0x5b4115bb
    case 38 => 0x4bdecfa9
    case 39 => 0xffffffff ^ 0x0944b49f
    case 40 => 0xffffffff ^ 0x4140438f
    case 41 => 0x289b7ec6
    case 42 => 0xffffffff ^ 0x155ed805
    case 43 => 0xffffffff ^ 0x2b10cf7a
    case 44 => 0x04881d05
    case 45 => 0xffffffff ^ 0x262b2fc6
    case 46 => 0xffffffff ^ 0x1924661a
    case 47 => 0x1fa27cf8
    case _ => 0xffffffff ^ 0x3b53a99a
  }

  function Table4(i: nat): Word
    requires 49 <= i <= 64
  {
    match i
    case 49 => 0xffffffff ^ 0x0bd6ddbb
    case 50 => 0x432aff97
    case 51 => 0xffffffff ^ 0x546bdc58
    case 52 => 0xffffffff ^ 0x036c5fc6
    case 53 => 0x655b59c3
    case 54 => 0xffffffff ^ 0x70f3336d
    case 55 => 0xffffffff ^ 0x00100b82
    case 56 => 0xffffffff ^ 0x7a7ba22e
    case 57 => 0x6fa87e4f
    case 58 => 0xffffffff ^ 0x01d3191f
    case 59 => 0xffffffff ^ 0x5cfebceb
    case 60 => 0x4e0811a1
    case 61 => 0xffffffff ^ 0x08ac817d
    case 62 => 0xffffffff ^ 0x42c50dca
    case 63 => 0x2ad7d2bb
    case _ => 0xffffffff ^ 0x14792c6e
  }

  /** The constants T1 to T64 of md5.c, which writes those with the top bit set as complements. */
  function TableOf(i: nat): Word
    requires 1 <= i <= 64
  {
    if i <= 16 then Table1(i) else if i <= 32 then Table2(i) else if i <= 48 then Table3(i) else Table4(i)
  }

  // The table entries, places and shifts of four operations at a time, as both implementations write them.

  lemma Entries0()
    ensures T(0) == TableOf(1) == 0xd76aa478 && Index(0) == 0 && Shift(0) == 7
    ensures T(1) == TableOf(2) == 0xe8c7b756 && Index(1) == 1 && Shift(1) == 12
    ensures T(2) == TableOf(3) == 0x242070db && Index(2) == 2 && Shift(2) == 17
    ensures T(3) == TableOf(4) == 0xc1bdceee && Index(3) == 3 && Shift(3) == 22
  {
  }

  lemma Entries4()
    ensures T(4) == TableOf(5) == 0xf57c0faf && Index(4) == 4 && Shift(4) == 7
    ensures T(5) == TableOf(6) == 0x4787c62a && Index(5) == 5 && Shift(5) == 12
    ensures T(6) == TableOf(7) == 0xa8304613 && Index(6) == 6 && Shift(6) == 17
    ensures T(7) == TableOf(8) == 0xfd469501 && Index(7) == 7 && Shift(7) == 22
  {
  }

  lemma Entries8()
    ensures T(8) == TableOf(9) == 0x698098d8 && Index(8) == 8 && Shift(8) == 7
    ensures T(9) == TableOf(10) == 0x8b44f7af && Index(9) == 9 && Shift(9) == 12
    ensures T(10) == TableOf(11) == 0xffff5bb1 && Index(10) == 10 && Shift(10) == 17
    ensures T(11) == TableOf(12) == 0x895cd7be && Index(11) == 11 && Shift(11) == 22
  {
  }

  lemma Entries12()
    ensures T(12) == TableOf(13) == 0x6b901122 && Index(12) == 12 && Shift(12) == 7
    ensures T(13) == TableOf(14) == 0xfd987193 && Index(13) == 13 && Shift(13) == 12
    ensures T(14) == TableOf(15) == 0xa679438e && Index(14) == 14 && Shift(14) == 17
    ensures T(15) == TableOf(16) == 0x49b40821 && Index(15) == 15 && Shift(15) == 22
  {
  }

  lemma Entries16()
    ensures T(16) == TableOf(17) == 0xf61e2562 && Index(16) == 1 && Shift(16) == 5
    ensures T(17) == TableOf(18) == 0xc040b340 && Index(17) == 6 && Shift(17) == 9
    ensures T(18) == TableOf(19) == 0x265e5a51 && Index(18) == 11 && Shift(18) == 14
    ensures T(19) == TableOf(20) == 0xe9b6c7aa && Index(19) == 0 && Shift(19) == 20
  {
  }

  lemma Entries20()
    ensures T(20) == TableOf(21) == 0xd62f105d && Index(20) == 5 && Shift(20) == 5
    ensures T(21) == TableOf(22) == 0x02441453 && Index(21) == 10 && Shift(21) == 9
    ensures T(22) == TableOf(23) == 0xd8a1e681 && Index(22) == 15 && Shift(22) == 14
    ensures T(23) == TableOf(24) == 0xe7d3fbc8 && Index(23) == 4 && Shift(23) == 20
  {
  }

  lemma Entries24()
    ensures T(24) == TableOf(25) == 0x21e1cde6 && Index(24) == 9 && Shift(24) == 5
    ensures T(25) == TableOf(26) == 0xc33707d6 && Index(25) == 14 && Shift(25) == 9
    ensures T(26) == TableOf(27) == 0xf4d50d87 && Index(26) == 3 && Shift(26) == 14
    ensures T(27) == TableOf(28) == 0x455a14ed && Index(27) == 8 && Shift(27) == 20
  {
  }

  lemma Entries28()
    ensures T(28) == TableOf(29) == 0xa9e3e905 && Index(28) == 13 && Shift(28) == 5
    ensures T(29) == TableOf(30) == 0xfcefa3f8 && Index(29) == 2 && Shift(29) == 9
    ensures T(30) == TableOf(31) == 0x676f02d9 && Index(30) == 7 && Shift(30) == 14
    ensures T(31) == TableOf(32) == 0x8d2a4c8a && Index(31) == 12 && Shift(31) == 20
  {
  }

  lemma Entries32()
    ensures T(32) == TableOf(33) == 0xfffa3942 && Index(32) == 5 && Shift(32) == 4
    ensures T(33) == TableOf(34) == 0x8771f681 && Index(33) == 8 && Shift(33) == 11
    ensures T(34) == TableOf(35) == 0x6d9d6122 && Index(34) == 11 && Shift(34) == 16
    ensures T(35) == TableOf(36) == 0xfde5380c && Index(35) == 14 && Shift(35) == 23
  {
  }

  lemma Entries36()
    ensures T(36) == TableOf(37) == 0xa4beea44 && Index(36) == 1 && Shift(36) == 4
    ensures T(37) == TableOf(38) == 0x4bdecfa9 && Index(37) == 4 && Shift(37) == 11
    ensures T(38) == TableOf(39) == 0xf6bb4b60 && Index(38) == 7 && Shift(38) == 16
    ensures T(39) == TableOf(40) == 0xbebfbc70 && Index(39) == 10 && Shift(39) == 23
  {
  }

  lemma Entries40()
    ensures T(40) == TableOf(41) == 0x289b7ec6 && Index(40) == 13 && Shift(40) == 4
    ensures T(41) == TableOf(42) == 0xeaa127fa && Index(41) == 0 && Shift(41) == 11
    ensures T(42) == TableOf(43) == 0xd4ef3085 && Index(42) == 3 && Shift(42) == 16
    ensures T(43) == TableOf(44) == 0x04881d05 && Index(43) == 6 && Shift(43) == 23
  {
  }

  lemma Entries44()
    ensures T(44) == TableOf(45) == 0xd9d4d039 && Index(44) == 9 && Shift(44) == 4
    ensures T(45) == TableOf(46) == 0xe6db99e5 && Index(45) == 12 && Shift(45) == 11
    ensures T(46) == TableOf(47) == 0x1fa27cf8 && Index(46) == 15 && Shift(46) == 16
    ensures T(47) == TableOf(48) == 0xc4ac5665 && Index(47) == 2 && Shift(47) == 23
  {
  }

  lemma Entries48()
    ensures T(48) == TableOf(49) == 0xf4292244 && Index(48) == 0 && Shift(48) == 6
    ensures T(49) == TableOf(50) == 0x432aff97 && Index(49) == 7 && Shift(49) == 10
    ensures T(50) == TableOf(51) == 0xab9423a7 && Index(50) == 14 && Shift(50) == 15
    ensures T(51) == TableOf(52) == 0xfc93a039 && Index(51) == 5 && Shift(51) == 21
  {
  }

  lemma Entries52()
    ensures T(52) == TableOf(53) == 0x655b59c3 && Index(52) == 12 && Shift(52) == 6
    ensures T(53) == TableOf(54) == 0x8f0ccc92 && Index(53) == 3 && Shift(53) == 10
    ensures T(54) == TableOf(55) == 0xffeff47d && Index(54) == 10 && Shift(54) == 15
    ensures T(55) == TableOf(56) == 0x85845dd1 && Index(55) == 1 && Shift(55) == 21
  {
  }

  lemma Entries56()
    ensures T(56) == TableOf(57) == 0x6fa87e4f && Index(56) == 8 && Shift(56) == 6
    ensures T(57) == TableOf(58) == 0xfe2ce6e0 && Index(57) == 15 && Shift(57) == 10
    ensures T(58) == TableOf(59) == 0xa3014314 && Index(58) == 6 && Shift(58) == 15
    ensures T(59) == TableOf(60) == 0x4e0811a1 && Index(59) == 13 && Shift(59) == 21
  {
  }

  lemma Entries60()
    ensures T(60) == TableOf(61) == 0xf7537e82 && Index(60) == 4 && Shift(60) == 6
    ensures T(61) == TableOf(62) == 0xbd3af235 && Index(61) == 11 && Shift(61) == 10
    ensures T(62) == TableOf(63) == 0x2ad7d2bb && Index(62) == 2 && Shift(62) == 15
    ensures T(63) == TableOf(64) == 0xeb86d391 && Index(63) == 9 && Shift(63) == 21
  {
  }

  // ----- the step macros of md5_locl.h

  /** F as a selection by exclusive or. */
  function F2(b: Word, c: Word, d: Word): Word {
    ((c ^ d) & b) ^ d
  }

  function G2(b: Word, c: Word, d: Word): Word {
    ((b ^ c) & d) ^ c
  }

  function H2(b: Word, c: Word, d: Word): Word {
    b ^ c ^ d
  }

  function I2(b: Word, c: Word, d: Word): Word {
    (!d | b) ^ c
  }

  /** The two forms of the four auxiliary functions agree on all words. */
  lemma FormsAgree(b: Word, c: Word, d: Word)
    ensures F2(b, c, d) == F(b, c, d) && G2(b, c, d) == G(b, c, d)
    ensures H2(b, c, d) == H(b, c, d) && I2(b, c, d) == I(b, c, d)
  {
    hide *;
    FForms(b, c, d);
    GForms(b, c, d);
    HForms(b, c, d);
    IForms(b, c, d);
  }

  lemma FForms(b: Word, c: Word, d: Word)
    ensures F2(b, c, d) == F(b, c, d)
  {
    FBits(b, c, d);
  }

  lemma FBits(x: Word, y: Word, z: Word)
    ensures ((y ^ z) & x) ^ z == (x & y) | (!x & z)
  {
  }

  lemma GForms(b: Word, c: Word, d: Word)
    ensures G2(b, c, d) == G(b, c, d)
  {
    GBits(b, c, d);
  }

  lemma GBits(x: Word, y: Word, z: Word)
    ensures ((x ^ y) & z) ^ y == (x & z) | (y & !z)
  {
  }

  lemma HForms(b: Word, c: Word, d: Word)
    ensures H2(b, c, d) == H(b, c, d)
  {
  }

  lemma IForms(b: Word, c: Word, d: Word)
    ensures I2(b, c, d) == I(b, c, d)
  {
    IBits(b, c, d);
  }

  lemma IBits(x: Word, y: Word, z: Word)
    ensures (!z | x) ^ y == y ^ (x | !z)
  {
  }

  method R0(a0: Word, b: Word, c: Word, d: Word, k: Word, s: nat, t: Word) returns (a: Word)
    requires 0 < s < 32
    ensures a == SetF(a0, b, c, d, k, s, t)
  {
    hide F2, G2, H2, I2, F, G, H, I, RotateLeft, Plus;
    FormsAgree(b, c, d);
    Reorder(a0, F(b, c, d), k, t);
    a := Plus(a0, Plus(Plus(k, t), F2(b, c, d)));
    a := RotateLeft(a, s);
    a := Plus(a, b);
  }

  method R1(a0: Word, b: Word, c: Word, d: Word, k: Word, s: nat, t: Word) returns (a: Word)
    requires 0 < s < 32
    ensures a == SetG(a0, b, c, d, k, s, t)
  {
    hide F2, G2, H2, I2, F, G, H, I, RotateLeft, Plus;
    FormsAgree(b, c, d);
    Reorder(a0, G(b, c, d), k, t);
    a := Plus(a0, Plus(Plus(k, t), G2(b, c, d)));
    a := RotateLeft(a, s);
    a := Plus(a, b);
  }

  method R2(a0: Word, b: Word, c: Word, d: Word, k: Word, s: nat, t: Word) returns (a: Word)
    requires 0 < s < 32
    ensures a == SetH(a0, b, c, d, k, s, t)
  {
    hide F2, G2, H2, I2, F, G, H, I, RotateLeft, Plus;
    FormsAgree(b, c, d);
    Reorder(a0, H(b, c, d), k, t);
    a := Plus(a0, Plus(Plus(k, t), H2(b, c, d)));
    a := RotateLeft(a, s);
    a := Plus(a, b);
  }

  method R3(a0: Word, b: Word, c: Word, d: Word, k: Word, s: nat, t: Word) returns (a: Word)
    requires 0 < s < 32
    ensures a == SetI(a0, b, c, d, k, s, t)
  {
    hide F2, G2, H2, I2, F, G, H, I, RotateLeft, Plus;
    FormsAgree(b, c, d);
    Reorder(a0, I(b, c, d), k, t);
    a := Plus(a0, Plus(Plus(k, t), I2(b, c, d)));
    a := RotateLeft(a, s);
    a := Plus(a, b);
  }

  lemma Reorder(a: Word, f: Word, k: Word, t: Word)
    ensures Plus(a, Plus(Plus(k, t), f)) == Plus(Plus(Plus(a, f), k), t)
  {
    hide *;
    Commute(Plus(k, t), f);
    Associate(a, f, Plus(k, t));
    Associate(Plus(a, f), k, t);
  }

  lemma Associate(x: Word, y: Word, z: Word)
    ensures Plus(Plus(x, y), z) == Plus(x, Plus(y, z))
  {
    calc {
      Plus(Plus(x, y), z);
      { PlusIs(x, y); PlusIs(x + y, z); }
      (x + y) + z;
      x + (y + z);
      { PlusIs(y, z); PlusIs(x, y + z); }
      Plus(x, Plus(y, z));
    }
  }

  lemma PlusIs(x: Word, y: Word)
    ensures Plus(x, y) == x + y
  {
  }

  lemma Commute(x: Word, y: Word)
    ensures Plus(x, y) == Plus(y, x)
  {
  }

  /** Four operations of round 1 at a time, each on the register the previous ones left. */
  lemma QuadF(n: nat, s: State, X: seq<Word>)
    requires |X| == 16 && 0 <= n <= 12 && n % 4 == 0
    ensures var u := Steps(n, s, X);
      var a := SetF(u.a, u.b, u.c, u.d, X[Index(n)], Shift(n), T(n));
      var d := SetF(u.d, a, u.b, u.c, X[Index(n + 1)], Shift(n + 1), T(n + 1));
      var c := SetF(u.c, d, a, u.b, X[Index(n + 2)], Shift(n + 2), T(n + 2));
      var b := SetF(u.b, c, d, a, X[Index(n + 3)], Shift(n + 3), T(n + 3));
      Steps(n + 4, s, X) == State(a, b, c, d)
  {
    hide T, Index, Shift, RotateLeft, F, G, H, I, Plus;
    forall x: Word, y: Word ensures Plus(x, y) == Plus(y, x) { Commute(x, y); }
    assert Steps(n + 1, s, X) == Step(n, Steps(n, s, X), X);
    assert Steps(n + 2, s, X) == Step(n + 1, Steps(n + 1, s, X), X);
    assert Steps(n + 3, s, X) == Step(n + 2, Steps(n + 2, s, X), X);
    assert Steps(n + 4, s, X) == Step(n + 3, Steps(n + 3, s, X), X);
  }

  /** Four operations of round 2 at a time, each on the register the previous ones left. */
  lemma QuadG(n: nat, s: State, X: seq<Word>)
    requires |X| == 16 && 16 <= n <= 28 && n % 4 == 0
    ensures var u := Steps(n, s, X);
      var a := SetG(u.a, u.b, u.c, u.d, X[Index(n)], Shift(n), T(n));
      var d := SetG(u.d, a, u.b, u.c, X[Index(n + 1)], Shift(n + 1), T(n + 1));
      var c := SetG(u.c, d, a, u.b, X[Index(n + 2)], Shift(n + 2), T(n + 2));
      var b := SetG(u.b, c, d, a, X[Index(n + 3)], Shift(n + 3), T(n + 3));
      Steps(n + 4, s, X) == State(a, b, c, d)
  {
    hide T, Index, Shift, RotateLeft, F, G, H, I, Plus;
    forall x: Word, y: Word ensures Plus(x, y) == Plus(y, x) { Commute(x, y); }
    assert Steps(n + 1, s, X) == Step(n, Steps(n, s, X), X);
    assert Steps(n + 2, s, X) == Step(n + 1, Steps(n + 1, s, X), X);
    assert Steps(n + 3, s, X) == Step(n + 2, Steps(n + 2, s, X), X);
    assert Steps(n + 4, s, X) == Step(n + 3, Steps(n + 3, s, X), X);
  }

  /** Four operations of round 3 at a time, each on the register the previous ones left. */
  lemma QuadH(n: nat, s: State, X: seq<Word>)
    requires |X| == 16 && 32 <= n <= 44 && n % 4 == 0
    ensures var u := Steps(n, s, X);
      var a := SetH(u.a, u.b, u.c, u.d, X[Index(n)], Shift(n), T(n));
      var d := SetH(u.d, a, u.b, u.c, X[Index(n + 1)], Shift(n + 1), T(n + 1));
      var c := SetH(u.c, d, a, u.b, X[Index(n + 2)], Shift(n + 2), T(n + 2));
      var b := SetH(u.b, c, d, a, X[Index(n + 3)], Shift(n + 3), T(n + 3));
      Steps(n + 4, s, X) == State(a, b, c, d)
  {
    hide T, Index, Shift, RotateLeft, F, G, H, I, Plus;
    forall x: Word, y: Word ensures Plus(x, y) == Plus(y, x) { Commute(x, y); }
    assert Steps(n + 1, s, X) == Step(n, Steps(n, s, X), X);
    assert Steps(n + 2, s, X) == Step(n + 1, Steps(n + 1, s, X), X);
    assert Steps(n + 3, s, X) == Step(n + 2, Steps(n + 2, s, X), X);
    assert Steps(n + 4, s, X) == Step(n + 3, Steps(n + 3, s, X), X);
  }

  /** Four operations of round 4 at a time, each on the register the previous ones left. */
  lemma QuadI(n: nat, s: State, X: seq<Word>)
    requires |X| == 16 && 48 <= n <= 60 && n % 4 == 0
    ensures var u := Steps(n, s, X);
      var a := SetI(u.a, u.b, u.c, u.d, X[Index(n)], Shift(n), T(n));
      var d := SetI(u.d, a, u.b, u.c, X[Index(n + 1)], Shift(n + 1), T(n + 1));
      var c := SetI(u.c, d, a, u.b, X[Index(n + 2)], Shift(n + 2), T(n + 2));
      var b := SetI(u.b, c, d, a, X[Index(n + 3)], Shift(n + 3), T(n + 3));
      Steps(n + 4, s, X) == State(a, b, c, d)
  {
    hide T, Index, Shift, RotateLeft, F, G, H, I, Plus;
    forall x: Word, y: Word ensures Plus(x, y) == Plus(y, x) { Commute(x, y); }
    assert Steps(n + 1, s, X) == Step(n, Steps(n, s, X), X);
    assert Steps(n + 2, s, X) == Step(n + 1, Steps(n + 1, s, X), X);
    assert Steps(n + 3, s, X) == Step(n + 2, Steps(n + 2, s, X), X);
    assert Steps(n + 4, s, X) == Step(n + 3, Steps(n + 3, s, X), X);
  }

  // ----- the rounds of md5.c

  /** Round 1 of md5_process. */
  method Round1(s0: State, X: seq<Word>, ghost s: State) returns (s1: State)
    requires |X| == 16 && s0 == Steps(0, s, X)
    ensures s1 == Steps(16, s, X)
  {
    hide *;
    var a, b, c, d := s0.a, s0.b, s0.c, s0.d;
    a := SetF(a, b, c, d, X[0], 7, TableOf(1));
    d := SetF(d, a, b, c, X[1], 12, TableOf(2));
    c := SetF(c, d, a, b, X[2], 17, TableOf(3));
    b := SetF(b, c, d, a, X[3], 22, TableOf(4));
    Entries0();
    QuadF(0, s, X);
    a := SetF(a, b, c, d, X[4], 7, TableOf(5));
    d := SetF(d, a, b, c, X[5], 12, TableOf(6));
    c := SetF(c, d, a, b, X[6], 17, TableOf(7));
    b := SetF(b, c, d, a, X[7], 22, TableOf(8));
    Entries4();
    QuadF(4, s, X);
    a := SetF(a, b, c, d, X[8], 7, TableOf(9));
    d := SetF(d, a, b, c, X[9], 12, TableOf(10));
    c := SetF(c, d, a, b, X[10], 17, TableOf(11));
    b := SetF(b, c, d, a, X[11], 22, TableOf(12));
    Entries8();
    QuadF(8, s, X);
    a := SetF(a, b, c, d, X[12], 7, TableOf(13));
    d := SetF(d, a, b, c, X[13], 12, TableOf(14));
    c := SetF(c, d, a, b, X[14], 17, TableOf(15));
    b := SetF(b, c, d, a, X[15], 22, TableOf(16));
    Entries12();
    QuadF(12, s, X);
    s1 := State(a, b, c, d);
  }

  /** Round 2 of md5_process. */
  method Round2(s0: State, X: seq<Word>, ghost s: State) returns (s1: State)
    requires |X| == 16 && s0 == Steps(16, s, X)
    ensures s1 == Steps(32, s, X)
  {
    hide *;
    var a, b, c, d := s0.a, s0.b, s0.c, s0.d;
    a := SetG(a, b, c, d, X[1], 5, TableOf(17));
    d := SetG(d, a, b, c, X[6], 9, TableOf(18));
    c := SetG(c, d, a, b, X[11], 14, TableOf(19));
    b := SetG(b, c, d, a, X[0], 20, TableOf(20));
    Entries16();
    QuadG(16, s, X);
    a := SetG(a, b, c, d, X[5], 5, TableOf(21));
    d := SetG(d, a, b, c, X[10], 9, TableOf(22));
    c := SetG(c, d, a, b, X[15], 14, TableOf(23));
    b := SetG(b, c, d, a, X[4], 20, TableOf(24));
    Entries20();
    QuadG(20, s, X);
    a := SetG(a, b, c, d, X[9], 5, TableOf(25));
    d := SetG(d, a, b, c, X[14], 9, TableOf(26));
    c := SetG(c, d, a, b, X[3], 14, TableOf(27));
    b := SetG(b, c, d, a, X[8], 20, TableOf(28));
    Entries24();
    QuadG(24, s, X);
    a := SetG(a, b, c, d, X[13], 5, TableOf(29));
    d := SetG(d, a, b, c, X[2], 9, TableOf(30));
    c := SetG(c, d, a, b, X[7], 14, TableOf(31));
    b := SetG(b, c, d, a, X[12], 20, TableOf(32));
    Entries28();
    QuadG(28, s, X);
    s1 := State(a, b, c, d);
  }

  /** Round 3 of md5_process. */
  method Round3(s0: State, X: seq<Word>, ghost s: State) returns (s1: State)
    requires |X| == 16 && s0 == Steps(32, s, X)
    ensures s1 == Steps(48, s, X)
  {
    hide *;
    var a, b, c, d := s0.a, s0.b, s0.c, s0.d;
    a := SetH(a, b, c, d, X[5], 4, TableOf(33));
    d := SetH(d, a, b, c, X[8], 11, TableOf(34));
    c := SetH(c, d, a, b, X[11], 16, TableOf(35));
    b := SetH(b, c, d, a, X[14], 23, TableOf(36));
    Entries32();
    QuadH(32, s, X);
    a := SetH(a, b, c, d, X[1], 4, TableOf(37));
    d := SetH(d, a, b, c, X[4], 11, TableOf(38));
    c := SetH(c, d, a, b, X[7], 16, TableOf(39));
    b := SetH(b, c, d, a, X[10], 23, TableOf(40));
    Entries36();
    QuadH(36, s, X);
    a := SetH(a, b, c, d, X[13], 4, TableOf(41));
    d := SetH(d, a, b, c, X[0], 11, TableOf(42));
    c := SetH(c, d, a, b, X[3], 16, TableOf(43));
    b := SetH(b, c, d, a, X[6], 23, TableOf(44));
    Entries40();
    QuadH(40, s, X);
    a := SetH(a, b, c, d, X[9], 4, TableOf(45));
    d := SetH(d, a, b, c, X[12], 11, TableOf(46));
    c := SetH(c, d, a, b, X[15], 16, TableOf(47));
    b := SetH(b, c, d, a, X[2], 23, TableOf(48));
    Entries44();
    QuadH(44, s, X);
    s1 := State(a, b, c, d);
  }

  /** Round 4 of md5_process. */
  method Round4(s0: State, X: seq<Word>, ghost s: State) returns (s1: State)
    requires |X| == 16 && s0 == Steps(48, s, X)
    ensures s1 == Steps(64, s, X)
  {
    hide *;
    var a, b, c, d := s0.a, s0.b, s0.c, s0.d;
    a := SetI(a, b, c, d, X[0], 6, TableOf(49));
    d := SetI(d, a, b, c, X[7], 10, TableOf(50));
    c := SetI(c, d, a, b, X[14], 15, TableOf(51));
    b := SetI(b, c, d, a, X[5], 21, TableOf(52));
    Entries48();
    QuadI(48, s, X);
    a := SetI(a, b, c, d, X[12], 6, TableOf(53));
    d := SetI(d, a, b, c, X[3], 10, TableOf(54));
    c := SetI(c, d, a, b, X[10], 15, TableOf(55));
    b := SetI(b, c, d, a, X[1], 21, TableOf(56));
    Entries52();
    QuadI(52, s, X);
    a := SetI(a, b, c, d, X[8], 6, TableOf(57));
    d := SetI(d, a, b, c, X[15], 10, TableOf(58));
    c := SetI(c, d, a, b, X[6], 15, TableOf(59));
    b := SetI(b, c, d, a, X[13], 21, TableOf(60));
    Entries56();
    QuadI(56, s, X);
    a := SetI(a, b, c, d, X[4], 6, TableOf(61));
    d := SetI(d, a, b, c, X[11], 10, TableOf(62));
    c := SetI(c, d, a, b, X[2], 15, TableOf(63));
    b := SetI(b, c, d, a, X[9], 21, TableOf(64));
    Entries60();
    QuadI(60, s, X);
    s1 := State(a, b, c, d);
  }

  // ----- the rounds of md5_dgst.c

  /** Round 0 of md5_block_data_order. */
  method Order0(s0: State, X: seq<Word>, ghost s: State) returns (s1: State)
    requires |X| == 16 && s0 == Steps(0, s, X)
    ensures s1 == Steps(16, s, X)
  {
    hide *;
    var A, B, C, D := s0.a, s0.b, s0.c, s0.d;
    A := R0(A, B, C, D, X[0], 7, 0xd76aa478);
    D := R0(D, A, B, C, X[1], 12, 0xe8c7b756);
    C := R0(C, D, A, B, X[2], 17, 0x242070db);
    B := R0(B, C, D, A, X[3], 22, 0xc1bdceee);
    Entries0();
    QuadF(0, s, X);
    A := R0(A, B, C, D, X[4], 7, 0xf57c0faf);
    D := R0(D, A, B, C, X[5], 12, 0x4787c62a);
    C := R0(C, D, A, B, X[6], 17, 0xa8304613);
    B := R0(B, C, D, A, X[7], 22, 0xfd469501);
    Entries4();
    QuadF(4, s, X);
    A := R0(A, B, C, D, X[8], 7, 0x698098d8);
    D := R0(D, A, B, C, X[9], 12, 0x8b44f7af);
    C := R0(C, D, A, B, X[10], 17, 0xffff5bb1);
    B := R0(B, C, D, A, X[11], 22, 0x895cd7be);
    Entries8();
    QuadF(8, s, X);
    A := R0(A, B, C, D, X[12], 7, 0x6b901122);
    D := R0(D, A, B, C, X[13], 12, 0xfd987193);
    C := R0(C, D, A, B, X[14], 17, 0xa679438e);
    B := R0(B, C, D, A, X[15], 22, 0x49b40821);
    Entries12();
    QuadF(12, s, X);
    s1 := State(A, B, C, D);
  }

  /** Round 1 of md5_block_data_order. */
  method Order1(s0: State, X: seq<Word>, ghost s: State) returns (s1: State)
    requires |X| == 16 && s0 == Steps(16, s, X)
    ensures s1 == Steps(32, s, X)
  {
    hide *;
    var A, B, C, D := s0.a, s0.b, s0.c, s0.d;
    A := R1(A, B, C, D, X[1], 5, 0xf61e2562);
    D := R1(D, A, B, C, X[6], 9, 0xc040b340);
    C := R1(C, D, A, B, X[11], 14, 0x265e5a51);
    B := R1(B, C, D, A, X[0], 20, 0xe9b6c7aa);
    Entries16();
    QuadG(16, s, X);
    A := R1(A, B, C, D, X[5], 5, 0xd62f105d);
    D := R1(D, A, B, C, X[10], 9, 0x02441453);
    C := R1(C, D, A, B, X[15], 14, 0xd8a1e681);
    B := R1(B, C, D, A, X[4], 20, 0xe7d3fbc8);
    Entries20();
    QuadG(20, s, X);
    A := R1(A, B, C, D, X[9], 5, 0x21e1cde6);
    D := R1(D, A, B, C, X[14], 9, 0xc33707d6);
    C := R1(C, D, A, B, X[3], 14, 0xf4d50d87);
    B := R1(B, C, D, A, X[8], 20, 0x455a14ed);
    Entries24();
    QuadG(24, s, X);
    A := R1(A, B, C, D, X[13], 5, 0xa9e3e905);
    D := R1(D, A, B, C, X[2], 9, 0xfcefa3f8);
    C := R1(C, D, A, B, X[7], 14, 0x676f02d9);
    B := R1(B, C, D, A, X[12], 20, 0x8d2a4c8a);
    Entries28();
    QuadG(28, s, X);
    s1 := State(A, B, C, D);
  }

  /** Round 2 of md5_block_data_order. */
  method Order2(s0: State, X: seq<Word>, ghost s: State) returns (s1: State)
    requires |X| == 16 && s0 == Steps(32, s, X)
    ensures s1 == Steps(48, s, X)
  {
    hide *;
    var A, B, C, D := s0.a, s0.b, s0.c, s0.d;
    A := R2(A, B, C, D, X[5], 4, 0xfffa3942);
    D := R2(D, A, B, C, X[8], 11, 0x8771f681);
    C := R2(C, D, A, B, X[11], 16, 0x6d9d6122);
    B := R2(B, C, D, A, X[14], 23, 0xfde5380c);
    Entries32();
    QuadH(32, s, X);
    A := R2(A, B, C, D, X[1], 4, 0xa4beea44);
    D := R2(D, A, B, C, X[4], 11, 0x4bdecfa9);
    C := R2(C, D, A, B, X[7], 16, 0xf6bb4b60);
    B := R2(B, C, D, A, X[10], 23, 0xbebfbc70);
    Entries36();
    QuadH(36, s, X);
    A := R2(A, B, C, D, X[13], 4, 0x289b7ec6);
    D := R2(D, A, B, C, X[0], 11, 0xeaa127fa);
    C := R2(C, D, A, B, X[3], 16, 0xd4ef3085);
    B := R2(B, C, D, A, X[6], 23, 0x04881d05);
    Entries40();
    QuadH(40, s, X);
    A := R2(A, B, C, D, X[9], 4, 0xd9d4d039);
    D := R2(D, A, B, C, X[12], 11, 0xe6db99e5);
    C := R2(C, D, A, B, X[15], 16, 0x1fa27cf8);
    B := R2(B, C, D, A, X[2], 23, 0xc4ac5665);
    Entries44();
    QuadH(44, s, X);
    s1 := State(A, B, C, D);
  }

  /** Round 3 of md5_block_data_order. */
  method Order3(s0: State, X: seq<Word>, ghost s: State) returns (s1: State)
    requires |X| == 16 && s0 == Steps(48, s, X)
    ensures s1 == Steps(64, s, X)
  {
    hide *;
    var A, B, C, D := s0.a, s0.b, s0.c, s0.d;
    A := R3(A, B, C, D, X[0], 6, 0xf4292244);
    D := R3(D, A, B, C, X[7], 10, 0x432aff97);
    C := R3(C, D, A, B, X[14], 15, 0xab9423a7);
    B := R3(B, C, D, A, X[5], 21, 0xfc93a039);
    Entries48();
    QuadI(48, s, X);
    A := R3(A, B, C, D, X[12], 6, 0x655b59c3);
    D := R3(D, A, B, C, X[3], 10, 0x8f0ccc92);
    C := R3(C, D, A, B, X[10], 15, 0xffeff47d);
    B := R3(B, C, D, A, X[1], 21, 0x85845dd1);
    Entries52();
    QuadI(52, s, X);
    A := R3(A, B, C, D, X[8], 6, 0x6fa87e4f);
    D := R3(D, A, B, C, X[15], 10, 0xfe2ce6e0);
    C := R3(C, D, A, B, X[6], 15, 0xa3014314);
    B := R3(B, C, D, A, X[13], 21, 0x4e0811a1);
    Entries56();
    QuadI(56, s, X);
    A := R3(A, B, C, D, X[4], 6, 0xf7537e82);
    D := R3(D, A, B, C, X[11], 10, 0xbd3af235);
    C := R3(C, D, A, B, X[2], 15, 0x2ad7d2bb);
    B := R3(B, C, D, A, X[9], 21, 0xeb86d391);
    Entries60();
    QuadI(60, s, X);
    s1 := State(A, B, C, D);
  }

  lemma StepsNone(s: State, X: seq<Word>)
    requires |X| == 16
    ensures Steps(0, s, X) == s
  {
  }

  lemma AddedIs(s: State, t: State)
    ensures Added(s, t) == State(Plus(s.a, t.a), Plus(s.b, t.b), Plus(s.c, t.c), Plus(s.d, t.d))
  {
  }
}
