/** The MD5 message digest of RFC 1321, in the order of its section 3. */
module Md5Spec {

  type Byte = bv8
  type Word = bv32

  datatype State = State(a: Word, b: Word, c: Word, d: Word)

  // ----- section 3.4: the auxiliary functions, the table and the 64 operations

  function F(x: Word, y: Word, z: Word): Word {
    (x & y) | (!x & z)
  }

  function G(x: Word, y: Word, z: Word): Word {
    (x & z) | (y & !z)
  }

  function H(x: Word, y: Word, z: Word): Word {
    x ^ y ^ z
  }

  function I(x: Word, y: Word, z: Word): Word {
    y ^ (x | !z)
  }

  /** Addition of words, modulo 2^32. */
  function Plus(x: Word, y: Word): Word {
    x + y
  }

  function RotateLeft(x: Word, s: nat): Word
    requires 0 < s < 32
  {
    (x << s) | (x >> (32 - s))
  }

  function Sines1(i: nat): Word
    requires 0 <= i < 16
  {
    match i
    case 0 => 0xd76aa478
    case 1 => 0xe8c7b756
    case 2 => 0x242070db
    case 3 => 0xc1bdceee
    case 4 => 0xf57c0faf
    case 5 => 0x4787c62a
    case 6 => 0xa8304613
    case 7 => 0xfd469501
    case 8 => 0x698098d8
    case 9 => 0x8b44f7af
    case 10 => 0xffff5bb1
    case 11 => 0x895cd7be
    case 12 => 0x6b901122
    case 13 => 0xfd987193
    case 14 => 0xa679438e
    case _ => 0x49b40821
  }

  function Sines2(i: nat): Word
    requires 16 <= i < 32
  {
    match i
    case 16 => 0xf61e2562
    case 17 => 0xc040b340
    case 18 => 0x265e5a51
    case 19 => 0xe9b6c7aa
    case 20 => 0xd62f105d
    case 21 => 0x02441453
    case 22 => 0xd8a1e681
    case 23 => 0xe7d3fbc8
    case 24 => 0x21e1cde6
    case 25 => 0xc33707d6
    case 26 => 0xf4d50d87
    case 27 => 0x455a14ed
    case 28 => 0xa9e3e905
    case 29 => 0xfcefa3f8
    case 30 => 0x676f02d9
    case _ => 0x8d2a4c8a
  }

  function Sines3(i: nat): Word
    requires 32 <= i < 48
  {
    match i
    case 32 => 0xfffa3942
    case 33 => 0x8771f681
    case 34 => 0x6d9d6122
    case 35 => 0xfde5380c
    case 36 => 0xa4beea44
    case 37 => 0x4bdecfa9
    case 38 => 0xf6bb4b60
    case 39 => 0xbebfbc70
    case 40 => 0x289b7ec6
    case 41 => 0xeaa127fa
    case 42 => 0xd4ef3085
    case 43 => 0x04881d05
    case 44 => 0xd9d4d039
    case 45 => 0xe6db99e5
    case 46 => 0x1fa27cf8
    case _ => 0xc4ac5665
  }

  function Sines4(i: nat): Word
    requires 48 <= i < 64
  {
    match i
    case 48 => 0xf4292244
    case 49 => 0x432aff97
    case 50 => 0xab9423a7
    case 51 => 0xfc93a039
    case 52 => 0x655b59c3
    case 53 => 0x8f0ccc92
    case 54 => 0xffeff47d
    case 55 => 0x85845dd1
    case 56 => 0x6fa87e4f
    case 57 => 0xfe2ce6e0
    case 58 => 0xa3014314
    case 59 => 0x4e0811a1
    case 60 => 0xf7537e82
    case 61 => 0xbd3af235
    case 62 => 0x2ad7d2bb
    case _ => 0xeb86d391
  }

  /** The integer part of 2^32 times abs(sin(i + 1)). */
  function T(i: nat): Word
    requires i < 64
  {
    if i < 16 then Sines1(i) else if i < 32 then Sines2(i) else if i < 48 then Sines3(i) else Sines4(i)
  }

  function Index(i: nat): (k: nat)
    requires i < 64
    ensures k < 16
  {
    if i < 16 then i else if i < 32 then (5 * i + 1) % 16 else if i < 48 then (3 * i + 5) % 16 else (7 * i) % 16
  }

  function Shift(i: nat): (s: nat)
    requires i < 64
    ensures 0 < s < 32
  {
    var j := i % 4;
    if i < 16 then (if j == 0 then 7 else if j == 1 then 12 else if j == 2 then 17 else 22)
    else if i < 32 then (if j == 0 then 5 else if j == 1 then 9 else if j == 2 then 14 else 20)
    else if i < 48 then (if j == 0 then 4 else if j == 1 then 11 else if j == 2 then 16 else 23)
    else (if j == 0 then 6 else if j == 1 then 10 else if j == 2 then 15 else 21)
  }

  function Mix(i: nat, x: Word, y: Word, z: Word): Word
    requires i < 64
  {
    if i < 16 then F(x, y, z) else if i < 32 then G(x, y, z) else if i < 48 then H(x, y, z) else I(x, y, z)
  }

  /** Operation i; the registers change places so that the next one to change is a again. */
  function Step(i: nat, s: State, X: seq<Word>): State
    requires i < 64 && |X| == 16
  {
    State(s.d, Plus(s.b, RotateLeft(Plus(Plus(Plus(s.a, Mix(i, s.b, s.c, s.d)), X[Index(i)]), T(i)), Shift(i))), s.b,
      s.c)
  }

  function Steps(n: nat, s: State, X: seq<Word>): State
    requires n <= 64 && |X| == 16
  {
    if n == 0 then s else Step(n - 1, Steps(n - 1, s, X), X)
  }

  function Added(s: State, t: State): State {
    State(Plus(s.a, t.a), Plus(s.b, t.b), Plus(s.c, t.c), Plus(s.d, t.d))
  }

  /** Four bytes make a word, the low-order byte first. */
  function Decode(bytes: seq<Byte>): Word
    requires |bytes| == 4
  {
    (bytes[0] as Word) | ((bytes[1] as Word) << 8) | ((bytes[2] as Word) << 16) | ((bytes[3] as Word) << 24)
  }

  function WordAt(block: seq<Byte>, i: nat): Word
    requires |block| == 64 && i < 16
  {
    Decode(block[4 * i..4 * i + 4])
  }

  function Words(block: seq<Byte>): seq<Word>
    requires |block| == 64
  {
    seq(16, i requires 0 <= i < 16 => WordAt(block, i))
  }

  function Block(s: State, block: seq<Byte>): State
    requires |block| == 64
  {
    Added(s, Steps(64, s, Words(block)))
  }

  /** All blocks of a text, one after the other. */
  function Absorb(s: State, text: seq<Byte>): State
    requires |text| % 64 == 0
    decreases |text|
  {
    if text == [] then s else Absorb(Block(s, text[..64]), text[64..])
  }

  // ----- sections 3.1 to 3.3: padding, the length and the initial state

  const INITIAL := State(0x67452301, 0xefcdab89, 0x98badcfe, 0x10325476)

  function Zeros(n: nat): (s: seq<Byte>)
    ensures |s| == n
  {
    seq(n, i => 0)
  }

  /** Byte j of a number, counted from the low-order one. */
  function ByteOf(n: nat, j: nat): Byte
    decreases j
  {
    if j == 0 then (n % 256) as Byte else ByteOf(n / 256, j - 1)
  }

  /** The low-order 64 bits of the length in bits. */
  function Length(m: seq<Byte>): nat {
    (8 * |m|) % 0x1_0000_0000_0000_0000
  }

  function LengthBytes(n: nat): (s: seq<Byte>)
    ensures |s| == 8
  {
    seq(8, j requires 0 <= j < 8 => ByteOf(n, j))
  }

  function ZeroCount(m: seq<Byte>): (k: nat)
    ensures k < 64
  {
    (55 - |m|) % 64
  }

  function Padded(m: seq<Byte>): seq<Byte> {
    m + [0x80] + Zeros(ZeroCount(m)) + LengthBytes(Length(m))
  }

  /** Section 3.1 asks for the fewest bytes that leave 8 to a multiple of 64. */
  lemma PaddedLength(m: seq<Byte>)
    ensures |Padded(m)| % 64 == 0
    ensures ZeroCount(m) < 64 && (|m| + 1 + ZeroCount(m)) % 64 == 56
  {
  }

  // ----- section 3.5: the digest

  /** Byte k of a word, counted from the low-order one. */
  function WordByte(w: Word, k: nat): Byte
    requires k < 4
  {
    ((if k == 0 then w else if k == 1 then w >> 8 else if k == 2 then w >> 16 else w >> 24) & 0xff) as Byte
  }

  function Encode(w: Word): (s: seq<Byte>)
    ensures |s| == 4
  {
    [WordByte(w, 0), WordByte(w, 1), WordByte(w, 2), WordByte(w, 3)]
  }

  function Output(s: State): seq<Byte> {
    Encode(s.a) + Encode(s.b) + Encode(s.c) + Encode(s.d)
  }

  function Digest(m: seq<Byte>): seq<Byte> {
    PaddedLength(m);
    Output(Absorb(INITIAL, Padded(m)))
  }

  // ----- absorbing piece by piece

  lemma Slices(x: seq<Byte>, y: seq<Byte>)
    requires |x| >= 64
    ensures (x + y)[..64] == x[..64] && (x + y)[64..] == x[64..] + y
  {
  }

  lemma {:induction false} AbsorbMore(s: State, x: seq<Byte>, y: seq<Byte>)
    requires |x| % 64 == 0 && |y| % 64 == 0
    ensures |x + y| % 64 == 0 && Absorb(s, x + y) == Absorb(Absorb(s, x), y)
    decreases |x|
  {
    hide *;
    AbsorbStep(s, x);
    AbsorbStep(s, x + y);
    if x == [] {
      assert x + y == y;
    } else {
      Slices(x, y);
      AbsorbMore(Block(s, x[..64]), x[64..], y);
      AbsorbStep(s, x);
    }
  }

  lemma AbsorbStep(s: State, x: seq<Byte>)
    requires |x| % 64 == 0
    ensures if x == [] then Absorb(s, x) == s else |x| >= 64 && Absorb(s, x) == Absorb(Block(s, x[..64]), x[64..])
  {
  }

  lemma AbsorbOne(s: State, x: seq<Byte>, block: seq<Byte>)
    requires |x| % 64 == 0 && |block| == 64
    ensures |x + block| % 64 == 0 && Absorb(s, x + block) == Block(Absorb(s, x), block)
  {
    AbsorbMore(s, x, block);
    assert block[..64] == block && block[64..] == [];
  }
}
