/**
 The MD5 digest of a whole message, as sections 3.1 to 3.5 of RFC 1321 define it.
 */
module Md5Spec {

  // ----- section 3.1 and 3.2: padding and length

  /** Bits of 1 and 0 up to 56 bytes modulo 64; always at least the one. */
  function Padding(n: nat): seq<bv8> {
    [0x80] + seq((55 - n) % 64, _ => 0)
  }

  /** The number of bits of a message of n bytes modulo 2^64, low-order byte first. */
  function LengthBytes(n: nat): (r: seq<bv8>)
    ensures |r| == 8
  {
    var low, high := 8 * n % 0x1_0000_0000, 8 * n / 0x1_0000_0000 % 0x1_0000_0000;
    WordBytes(low) + WordBytes(high)
  }

  function WordBytes(w: nat): (r: seq<bv8>)
    requires w < 0x1_0000_0000
    ensures |r| == 4
  {
    [(w % 256) as bv8, (w / 256 % 256) as bv8, (w / 65536 % 256) as bv8, (w / 16777216 % 256) as bv8]
  }

  function Padded(m: seq<bv8>): seq<bv8> {
    m + Padding(|m|) + LengthBytes(|m|)
  }

  /** The padding fills whole blocks, and no shorter run of zeros would. */
  lemma PaddedIsWhole(m: seq<bv8>, zeros: nat)
    ensures |Padded(m)| % 64 == 0 && |Padding(|m|)| <= 64
    ensures (|m| + 1 + zeros + 8) % 64 == 0 ==> |Padding(|m|)| <= 1 + zeros
  {
    FillsUp(|m|, zeros);
  }

  lemma FillsUp(n: int, zeros: int)
    requires zeros >= 0
    ensures (n + 9 + (55 - n) % 64) % 64 == 0
    ensures (n + 9 + zeros) % 64 == 0 ==> (55 - n) % 64 <= zeros
  {
    var q, z := (55 - n) / 64, (55 - n) % 64;
    assert n + 9 + z == 64 * (1 - q);
  }

  // ----- section 3.4: the block function

  datatype Regs = Regs(a: bv32, b: bv32, c: bv32, d: bv32)

  const INITIAL: Regs := Regs(0x67452301, 0xefcdab89, 0x98badcfe, 0x10325476)

  function F(x: bv32, y: bv32, z: bv32): bv32 { (x & y) | (!x & z) }
  function G(x: bv32, y: bv32, z: bv32): bv32 { (x & z) | (y & !z) }
  function H(x: bv32, y: bv32, z: bv32): bv32 { x ^ y ^ z }
  function I(x: bv32, y: bv32, z: bv32): bv32 { y ^ (x | !z) }

  function TurnedRight(w: bv32): bv32 {
    (w >> 1) | (w << 31)
  }

  /** Bit i of a word, from the low end: the lowest one once the word is turned right i times. */
  function Bit(w: bv32, i: nat): bool
    decreases i
  {
    if i == 0 then w & 1 == 1 else Bit(TurnedRight(w), i - 1)
  }

  /** What section 3.4 says of the four functions, bit by bit.  F: if x then y else z. */
  lemma {:induction false} FBitByBit(x: bv32, y: bv32, z: bv32, i: nat)
    ensures Bit(F(x, y, z), i) == if Bit(x, i) then Bit(y, i) else Bit(z, i)
    decreases i
  {
    FTurned(x, y, z);
    hide TurnedRight, F;
    if i > 0 {
      FBitByBit(TurnedRight(x), TurnedRight(y), TurnedRight(z), i - 1);
    } else {
      FLowest(x, y, z);
    }
  }

  lemma FTurned(x: bv32, y: bv32, z: bv32)
    ensures TurnedRight(F(x, y, z)) == F(TurnedRight(x), TurnedRight(y), TurnedRight(z))
  {
  }

  lemma FLowest(x: bv32, y: bv32, z: bv32)
    ensures F(x, y, z) & 1 == if x & 1 == 1 then y & 1 else z & 1
  {
  }

  /** If z then x else y. */
  lemma {:induction false} GBitByBit(x: bv32, y: bv32, z: bv32, i: nat)
    ensures Bit(G(x, y, z), i) == if Bit(z, i) then Bit(x, i) else Bit(y, i)
    decreases i
  {
    GTurned(x, y, z);
    hide TurnedRight, G;
    if i > 0 {
      GBitByBit(TurnedRight(x), TurnedRight(y), TurnedRight(z), i - 1);
    } else {
      GLowest(x, y, z);
    }
  }

  lemma GTurned(x: bv32, y: bv32, z: bv32)
    ensures TurnedRight(G(x, y, z)) == G(TurnedRight(x), TurnedRight(y), TurnedRight(z))
  {
  }

  lemma GLowest(x: bv32, y: bv32, z: bv32)
    ensures G(x, y, z) & 1 == if z & 1 == 1 then x & 1 else y & 1
  {
  }

  /** The parity. */
  lemma HBitByBit(x: bv32, y: bv32, z: bv32, i: nat)
    ensures Bit(H(x, y, z), i) == (Bit(x, i) != (Bit(y, i) != Bit(z, i)))
  {
    hide Bit;
    Parity(x, y, i);
    Parity(x ^ y, z, i);
  }

  lemma {:induction false} Parity(x: bv32, y: bv32, i: nat)
    ensures Bit(x ^ y, i) == (Bit(x, i) != Bit(y, i))
    decreases i
  {
    ParityTurned(x, y);
    hide TurnedRight;
    if i > 0 {
      Parity(TurnedRight(x), TurnedRight(y), i - 1);
    }
  }

  lemma ParityTurned(x: bv32, y: bv32)
    ensures TurnedRight(x ^ y) == TurnedRight(x) ^ TurnedRight(y)
    ensures (x ^ y) & 1 == 1 <==> (x & 1 == 1) != (y & 1 == 1)
  {
  }

  /** y, turned over exactly where x is 1 or z is 0. */
  lemma {:induction false} IBitByBit(x: bv32, y: bv32, z: bv32, i: nat)
    ensures Bit(I(x, y, z), i) == if Bit(x, i) || !Bit(z, i) then !Bit(y, i) else Bit(y, i)
    decreases i
  {
    ITurned(x, y, z);
    hide TurnedRight, I;
    if i > 0 {
      IBitByBit(TurnedRight(x), TurnedRight(y), TurnedRight(z), i - 1);
    } else {
      ILowest(x, y, z);
    }
  }

  lemma ITurned(x: bv32, y: bv32, z: bv32)
    ensures TurnedRight(I(x, y, z)) == I(TurnedRight(x), TurnedRight(y), TurnedRight(z))
  {
  }

  lemma ILowest(x: bv32, y: bv32, z: bv32)
    ensures I(x, y, z) & 1 == if x & 1 == 1 || z & 1 == 0 then (y & 1) ^ 1 else y & 1
  {
  }

  function Rotated(x: bv32, s: bv6): bv32
    requires s <= 32
  {
    (x << s) | (x >> (32 - s))
  }

  /** The shifts used do rotate. */
  lemma RotatedIsCircular(x: bv32)
    ensures Rotated(x, 7) == x.RotateLeft(7) && Rotated(x, 12) == x.RotateLeft(12) && Rotated(x, 17) == x.RotateLeft(17)
    ensures Rotated(x, 22) == x.RotateLeft(22) && Rotated(x, 5) == x.RotateLeft(5) && Rotated(x, 9) == x.RotateLeft(9)
    ensures Rotated(x, 14) == x.RotateLeft(14) && Rotated(x, 20) == x.RotateLeft(20) && Rotated(x, 4) == x.RotateLeft(4)
    ensures Rotated(x, 11) == x.RotateLeft(11) && Rotated(x, 16) == x.RotateLeft(16) &&
        Rotated(x, 23) == x.RotateLeft(23)
    ensures Rotated(x, 6) == x.RotateLeft(6) && Rotated(x, 10) == x.RotateLeft(10) && Rotated(x, 15) == x.RotateLeft(15)
    ensures Rotated(x, 21) == x.RotateLeft(21)
  {
  }

  /** The word of the block a step takes. */
  function K(i: nat): (k: nat)
    ensures k < 16
  {
    if i < 16 then i % 16
    else if i < 32 then (5 * i + 1) % 16
    else if i < 48 then (3 * i + 5) % 16
    else 7 * i % 16
  }

  const SHIFTS: seq<bv6> := [7, 12, 17, 22, 5, 9, 14, 20, 4, 11, 16, 23, 6, 10, 15, 21]

  /** How far a step rotates. */
  function S(i: nat): (s: bv6)
    requires i < 64
    ensures s <= 32
  {
    SHIFTS[4 * (i / 16) + i % 4]
  }

  const T1: seq<bv32> := [
    0xd76aa478, 0xe8c7b756, 0x242070db, 0xc1bdceee,
    0xf57c0faf, 0x4787c62a, 0xa8304613, 0xfd469501,
    0x698098d8, 0x8b44f7af, 0xffff5bb1, 0x895cd7be,
    0x6b901122, 0xfd987193, 0xa679438e, 0x49b40821
  ]

  const T2: seq<bv32> := [
    0xf61e2562, 0xc040b340, 0x265e5a51, 0xe9b6c7aa,
    0xd62f105d, 0x02441453, 0xd8a1e681, 0xe7d3fbc8,
    0x21e1cde6, 0xc33707d6, 0xf4d50d87, 0x455a14ed,
    0xa9e3e905, 0xfcefa3f8, 0x676f02d9, 0x8d2a4c8a
  ]

  const T3: seq<bv32> := [
    0xfffa3942, 0x8771f681, 0x6d9d6122, 0xfde5380c,
    0xa4beea44, 0x4bdecfa9, 0xf6bb4b60, 0xbebfbc70,
    0x289b7ec6, 0xeaa127fa, 0xd4ef3085, 0x04881d05,
    0xd9d4d039, 0xe6db99e5, 0x1fa27cf8, 0xc4ac5665
  ]

  const T4: seq<bv32> := [
    0xf4292244, 0x432aff97, 0xab9423a7, 0xfc93a039,
    0x655b59c3, 0x8f0ccc92, 0xffeff47d, 0x85845dd1,
    0x6fa87e4f, 0xfe2ce6e0, 0xa3014314, 0x4e0811a1,
    0xf7537e82, 0xbd3af235, 0x2ad7d2bb, 0xeb86d391
  ]

  /** The table of section 3.4: element i is the integer part of 2^32 times abs(sin(i + 1)), in radians. */
  function T(i: nat): bv32
    requires i < 64
  {
    if i < 16 then T1[i] else if i < 32 then T2[i - 16] else if i < 48 then T3[i - 32] else T4[i - 48]
  }

  /** The operation of a step of each round. */
  function Mixed(i: nat, b: bv32, c: bv32, d: bv32): bv32 {
    if i < 16 then F(b, c, d) else if i < 32 then G(b, c, d) else if i < 48 then H(b, c, d) else I(b, c, d)
  }

  /** `b + ((a + f + w + t) <<< s)` */
  function Op(a: bv32, b: bv32, f: bv32, w: bv32, t: bv32, s: bv6): bv32
    requires s <= 32
  {
    b + Rotated(a + f + w + t, s)
  }

  /** One step: the first register is replaced, and the registers change places. */
  function Step(x: seq<bv32>, r: Regs, i: nat): Regs
    requires |x| == 16 && i < 64
  {
    Regs(r.d, Op(r.a, r.b, Mixed(i, r.b, r.c, r.d), x[K(i)], T(i), S(i)), r.b, r.c)
  }

  /** The first n steps. */
  function Run(x: seq<bv32>, r: Regs, n: nat): Regs
    requires |x| == 16 && n <= 64
  {
    if n == 0 then r else Step(x, Run(x, r, n - 1), n - 1)
  }

  /** Four bytes as a word, low-order byte first. */
  function Word(a: bv8, b: bv8, c: bv8, d: bv8): bv32 {
    (a as bv32) | ((b as bv32) << 8) | ((c as bv32) << 16) | ((d as bv32) << 24)
  }

  function Words(block: seq<bv8>): (x: seq<bv32>)
    requires |block| % 4 == 0
    ensures |x| == |block| / 4
  {
    seq(|block| / 4, i requires 0 <= i < |block| / 4 =>
      Word(block[4 * i], block[4 * i + 1], block[4 * i + 2], block[4 * i + 3]))
  }

  function Compress(r: Regs, block: seq<bv8>): Regs
    requires |block| == 64
  {
    Sum(r, Run(Words(block), r, 64))
  }

  function Sum(r: Regs, t: Regs): Regs {
    Regs(Plus(r.a, t.a), Plus(r.b, t.b), Plus(r.c, t.c), Plus(r.d, t.d))
  }

  /** Addition of words, modulo 2^32. */
  function Plus(a: bv32, b: bv32): bv32 {
    a + b
  }

  /** All the whole blocks of a message. */
  function Blocks(r: Regs, m: seq<bv8>): Regs
    decreases |m|
  {
    if |m| < 64 then r else Blocks(Compress(r, m[..64]), m[64..])
  }

  // ----- section 3.5: output

  function Bytes(w: bv32): (r: seq<bv8>)
    ensures |r| == 4
  {
    [(w & 0xff) as bv8, ((w >> 8) & 0xff) as bv8, ((w >> 16) & 0xff) as bv8, ((w >> 24) & 0xff) as bv8]
  }

  function Digest(m: seq<bv8>): (r: seq<bv8>)
    ensures |r| == 16
  {
    var r := Blocks(INITIAL, Padded(m));
    Bytes(r.a) + Bytes(r.b) + Bytes(r.c) + Bytes(r.d)
  }

  // ----- about them

  /** Words and bytes are each other's inverse. */
  lemma WordOfBytes(w: bv32)
    ensures Word(Bytes(w)[0], Bytes(w)[1], Bytes(w)[2], Bytes(w)[3]) == w
  {
  }

  lemma BytesOfWord(a: bv8, b: bv8, c: bv8, d: bv8)
    ensures Bytes(Word(a, b, c, d)) == [a, b, c, d]
  {
  }

  /** One more block. */
  lemma {:induction false} BlocksSnoc(r: Regs, m: seq<bv8>, block: seq<bv8>)
    requires |m| % 64 == 0 && |block| == 64
    ensures Blocks(r, m + block) == Compress(Blocks(r, m), block)
    decreases |m|
  {
    hide Compress;
    if m == [] {
      assert m + block == block && block[..64] == block && block[64..] == [];
    } else {
      assert (m + block)[..64] == m[..64] && (m + block)[64..] == m[64..] + block;
      BlocksSnoc(Compress(r, m[..64]), m[64..], block);
    }
  }
}
