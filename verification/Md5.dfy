/**
 Streaming MD5 (source/md5.c), proved equal to the digest of the whole message.

 Words of the state are 32-bit vectors; the two words of the bit count are integers below 2^32, with the
 carry between them written out.
 */
module Md5 {
  import opened Common
  import opened Md5Spec

  // ----- the block transformation

  /** The three statements every macro shares: add to `a`, rotate it, add `b`. */
  function Mix(a: bv32, b: bv32, f: bv32, x: bv32, s: bv6, ac: bv32): bv32
    requires s <= 32
  {
    Rotated(a + (f + x + ac), s) + b
  }

  function FF(a: bv32, b: bv32, c: bv32, d: bv32, x: bv32, s: bv6, ac: bv32): bv32
    requires s <= 32
  {
    Mix(a, b, F(b, c, d), x, s, ac)
  }

  function GG(a: bv32, b: bv32, c: bv32, d: bv32, x: bv32, s: bv6, ac: bv32): bv32
    requires s <= 32
  {
    Mix(a, b, G(b, c, d), x, s, ac)
  }

  function HH(a: bv32, b: bv32, c: bv32, d: bv32, x: bv32, s: bv6, ac: bv32): bv32
    requires s <= 32
  {
    Mix(a, b, H(b, c, d), x, s, ac)
  }

  function II(a: bv32, b: bv32, c: bv32, d: bv32, x: bv32, s: bv6, ac: bv32): bv32
    requires s <= 32
  {
    Mix(a, b, I(b, c, d), x, s, ac)
  }

  lemma Reordered(a: bv32, f: bv32, w: bv32, t: bv32)
    ensures a + f + w + t == a + (f + w + t)
  {
  }

  lemma Swapped(a: bv32, b: bv32)
    ensures a + b == b + a
  {
  }

  lemma MixIsOp(a: bv32, b: bv32, f: bv32, x: bv32, s: bv6, ac: bv32)
    requires s <= 32
    ensures Mix(a, b, f, x, s, ac) == Op(a, b, f, x, ac, s)
  {
    hide Rotated;
    Reordered(a, f, x, ac);
    Swapped(b, Rotated(a + f + x + ac, s));
  }

  lemma StepFF(x: seq<bv32>, r: Regs, n: nat, a: bv32, b: bv32, c: bv32, d: bv32)
    requires |x| == 16 && 0 <= n < 16 && Run(x, r, n) == Regs(a, b, c, d)
    ensures Run(x, r, n + 1) == Regs(d, FF(a, b, c, d, x[K(n)], S(n), T(n)), b, c)
  {
    hide Op, Mix, K, S, T, F;
    MixIsOp(a, b, F(b, c, d), x[K(n)], S(n), T(n));
  }

  lemma Table1a()
    ensures K(0) == 0 && S(0) == 7 && T(0) == 0xd76aa478
      && K(1) == 1 && S(1) == 12 && T(1) == 0xe8c7b756
      && K(2) == 2 && S(2) == 17 && T(2) == 0x242070db
      && K(3) == 3 && S(3) == 22 && T(3) == 0xc1bdceee
  {
  }

  lemma Table1b()
    ensures K(4) == 4 && S(4) == 7 && T(4) == 0xf57c0faf
      && K(5) == 5 && S(5) == 12 && T(5) == 0x4787c62a
      && K(6) == 6 && S(6) == 17 && T(6) == 0xa8304613
      && K(7) == 7 && S(7) == 22 && T(7) == 0xfd469501
  {
  }

  lemma Table1c()
    ensures K(8) == 8 && S(8) == 7 && T(8) == 0x698098d8
      && K(9) == 9 && S(9) == 12 && T(9) == 0x8b44f7af
      && K(10) == 10 && S(10) == 17 && T(10) == 0xffff5bb1
      && K(11) == 11 && S(11) == 22 && T(11) == 0x895cd7be
  {
  }

  lemma Table1d()
    ensures K(12) == 12 && S(12) == 7 && T(12) == 0x6b901122
      && K(13) == 13 && S(13) == 12 && T(13) == 0xfd987193
      && K(14) == 14 && S(14) == 17 && T(14) == 0xa679438e
      && K(15) == 15 && S(15) == 22 && T(15) == 0x49b40821
  {
  }

  method Round1(x: seq<bv32>, a_: bv32, b_: bv32, c_: bv32, d_: bv32, ghost r: Regs)
    returns (a: bv32, b: bv32, c: bv32, d: bv32)
    requires |x| == 16 && Run(x, r, 0) == Regs(a_, b_, c_, d_)
    ensures Run(x, r, 16) == Regs(a, b, c, d)
  {
    hide Run, K, S, T, FF, GG, HH, II;
    a, b, c, d := a_, b_, c_, d_;
    Table1a();
    Table1b();
    Table1c();
    Table1d();
    StepFF(x, r, 0, a, b, c, d);
    a := FF(a, b, c, d, x[0], 7, 0xd76aa478);
    StepFF(x, r, 1, d, a, b, c);
    d := FF(d, a, b, c, x[1], 12, 0xe8c7b756);
    StepFF(x, r, 2, c, d, a, b);
    c := FF(c, d, a, b, x[2], 17, 0x242070db);
    StepFF(x, r, 3, b, c, d, a);
    b := FF(b, c, d, a, x[3], 22, 0xc1bdceee);
    StepFF(x, r, 4, a, b, c, d);
    a := FF(a, b, c, d, x[4], 7, 0xf57c0faf);
    StepFF(x, r, 5, d, a, b, c);
    d := FF(d, a, b, c, x[5], 12, 0x4787c62a);
    StepFF(x, r, 6, c, d, a, b);
    c := FF(c, d, a, b, x[6], 17, 0xa8304613);
    StepFF(x, r, 7, b, c, d, a);
    b := FF(b, c, d, a, x[7], 22, 0xfd469501);
    StepFF(x, r, 8, a, b, c, d);
    a := FF(a, b, c, d, x[8], 7, 0x698098d8);
    StepFF(x, r, 9, d, a, b, c);
    d := FF(d, a, b, c, x[9], 12, 0x8b44f7af);
    StepFF(x, r, 10, c, d, a, b);
    c := FF(c, d, a, b, x[10], 17, 0xffff5bb1);
    StepFF(x, r, 11, b, c, d, a);
    b := FF(b, c, d, a, x[11], 22, 0x895cd7be);
    StepFF(x, r, 12, a, b, c, d);
    a := FF(a, b, c, d, x[12], 7, 0x6b901122);
    StepFF(x, r, 13, d, a, b, c);
    d := FF(d, a, b, c, x[13], 12, 0xfd987193);
    StepFF(x, r, 14, c, d, a, b);
    c := FF(c, d, a, b, x[14], 17, 0xa679438e);
    StepFF(x, r, 15, b, c, d, a);
    b := FF(b, c, d, a, x[15], 22, 0x49b40821);
  }

  lemma StepGG(x: seq<bv32>, r: Regs, n: nat, a: bv32, b: bv32, c: bv32, d: bv32)
    requires |x| == 16 && 16 <= n < 32 && Run(x, r, n) == Regs(a, b, c, d)
    ensures Run(x, r, n + 1) == Regs(d, GG(a, b, c, d, x[K(n)], S(n), T(n)), b, c)
  {
    hide Op, Mix, K, S, T, G;
    MixIsOp(a, b, G(b, c, d), x[K(n)], S(n), T(n));
  }

  lemma Table2a()
    ensures K(16) == 1 && S(16) == 5 && T(16) == 0xf61e2562
      && K(17) == 6 && S(17) == 9 && T(17) == 0xc040b340
      && K(18) == 11 && S(18) == 14 && T(18) == 0x265e5a51
      && K(19) == 0 && S(19) == 20 && T(19) == 0xe9b6c7aa
  {
  }

  lemma Table2b()
    ensures K(20) == 5 && S(20) == 5 && T(20) == 0xd62f105d
      && K(21) == 10 && S(21) == 9 && T(21) == 0x02441453
      && K(22) == 15 && S(22) == 14 && T(22) == 0xd8a1e681
      && K(23) == 4 && S(23) == 20 && T(23) == 0xe7d3fbc8
  {
  }

  lemma Table2c()
    ensures K(24) == 9 && S(24) == 5 && T(24) == 0x21e1cde6
      && K(25) == 14 && S(25) == 9 && T(25) == 0xc33707d6
      && K(26) == 3 && S(26) == 14 && T(26) == 0xf4d50d87
      && K(27) == 8 && S(27) == 20 && T(27) == 0x455a14ed
  {
  }

  lemma Table2d()
    ensures K(28) == 13 && S(28) == 5 && T(28) == 0xa9e3e905
      && K(29) == 2 && S(29) == 9 && T(29) == 0xfcefa3f8
      && K(30) == 7 && S(30) == 14 && T(30) == 0x676f02d9
      && K(31) == 12 && S(31) == 20 && T(31) == 0x8d2a4c8a
  {
  }

  method Round2(x: seq<bv32>, a_: bv32, b_: bv32, c_: bv32, d_: bv32, ghost r: Regs)
    returns (a: bv32, b: bv32, c: bv32, d: bv32)
    requires |x| == 16 && Run(x, r, 16) == Regs(a_, b_, c_, d_)
    ensures Run(x, r, 32) == Regs(a, b, c, d)
  {
    hide Run, K, S, T, FF, GG, HH, II;
    a, b, c, d := a_, b_, c_, d_;
    Table2a();
    Table2b();
    Table2c();
    Table2d();
    StepGG(x, r, 16, a, b, c, d);
    a := GG(a, b, c, d, x[1], 5, 0xf61e2562);
    StepGG(x, r, 17, d, a, b, c);
    d := GG(d, a, b, c, x[6], 9, 0xc040b340);
    StepGG(x, r, 18, c, d, a, b);
    c := GG(c, d, a, b, x[11], 14, 0x265e5a51);
    StepGG(x, r, 19, b, c, d, a);
    b := GG(b, c, d, a, x[0], 20, 0xe9b6c7aa);
    StepGG(x, r, 20, a, b, c, d);
    a := GG(a, b, c, d, x[5], 5, 0xd62f105d);
    StepGG(x, r, 21, d, a, b, c);
    d := GG(d, a, b, c, x[10], 9, 0x2441453);
    StepGG(x, r, 22, c, d, a, b);
    c := GG(c, d, a, b, x[15], 14, 0xd8a1e681);
    StepGG(x, r, 23, b, c, d, a);
    b := GG(b, c, d, a, x[4], 20, 0xe7d3fbc8);
    StepGG(x, r, 24, a, b, c, d);
    a := GG(a, b, c, d, x[9], 5, 0x21e1cde6);
    StepGG(x, r, 25, d, a, b, c);
    d := GG(d, a, b, c, x[14], 9, 0xc33707d6);
    StepGG(x, r, 26, c, d, a, b);
    c := GG(c, d, a, b, x[3], 14, 0xf4d50d87);
    StepGG(x, r, 27, b, c, d, a);
    b := GG(b, c, d, a, x[8], 20, 0x455a14ed);
    StepGG(x, r, 28, a, b, c, d);
    a := GG(a, b, c, d, x[13], 5, 0xa9e3e905);
    StepGG(x, r, 29, d, a, b, c);
    d := GG(d, a, b, c, x[2], 9, 0xfcefa3f8);
    StepGG(x, r, 30, c, d, a, b);
    c := GG(c, d, a, b, x[7], 14, 0x676f02d9);
    StepGG(x, r, 31, b, c, d, a);
    b := GG(b, c, d, a, x[12], 20, 0x8d2a4c8a);
  }

  lemma StepHH(x: seq<bv32>, r: Regs, n: nat, a: bv32, b: bv32, c: bv32, d: bv32)
    requires |x| == 16 && 32 <= n < 48 && Run(x, r, n) == Regs(a, b, c, d)
    ensures Run(x, r, n + 1) == Regs(d, HH(a, b, c, d, x[K(n)], S(n), T(n)), b, c)
  {
    hide Op, Mix, K, S, T, H;
    MixIsOp(a, b, H(b, c, d), x[K(n)], S(n), T(n));
  }

  lemma Table3a()
    ensures K(32) == 5 && S(32) == 4 && T(32) == 0xfffa3942
      && K(33) == 8 && S(33) == 11 && T(33) == 0x8771f681
      && K(34) == 11 && S(34) == 16 && T(34) == 0x6d9d6122
      && K(35) == 14 && S(35) == 23 && T(35) == 0xfde5380c
  {
  }

  lemma Table3b()
    ensures K(36) == 1 && S(36) == 4 && T(36) == 0xa4beea44
      && K(37) == 4 && S(37) == 11 && T(37) == 0x4bdecfa9
      && K(38) == 7 && S(38) == 16 && T(38) == 0xf6bb4b60
      && K(39) == 10 && S(39) == 23 && T(39) == 0xbebfbc70
  {
  }

  lemma Table3c()
    ensures K(40) == 13 && S(40) == 4 && T(40) == 0x289b7ec6
      && K(41) == 0 && S(41) == 11 && T(41) == 0xeaa127fa
      && K(42) == 3 && S(42) == 16 && T(42) == 0xd4ef3085
      && K(43) == 6 && S(43) == 23 && T(43) == 0x04881d05
  {
  }

  lemma Table3d()
    ensures K(44) == 9 && S(44) == 4 && T(44) == 0xd9d4d039
      && K(45) == 12 && S(45) == 11 && T(45) == 0xe6db99e5
      && K(46) == 15 && S(46) == 16 && T(46) == 0x1fa27cf8
      && K(47) == 2 && S(47) == 23 && T(47) == 0xc4ac5665
  {
  }

  method Round3(x: seq<bv32>, a_: bv32, b_: bv32, c_: bv32, d_: bv32, ghost r: Regs)
    returns (a: bv32, b: bv32, c: bv32, d: bv32)
    requires |x| == 16 && Run(x, r, 32) == Regs(a_, b_, c_, d_)
    ensures Run(x, r, 48) == Regs(a, b, c, d)
  {
    hide Run, K, S, T, FF, GG, HH, II;
    a, b, c, d := a_, b_, c_, d_;
    Table3a();
    Table3b();
    Table3c();
    Table3d();
    StepHH(x, r, 32, a, b, c, d);
    a := HH(a, b, c, d, x[5], 4, 0xfffa3942);
    StepHH(x, r, 33, d, a, b, c);
    d := HH(d, a, b, c, x[8], 11, 0x8771f681);
    StepHH(x, r, 34, c, d, a, b);
    c := HH(c, d, a, b, x[11], 16, 0x6d9d6122);
    StepHH(x, r, 35, b, c, d, a);
    b := HH(b, c, d, a, x[14], 23, 0xfde5380c);
    StepHH(x, r, 36, a, b, c, d);
    a := HH(a, b, c, d, x[1], 4, 0xa4beea44);
    StepHH(x, r, 37, d, a, b, c);
    d := HH(d, a, b, c, x[4], 11, 0x4bdecfa9);
    StepHH(x, r, 38, c, d, a, b);
    c := HH(c, d, a, b, x[7], 16, 0xf6bb4b60);
    StepHH(x, r, 39, b, c, d, a);
    b := HH(b, c, d, a, x[10], 23, 0xbebfbc70);
    StepHH(x, r, 40, a, b, c, d);
    a := HH(a, b, c, d, x[13], 4, 0x289b7ec6);
    StepHH(x, r, 41, d, a, b, c);
    d := HH(d, a, b, c, x[0], 11, 0xeaa127fa);
    StepHH(x, r, 42, c, d, a, b);
    c := HH(c, d, a, b, x[3], 16, 0xd4ef3085);
    StepHH(x, r, 43, b, c, d, a);
    b := HH(b, c, d, a, x[6], 23, 0x4881d05);
    StepHH(x, r, 44, a, b, c, d);
    a := HH(a, b, c, d, x[9], 4, 0xd9d4d039);
    StepHH(x, r, 45, d, a, b, c);
    d := HH(d, a, b, c, x[12], 11, 0xe6db99e5);
    StepHH(x, r, 46, c, d, a, b);
    c := HH(c, d, a, b, x[15], 16, 0x1fa27cf8);
    StepHH(x, r, 47, b, c, d, a);
    b := HH(b, c, d, a, x[2], 23, 0xc4ac5665);
  }

  lemma StepII(x: seq<bv32>, r: Regs, n: nat, a: bv32, b: bv32, c: bv32, d: bv32)
    requires |x| == 16 && 48 <= n < 64 && Run(x, r, n) == Regs(a, b, c, d)
    ensures Run(x, r, n + 1) == Regs(d, II(a, b, c, d, x[K(n)], S(n), T(n)), b, c)
  {
    hide Op, Mix, K, S, T, I;
    MixIsOp(a, b, I(b, c, d), x[K(n)], S(n), T(n));
  }

  lemma Table4a()
    ensures K(48) == 0 && S(48) == 6 && T(48) == 0xf4292244
      && K(49) == 7 && S(49) == 10 && T(49) == 0x432aff97
      && K(50) == 14 && S(50) == 15 && T(50) == 0xab9423a7
      && K(51) == 5 && S(51) == 21 && T(51) == 0xfc93a039
  {
  }

  lemma Table4b()
    ensures K(52) == 12 && S(52) == 6 && T(52) == 0x655b59c3
      && K(53) == 3 && S(53) == 10 && T(53) == 0x8f0ccc92
      && K(54) == 10 && S(54) == 15 && T(54) == 0xffeff47d
      && K(55) == 1 && S(55) == 21 && T(55) == 0x85845dd1
  {
  }

  lemma Table4c()
    ensures K(56) == 8 && S(56) == 6 && T(56) == 0x6fa87e4f
      && K(57) == 15 && S(57) == 10 && T(57) == 0xfe2ce6e0
      && K(58) == 6 && S(58) == 15 && T(58) == 0xa3014314
      && K(59) == 13 && S(59) == 21 && T(59) == 0x4e0811a1
  {
  }

  lemma Table4d()
    ensures K(60) == 4 && S(60) == 6 && T(60) == 0xf7537e82
      && K(61) == 11 && S(61) == 10 && T(61) == 0xbd3af235
      && K(62) == 2 && S(62) == 15 && T(62) == 0x2ad7d2bb
      && K(63) == 9 && S(63) == 21 && T(63) == 0xeb86d391
  {
  }

  method Round4(x: seq<bv32>, a_: bv32, b_: bv32, c_: bv32, d_: bv32, ghost r: Regs)
    returns (a: bv32, b: bv32, c: bv32, d: bv32)
    requires |x| == 16 && Run(x, r, 48) == Regs(a_, b_, c_, d_)
    ensures Run(x, r, 64) == Regs(a, b, c, d)
  {
    hide Run, K, S, T, FF, GG, HH, II;
    a, b, c, d := a_, b_, c_, d_;
    Table4a();
    Table4b();
    Table4c();
    Table4d();
    StepII(x, r, 48, a, b, c, d);
    a := II(a, b, c, d, x[0], 6, 0xf4292244);
    StepII(x, r, 49, d, a, b, c);
    d := II(d, a, b, c, x[7], 10, 0x432aff97);
    StepII(x, r, 50, c, d, a, b);
    c := II(c, d, a, b, x[14], 15, 0xab9423a7);
    StepII(x, r, 51, b, c, d, a);
    b := II(b, c, d, a, x[5], 21, 0xfc93a039);
    StepII(x, r, 52, a, b, c, d);
    a := II(a, b, c, d, x[12], 6, 0x655b59c3);
    StepII(x, r, 53, d, a, b, c);
    d := II(d, a, b, c, x[3], 10, 0x8f0ccc92);
    StepII(x, r, 54, c, d, a, b);
    c := II(c, d, a, b, x[10], 15, 0xffeff47d);
    StepII(x, r, 55, b, c, d, a);
    b := II(b, c, d, a, x[1], 21, 0x85845dd1);
    StepII(x, r, 56, a, b, c, d);
    a := II(a, b, c, d, x[8], 6, 0x6fa87e4f);
    StepII(x, r, 57, d, a, b, c);
    d := II(d, a, b, c, x[15], 10, 0xfe2ce6e0);
    StepII(x, r, 58, c, d, a, b);
    c := II(c, d, a, b, x[6], 15, 0xa3014314);
    StepII(x, r, 59, b, c, d, a);
    b := II(b, c, d, a, x[13], 21, 0x4e0811a1);
    StepII(x, r, 60, a, b, c, d);
    a := II(a, b, c, d, x[4], 6, 0xf7537e82);
    StepII(x, r, 61, d, a, b, c);
    d := II(d, a, b, c, x[11], 10, 0xbd3af235);
    StepII(x, r, 62, c, d, a, b);
    c := II(c, d, a, b, x[2], 15, 0x2ad7d2bb);
    StepII(x, r, 63, b, c, d, a);
    b := II(b, c, d, a, x[9], 21, 0xeb86d391);
  }

  // ----- little-endian conversion

  /** `md5_decode` */
  method Decode(output: array<bv32>, input: seq<bv8>)
    requires |input| == 4 * output.Length
    modifies output
    ensures output[..] == Words(input)
  {
    var i, j := 0, 0;
    while j < |input|
      invariant i <= output.Length && j == 4 * i
      invariant forall k :: 0 <= k < i ==> output[k] == Words(input)[k]
    {
      output[i] := (input[j] as bv32) | ((input[j + 1] as bv32) << 8)
                   | ((input[j + 2] as bv32) << 16) | ((input[j + 3] as bv32) << 24);
      i, j := i + 1, j + 4;
    }
  }

  /** The bytes of words, low-order byte first. */
  function AllBytes(words: seq<bv32>): (r: seq<bv8>)
    ensures |r| == 4 * |words|
  {
    if words == [] then [] else AllBytes(words[..|words| - 1]) + Bytes(words[|words| - 1])
  }

  /** `md5_encode` */
  method Encode(input: array<bv32>) returns (output: seq<bv8>)
    ensures output == AllBytes(input[..])
  {
    output := [];
    var i := 0;
    while i < input.Length
      invariant i <= input.Length && output == AllBytes(input[..i])
    {
      output := output + [(input[i] & 0xff) as bv8, ((input[i] >> 8) & 0xff) as bv8,
                          ((input[i] >> 16) & 0xff) as bv8, ((input[i] >> 24) & 0xff) as bv8];
      assert input[..i + 1][..i] == input[..i];
      i := i + 1;
    }
    assert input[..] == input[..i];
  }

  lemma WordsSnoc(b: seq<bv8>, n: nat)
    requires n % 4 == 0 && |b| == n + 4
    ensures Words(b) == Words(b[..n]) + [Word(b[n], b[n + 1], b[n + 2], b[n + 3])]
  {
    hide Word;
  }

  /** Encoding undoes decoding. */
  lemma {:induction false} AllBytesOfWords(b: seq<bv8>)
    requires |b| % 4 == 0
    ensures AllBytes(Words(b)) == b
  {
    hide Word, Bytes, Words;
    if b != [] {
      var n := |b| - 4;
      AllBytesOfWords(b[..n]);
      BytesOfWord(b[n], b[n + 1], b[n + 2], b[n + 3]);
      WordsSnoc(b, n);
      var w := Word(b[n], b[n + 1], b[n + 2], b[n + 3]);
      assert (Words(b[..n]) + [w])[..n / 4] == Words(b[..n]);
      assert b == b[..n] + [b[n], b[n + 1], b[n + 2], b[n + 3]];
    }
  }

  // ----- the bit count

  /** `len << 3`, `len >> 29` and an assignment, all in 32 bits. */
  function LowBits(len: nat): nat { len * 8 % WORD }
  function HighBits(len: nat): nat { len / 0x2000_0000 }
  function Wrapped(n: nat): nat { n % WORD }

  /** Adding to the count with its carry is adding modulo 2^64. */
  lemma Counted(n: nat, len: nat, count0: nat, count1: nat)
    requires len < WORD && count0 == 8 * n % WORD && count1 == 8 * n / WORD % WORD
    ensures
      var sum := Wrapped(count0 + LowBits(len));
      var carry := if sum < LowBits(len) then 1 else 0;
      && sum == 8 * (n + len) % WORD
      && Wrapped(Wrapped(count1 + carry) + HighBits(len)) == 8 * (n + len) / WORD % WORD
    ensures Wrapped(count1) == count1
  {
    CountedUp(8 * n, 8 * len);
    assert len * 8 / WORD == HighBits(len);
  }

  lemma CountedUp(a: nat, b: nat)
    ensures
      var sum := (a % WORD + b % WORD) % WORD;
      var carry := if sum < b % WORD then 1 else 0;
      && sum == (a + b) % WORD
      && ((a / WORD % WORD + carry) % WORD + b / WORD) % WORD == (a + b) / WORD % WORD
  {
    var p, q, x, y := a / WORD, b / WORD, a % WORD, b % WORD;
    if x + y < WORD {
      Split(a + b, p + q, x + y);
      Split(x + y, 0, x + y);
      Split(p % WORD, 0, p % WORD);
      AddMod(p, q);
    } else {
      Split(a + b, p + q + 1, x + y - WORD);
      Split(x + y, 1, x + y - WORD);
      AddMod(p, 1);
      AddMod(p + 1, q);
    }
  }

  lemma Split(a: nat, q: nat, r: nat)
    requires r < WORD && a == WORD * q + r
    ensures a / WORD == q && a % WORD == r
  {
  }

  lemma AddMod(p: nat, q: nat)
    ensures (p % WORD + q) % WORD == (p + q) % WORD
  {
    var u, v := p / WORD, p % WORD;
    var s, t := (v + q) / WORD, (v + q) % WORD;
    Split(p + q, u + s, t);
  }

  // ----- the context

  /** The test for another whole block, with `i + 63` computed in 32 bits. */
  predicate More(i: nat, len: nat) {
    (i + 63) % WORD < len
  }

  /** The indices of the loop: where blocks start after the one completed in the buffer. */
  predicate Visited(idx: nat, len: nat, i: nat) {
    64 - idx <= i <= len && (idx + i) % 64 == 0
  }

  /** Blocks start on multiples of 64 in the chunk, or it is too short for the index to come near 2^32. */
  predicate LoopSafe(idx: nat, len: nat) {
    idx == 0 || idx + len < WORD
  }

  /** The test is right at every index of the loop for these chunks and no others. */
  lemma LoopTestExactly(idx: nat, len: nat)
    requires idx < 64 && len < WORD
    ensures LoopSafe(idx, len) <==> forall i: nat :: Visited(idx, len, i) ==> (More(i, len) <==> i + 63 < len)
  {
    if LoopSafe(idx, len) {
      forall i: nat | Visited(idx, len, i)
        ensures More(i, len) <==> i + 63 < len
      {
        SafeIndex(idx, len, i);
      }
    } else {
      TestWraps(idx, len);
    }
  }

  lemma SafeIndex(idx: nat, len: nat, i: nat)
    requires idx < 64 && len < WORD && LoopSafe(idx, len) && Visited(idx, len, i)
    ensures More(i, len) <==> i + 63 < len
  {
    var k := (idx + i) / 64;
    assert idx + i == 64 * k;
    assert k < 0x400_0000;
    SmallMod(i + 63);
  }

  /** Any other chunk, as one of 2^32 - 1 bytes after a single byte, has a block taken from beyond its end. */
  lemma TestWraps(idx: nat, len: nat)
    requires idx < 64 && len < WORD && !LoopSafe(idx, len)
    ensures Visited(idx, len, WORD - idx) && More(WORD - idx, len) && WORD - idx + 63 >= len
    ensures !LoopSafe(1, WORD - 1)
  {
    var i: nat := WORD - idx;
    Split(i + 63, 1, 63 - idx);
  }

  lemma SmallMod(n: nat)
    requires n < WORD
    ensures n % WORD == n
  {
  }

  function RegsOf(s: seq<bv32>): Regs
    requires |s| == 4
  {
    Regs(s[0], s[1], s[2], s[3])
  }

  /** `md5_transform` */
  method Transform(state: array<bv32>, block: seq<bv8>)
    requires state.Length == 4 && |block| == 64
    modifies state
    ensures RegsOf(state[..]) == Compress(RegsOf(old(state[..])), block)
  {
    hide Run, Words, Sum;
    ghost var r := RegsOf(state[..]);
    var a, b, c, d := state[0], state[1], state[2], state[3];
    var buf := new bv32[16];
    Decode(buf, block);
    var x := buf[..];
    RunNone(x, r);
    a, b, c, d := Round1(x, a, b, c, d, r);
    a, b, c, d := Round2(x, a, b, c, d, r);
    a, b, c, d := Round3(x, a, b, c, d, r);
    a, b, c, d := Round4(x, a, b, c, d, r);
    AddTo(state, a, b, c, d);
  }

  method AddTo(state: array<bv32>, a: bv32, b: bv32, c: bv32, d: bv32)
    requires state.Length == 4
    modifies state
    ensures RegsOf(state[..]) == Sum(RegsOf(old(state[..])), Regs(a, b, c, d))
  {
    hide Plus;
    state[0] := Plus(state[0], a);
    state[1] := Plus(state[1], b);
    state[2] := Plus(state[2], c);
    state[3] := Plus(state[3], d);
  }

  lemma RunNone(x: seq<bv32>, r: Regs)
    requires |x| == 16
    ensures Run(x, r, 0) == r
  {
  }

  class Context {
    const state: array<bv32>
    var count0: nat
    var count1: nat
    const buffer: array<bv8>
    // all the bytes so far
    ghost var data: seq<bv8>

    ghost predicate Counts()
      reads this
    {
      count0 == 8 * |data| % WORD && count1 == 8 * |data| / WORD % WORD
    }

    /** The state has taken in the whole blocks, the buffer holds the bytes after them. */
    ghost predicate Holds()
      reads this`data, state, buffer
    {
      && state.Length == 4 && buffer.Length == 64
      && var n := |data| % 64;
        && RegsOf(state[..]) == Blocks(INITIAL, data[..|data| - n])
        && buffer[..n] == data[|data| - n..]
    }

    ghost predicate Valid()
      reads this, state, buffer
    {
      Counts() && Holds()
    }

    /** The place in the buffer, from the low word of the count. */
    lemma Index()
      requires Counts()
      ensures count0 / 8 % 64 == |data| % 64
    {
      var q := 8 * |data| / WORD;
      EighthOf(|data|, 0x2000_0000 * q, count0);
      Sixtyfourth(|data|, 0x80_0000 * q);
    }

    /** `md5_init` */
    constructor ()
      ensures Valid() && data == [] && fresh(state) && fresh(buffer)
    {
      state := new bv32[4][0x67452301, 0xefcdab89, 0x98badcfe, 0x10325476];
      buffer := new bv8[64](_ => 0);
      count0, count1, data := 0, 0, [];
    }

    /** The count part of `md5_update`. */
    method Count(inputLen: nat)
      requires Counts() && inputLen < WORD
      modifies this`count0, this`count1
      ensures count0 == 8 * (|data| + inputLen) % WORD && count1 == 8 * (|data| + inputLen) / WORD % WORD
    {
      hide LowBits, HighBits, Wrapped;
      Counted(|data|, inputLen, count0, count1);
      count0 := Wrapped(count0 + LowBits(inputLen));
      if count0 < LowBits(inputLen) {
        count1 := Wrapped(count1 + 1);
      }
      count1 := Wrapped(count1 + HighBits(inputLen));
    }

    /** The whole blocks of a chunk from a block boundary on. */
    method Absorb(input: seq<bv8>, start: nat, ghost before: seq<bv8>) returns (i: nat)
      requires state.Length == 4 && start <= |input| < WORD && start == 64 - |before| % 64
      requires LoopSafe(|before| % 64, |input|)
      requires RegsOf(state[..]) == Blocks(INITIAL, before + input[..start])
      modifies state
      ensures start <= i <= |input| < i + 64 && (|before| + i) % 64 == 0
      ensures RegsOf(state[..]) == Blocks(INITIAL, before + input[..i])
    {
      hide Compress;
      i := start;
      LoopTestExactly(|before| % 64, |input|);
      while More(i, |input|)
        invariant start <= i <= |input| && (|before| + i) % 64 == 0 && Visited(|before| % 64, |input|, i)
        invariant RegsOf(state[..]) == Blocks(INITIAL, before + input[..i])
        decreases |input| - i
      {
        BlocksSnoc(INITIAL, before + input[..i], input[i..i + 64]);
        assert before + input[..i] + input[i..i + 64] == before + input[..i + 64];
        Transform(state, input[i..i + 64]);
        i := i + 64;
      }
    }

    /** Completes the block in the buffer and takes it in. */
    method Complete(idx: nat, part: seq<bv8>)
      requires Holds() && idx == |data| % 64 && |part| == 64 - idx
      modifies state, buffer
      ensures RegsOf(state[..]) == Blocks(INITIAL, data + part)
    {
      hide Compress;
      ghost var whole := |data| - idx;
      ghost var block := data[whole..] + part;
      BlocksSnoc(INITIAL, data[..whole], block);
      assert data[..whole] + block == data + part;
      Fill(idx, part);
      assert buffer[..] == buffer[..64] == block;
      Transform(state, buffer[..]);
    }

    /** `md5_update` */
    method Update(input: seq<bv8>)
      requires Valid() && |input| < WORD && LoopSafe(count0 / 8 % 64, |input|)
      modifies this`count0, this`count1, this`data, state, buffer
      ensures Valid() && data == old(data) + input
    {
      ghost var was := data;
      var idx := count0 / 8 % 64;
      Index();
      Count(|input|);
      Take(input, idx);
    }

    /** The rest of `md5_update`: the whole blocks go into the state, what is left into the buffer. */
    method Take(input: seq<bv8>, idx_: nat)
      requires Holds() && |input| < WORD && idx_ == |data| % 64 && LoopSafe(idx_, |input|)
      modifies this`data, state, buffer
      ensures Holds() && data == old(data) + input
    {
      hide Blocks, RegsOf, Visited, LoopSafe;
      ghost var was, all := data, data + input;
      var idx := idx_;
      var partLen := 64 - idx;
      var i := 0;
      if |input| >= partLen {
        Complete(idx, input[..partLen]);
        i := Absorb(input, partLen, was);
        idx := 0;
        CutAfter(was, input, i);
      } else {
        CutBefore(was, input, |was| - idx);
      }
      Store(idx, input[i..], all);
    }

    /** What is left goes into the buffer, behind what is there. */
    method Store(idx: nat, bytes: seq<bv8>, ghost all: seq<bv8>)
      requires state.Length == 4 && buffer.Length == 64 && idx + |bytes| < 64 && idx + |bytes| <= |all|
      requires
        var whole := |all| - (idx + |bytes|);
        && whole % 64 == 0 && RegsOf(state[..]) == Blocks(INITIAL, all[..whole])
        && buffer[..idx] + bytes == all[whole..]
      modifies this`data, buffer
      ensures Holds() && data == all
    {
      hide Blocks, RegsOf;
      LastBlock(|all| - (idx + |bytes|), idx + |bytes|);
      Fill(idx, bytes);
      data := all;
    }

    lemma CutAfter(was: seq<bv8>, input: seq<bv8>, i: nat)
      requires i <= |input|
      ensures (was + input)[..|was| + i] == was + input[..i] && (was + input)[|was| + i..] == input[i..]
    {
    }

    lemma CutBefore(was: seq<bv8>, input: seq<bv8>, i: nat)
      requires i <= |was|
      ensures (was + input)[..i] == was[..i] && (was + input)[i..] == was[i..] + input
    {
    }

    lemma LastBlock(whole: nat, rest: nat)
      requires whole % 64 == 0 && rest < 64
      ensures (whole + rest) % 64 == rest
    {
    }

    /** `memcpy` into the buffer. */
    method Fill(idx: nat, bytes: seq<bv8>)
      requires idx + |bytes| <= buffer.Length
      modifies buffer
      ensures buffer[..idx + |bytes|] == old(buffer[..idx]) + bytes
    {
      forall k | 0 <= k < |bytes| {
        buffer[idx + k] := bytes[k];
      }
    }

    /** `md5_pad`: padding, then the length as it was before the padding. */
    method Pad()
      requires Valid()
      modifies this`count0, this`count1, this`data, state, buffer
      ensures Valid() && data == Padded(old(data))
    {
      ghost var m := data;
      var bits := WordBytes(count0) + WordBytes(count1);
      assert bits == LengthBytes(|m|);
      var idx := count0 / 8 % 64;
      Index();
      var padLen := if idx < 56 then 56 - idx else 120 - idx;
      assert PADDING[..padLen] == Padding(|m|) by {
        PadLength(|m|);
      }
      hide LengthBytes, Padding, WordBytes;
      Update(PADDING[..padLen]);
      Update(bits);
    }

    /** `md5_final`: the digest of everything added, and a context with nothing left of it. */
    method Final() returns (digest: seq<bv8>)
      requires Valid()
      modifies this, state, buffer
      ensures digest == Digest(old(data))
      ensures count0 == 0 && count1 == 0
      ensures forall i :: 0 <= i < state.Length ==> state[i] == 0
      ensures forall i :: 0 <= i < buffer.Length ==> buffer[i] == 0
    {
      ghost var m := data;
      Pad();
      WholeMessage(m);
      digest := Encode(state);
      FourWords(state[..]);
      count0, count1, data := 0, 0, [];
      forall i | 0 <= i < state.Length {
        state[i] := 0;
      }
      forall i | 0 <= i < buffer.Length {
        buffer[i] := 0;
      }
    }

    lemma WholeMessage(m: seq<bv8>)
      requires Holds() && data == Padded(m)
      ensures RegsOf(state[..]) == Blocks(INITIAL, Padded(m))
    {
      hide Blocks;
      PaddedIsWhole(m, 0);
      hide Padded;
      assert data[..|data|] == data;
    }
  }

  const PADDING: seq<bv8> := [0x80] + seq(63, _ => 0)

  lemma PadLength(n: nat)
    ensures (if n % 64 < 56 then 56 - n % 64 else 120 - n % 64) == 1 + (55 - n) % 64
  {
    var q, r := n / 64, n % 64;
    assert 55 - n == -64 * q + (55 - r);
  }

  lemma FourWords(s: seq<bv32>)
    requires |s| == 4
    ensures AllBytes(s) == Bytes(s[0]) + Bytes(s[1]) + Bytes(s[2]) + Bytes(s[3])
  {
    hide Bytes;
    var s3, s2, s1 := s[..3], s[..2], s[..1];
    assert s3[..2] == s2 && s2[..1] == s1 && s1[..0] == [];
    assert AllBytes(s1) == Bytes(s[0]);
    assert AllBytes(s2) == AllBytes(s1) + Bytes(s[1]);
    assert AllBytes(s3) == AllBytes(s2) + Bytes(s[2]);
  }

  function Concat(chunks: seq<seq<bv8>>): seq<bv8> {
    if chunks == [] then [] else Concat(chunks[..|chunks| - 1]) + chunks[|chunks| - 1]
  }

  /** `md5_file`: however a message is cut into chunks, its digest is the same. */
  method DigestOf(chunks: seq<seq<bv8>>) returns (digest: seq<bv8>)
    requires forall i :: 0 <= i < |chunks| ==>
      |chunks[i]| < WORD && LoopSafe(|Concat(chunks[..i])| % 64, |chunks[i]|)
    ensures digest == Digest(Concat(chunks))
  {
    hide Digest, Context.Holds, Context.Counts;
    var ctx := new Context();
    var i := 0;
    while i < |chunks|
      invariant i <= |chunks| && ctx.Valid() && ctx.data == Concat(chunks[..i])
      invariant fresh(ctx) && fresh(ctx.state) && fresh(ctx.buffer)
    {
      ctx.Index();
      ctx.Update(chunks[i]);
      assert chunks[..i + 1][..i] == chunks[..i];
      i := i + 1;
    }
    assert chunks[..i] == chunks;
    digest := ctx.Final();
  }

  lemma EighthOf(n: nat, k: nat, c: nat)
    requires 8 * n == 8 * k + c
    ensures c / 8 == n - k
  {
  }

  lemma Sixtyfourth(n: nat, j: nat)
    requires n >= 64 * j
    ensures (n - 64 * j) % 64 == n % 64
  {
  }
}
