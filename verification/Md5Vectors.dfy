/**
 Two of the digests that section A.5 of RFC 1321 lists, worked out step by step: that of the empty message, and
 that of the 62 letters and digits, whose first block has no two words alike.
 */
module Md5Vectors {
  import opened Md5
  import opened Md5Spec

  // ----- the empty message

  /** The one block of the empty message. */
  ghost predicate EmptyBlock(x: seq<bv32>) {
    |x| == 16 && x[0] == 0x80 && forall i :: 1 <= i < 16 ==> x[i] == 0
  }

  lemma Empty1(x: seq<bv32>)
    requires EmptyBlock(x) && Run(x, INITIAL, 0) == Regs(0x67452301, 0xefcdab89, 0x98badcfe, 0x10325476)
    ensures Run(x, INITIAL, 16) == Regs(0xf56c7cf1, 0xd6819c6a, 0x5aa53f75, 0x374943a7)
  {
    hide Run, K, S, T;
    Table1a();
    Table1b();
    Table1c();
    Table1d();
    StepFF(x, INITIAL, 0, 0x67452301, 0xefcdab89, 0x98badcfe, 0x10325476);
    StepFF(x, INITIAL, 1, 0x10325476, 0xa5202774, 0xefcdab89, 0x98badcfe);
    StepFF(x, INITIAL, 2, 0x98badcfe, 0xf59592dd, 0xa5202774, 0xefcdab89);
    StepFF(x, INITIAL, 3, 0xefcdab89, 0xe7f06b23, 0xf59592dd, 0xa5202774);
    StepFF(x, INITIAL, 4, 0xa5202774, 0x1b163203, 0xe7f06b23, 0xf59592dd);
    StepFF(x, INITIAL, 5, 0xf59592dd, 0x32033344, 0x1b163203, 0xe7f06b23);
    StepFF(x, INITIAL, 6, 0xe7f06b23, 0x2f35d494, 0x32033344, 0x1b163203);
    StepFF(x, INITIAL, 7, 0x1b163203, 0xf5b158db, 0x2f35d494, 0x32033344);
    StepFF(x, INITIAL, 8, 0x32033344, 0x9bc13ce9, 0xf5b158db, 0x2f35d494);
    StepFF(x, INITIAL, 9, 0x2f35d494, 0x3893b991, 0x9bc13ce9, 0xf5b158db);
    StepFF(x, INITIAL, 10, 0xf5b158db, 0xfce4a312, 0x3893b991, 0x9bc13ce9);
    StepFF(x, INITIAL, 11, 0x9bc13ce9, 0xe1ef0576, 0xfce4a312, 0x3893b991);
    StepFF(x, INITIAL, 12, 0x3893b991, 0x70768a29, 0xe1ef0576, 0xfce4a312);
    StepFF(x, INITIAL, 13, 0xfce4a312, 0xf56c7cf1, 0x70768a29, 0xe1ef0576);
    StepFF(x, INITIAL, 14, 0xe1ef0576, 0x374943a7, 0xf56c7cf1, 0x70768a29);
    StepFF(x, INITIAL, 15, 0x70768a29, 0x5aa53f75, 0x374943a7, 0xf56c7cf1);
  }

  lemma Empty2(x: seq<bv32>)
    requires EmptyBlock(x) && Run(x, INITIAL, 16) == Regs(0xf56c7cf1, 0xd6819c6a, 0x5aa53f75, 0x374943a7)
    ensures Run(x, INITIAL, 32) == Regs(0x13707036, 0xa2205f1f, 0x1c31c384, 0xae7813db)
  {
    hide Run, K, S, T;
    Table2a();
    Table2b();
    Table2c();
    Table2d();
    StepGG(x, INITIAL, 16, 0xf56c7cf1, 0xd6819c6a, 0x5aa53f75, 0x374943a7);
    StepGG(x, INITIAL, 17, 0x374943a7, 0x1c7d7513, 0xd6819c6a, 0x5aa53f75);
    StepGG(x, INITIAL, 18, 0x5aa53f75, 0x7bd57a3a, 0x1c7d7513, 0xd6819c6a);
    StepGG(x, INITIAL, 19, 0xd6819c6a, 0xc095f13a, 0x7bd57a3a, 0x1c7d7513);
    StepGG(x, INITIAL, 20, 0x1c7d7513, 0xbd782e17, 0xc095f13a, 0x7bd57a3a);
    StepGG(x, INITIAL, 21, 0x7bd57a3a, 0x3d1e3e6c, 0xbd782e17, 0xc095f13a);
    StepGG(x, INITIAL, 22, 0xc095f13a, 0x68b7b3e3, 0x3d1e3e6c, 0xbd782e17);
    StepGG(x, INITIAL, 23, 0xbd782e17, 0xeb41643e, 0x68b7b3e3, 0x3d1e3e6c);
    StepGG(x, INITIAL, 24, 0x3d1e3e6c, 0xe422531a, 0xeb41643e, 0x68b7b3e3);
    StepGG(x, INITIAL, 25, 0x68b7b3e3, 0x306ec122, 0xe422531a, 0xeb41643e);
    StepGG(x, INITIAL, 26, 0xeb41643e, 0xd28c77c2, 0x306ec122, 0xe422531a);
    StepGG(x, INITIAL, 27, 0xe422531a, 0xa3c663da, 0xd28c77c2, 0x306ec122);
    StepGG(x, INITIAL, 28, 0x306ec122, 0xa0572807, 0xa3c663da, 0xd28c77c2);
    StepGG(x, INITIAL, 29, 0xd28c77c2, 0x13707036, 0xa0572807, 0xa3c663da);
    StepGG(x, INITIAL, 30, 0xa3c663da, 0xae7813db, 0x13707036, 0xa0572807);
    StepGG(x, INITIAL, 31, 0xa0572807, 0x1c31c384, 0xae7813db, 0x13707036);
  }

  lemma Empty3(x: seq<bv32>)
    requires EmptyBlock(x) && Run(x, INITIAL, 32) == Regs(0x13707036, 0xa2205f1f, 0x1c31c384, 0xae7813db)
    ensures Run(x, INITIAL, 48) == Regs(0x3f55edfd, 0xca7d2dbd, 0x68d84ea2, 0x22a31f54)
  {
    hide Run, K, S, T;
    Table3a();
    Table3b();
    Table3c();
    Table3d();
    StepHH(x, INITIAL, 32, 0x13707036, 0xa2205f1f, 0x1c31c384, 0xae7813db);
    StepHH(x, INITIAL, 33, 0xae7813db, 0xdf63eaa1, 0xa2205f1f, 0x1c31c384);
    StepHH(x, INITIAL, 34, 0x1c31c384, 0xc3689f5b, 0xdf63eaa1, 0xa2205f1f);
    StepHH(x, INITIAL, 35, 0xa2205f1f, 0x12f3e755, 0xc3689f5b, 0xdf63eaa1);
    StepHH(x, INITIAL, 36, 0xdf63eaa1, 0x004b6669, 0x12f3e755, 0xc3689f5b);
    StepHH(x, INITIAL, 37, 0xc3689f5b, 0x5f7a9b2e, 0x004b6669, 0x12f3e755);
    StepHH(x, INITIAL, 38, 0x12f3e755, 0xabc34e16, 0x5f7a9b2e, 0x004b6669);
    StepHH(x, INITIAL, 39, 0x004b6669, 0x91ca4cb7, 0xabc34e16, 0x5f7a9b2e);
    StepHH(x, INITIAL, 40, 0x5f7a9b2e, 0xc5dc8c15, 0x91ca4cb7, 0xabc34e16);
    StepHH(x, INITIAL, 41, 0xabc34e16, 0x4497169d, 0xc5dc8c15, 0x91ca4cb7);
    StepHH(x, INITIAL, 42, 0x91ca4cb7, 0x76fd93d4, 0x4497169d, 0xc5dc8c15);
    StepHH(x, INITIAL, 43, 0xc5dc8c15, 0xfd95f243, 0x76fd93d4, 0x4497169d);
    StepHH(x, INITIAL, 44, 0x4497169d, 0x0fe32453, 0xfd95f243, 0x76fd93d4);
    StepHH(x, INITIAL, 45, 0x76fd93d4, 0x3f55edfd, 0x0fe32453, 0xfd95f243);
    StepHH(x, INITIAL, 46, 0xfd95f243, 0x22a31f54, 0x3f55edfd, 0x0fe32453);
    StepHH(x, INITIAL, 47, 0x0fe32453, 0x68d84ea2, 0x22a31f54, 0x3f55edfd);
  }

  lemma Empty4(x: seq<bv32>)
    requires EmptyBlock(x) && Run(x, INITIAL, 48) == Regs(0x3f55edfd, 0xca7d2dbd, 0x68d84ea2, 0x22a31f54)
    ensures Run(x, INITIAL, 64) == Regs(0x7246fad3, 0x14e45506, 0xff4ea3eb, 0x6e10a476)
  {
    hide Run, K, S, T;
    Table4a();
    Table4b();
    Table4c();
    Table4d();
    StepII(x, INITIAL, 48, 0x3f55edfd, 0xca7d2dbd, 0x68d84ea2, 0x22a31f54);
    StepII(x, INITIAL, 49, 0x22a31f54, 0x93aa2577, 0xca7d2dbd, 0x68d84ea2);
    StepII(x, INITIAL, 50, 0x68d84ea2, 0x1688dc85, 0x93aa2577, 0xca7d2dbd);
    StepII(x, INITIAL, 51, 0xca7d2dbd, 0xcd85b8cb, 0x1688dc85, 0x93aa2577);
    StepII(x, INITIAL, 52, 0x93aa2577, 0x561e0689, 0xcd85b8cb, 0x1688dc85);
    StepII(x, INITIAL, 53, 0x1688dc85, 0x5625a114, 0x561e0689, 0xcd85b8cb);
    StepII(x, INITIAL, 54, 0xcd85b8cb, 0x3450f42b, 0x5625a114, 0x561e0689);
    StepII(x, INITIAL, 55, 0x561e0689, 0x392ad0d0, 0x3450f42b, 0x5625a114);
    StepII(x, INITIAL, 56, 0x5625a114, 0x1e77fa61, 0x392ad0d0, 0x3450f42b);
    StepII(x, INITIAL, 57, 0x3450f42b, 0x474a9c8c, 0x1e77fa61, 0x392ad0d0);
    StepII(x, INITIAL, 58, 0x392ad0d0, 0xdfce00bc, 0x474a9c8c, 0x1e77fa61);
    StepII(x, INITIAL, 59, 0x1e77fa61, 0x36594b14, 0xdfce00bc, 0x474a9c8c);
    StepII(x, INITIAL, 60, 0x474a9c8c, 0x30130182, 0x36594b14, 0xdfce00bc);
    StepII(x, INITIAL, 61, 0xdfce00bc, 0x7246fad3, 0x30130182, 0x36594b14);
    StepII(x, INITIAL, 62, 0x36594b14, 0x6e10a476, 0x7246fad3, 0x30130182);
    StepII(x, INITIAL, 63, 0x30130182, 0xff4ea3eb, 0x6e10a476, 0x7246fad3);
  }

  // ----- letters and digits

  const A1: seq<bv8> := [0x41, 0x42, 0x43, 0x44, 0x45, 0x46, 0x47, 0x48, 0x49, 0x4a, 0x4b, 0x4c, 0x4d, 0x4e, 0x4f, 0x50]
  const A2: seq<bv8> := [0x51, 0x52, 0x53, 0x54, 0x55, 0x56, 0x57, 0x58, 0x59, 0x5a, 0x61, 0x62, 0x63, 0x64, 0x65, 0x66]
  const A3: seq<bv8> := [0x67, 0x68, 0x69, 0x6a, 0x6b, 0x6c, 0x6d, 0x6e, 0x6f, 0x70, 0x71, 0x72, 0x73, 0x74, 0x75, 0x76]
  const A4: seq<bv8> := [0x77, 0x78, 0x79, 0x7a, 0x30, 0x31, 0x32, 0x33, 0x34, 0x35, 0x36, 0x37, 0x38, 0x39]

  const ALPHABET: seq<bv8> := A1 + A2 + A3 + A4

  /** Its first block: the last two of its bytes are padding. */
  ghost predicate FirstBlock(x: seq<bv32>) {
    && |x| == 16
    && x[0] == 0x44434241 && x[1] == 0x48474645 && x[2] == 0x4c4b4a49 && x[3] == 0x504f4e4d
    && x[4] == 0x54535251 && x[5] == 0x58575655 && x[6] == 0x62615a59 && x[7] == 0x66656463
    && x[8] == 0x6a696867 && x[9] == 0x6e6d6c6b && x[10] == 0x7271706f && x[11] == 0x76757473
    && x[12] == 0x7a797877 && x[13] == 0x33323130 && x[14] == 0x37363534 && x[15] == 0x00803938
  }

  lemma First1(x: seq<bv32>)
    requires FirstBlock(x) && Run(x, INITIAL, 0) == Regs(0x67452301, 0xefcdab89, 0x98badcfe, 0x10325476)
    ensures Run(x, INITIAL, 8) == Regs(0xf22e6c4e, 0xa4799506, 0xa95a2fc0, 0xb4ac9218)
  {
    hide Run, K, S, T;
    Table1a();
    Table1b();
    StepFF(x, INITIAL, 0, 0x67452301, 0xefcdab89, 0x98badcfe, 0x10325476);
    StepFF(x, INITIAL, 1, 0x10325476, 0xc6c10796, 0xefcdab89, 0x98badcfe);
    StepFF(x, INITIAL, 2, 0x98badcfe, 0x99a09999, 0xc6c10796, 0xefcdab89);
    StepFF(x, INITIAL, 3, 0xefcdab89, 0x11067980, 0x99a09999, 0xc6c10796);
    StepFF(x, INITIAL, 4, 0xc6c10796, 0x27bce07a, 0x11067980, 0x99a09999);
    StepFF(x, INITIAL, 5, 0x99a09999, 0xf22e6c4e, 0x27bce07a, 0x11067980);
    StepFF(x, INITIAL, 6, 0x11067980, 0xb4ac9218, 0xf22e6c4e, 0x27bce07a);
    StepFF(x, INITIAL, 7, 0x27bce07a, 0xa95a2fc0, 0xb4ac9218, 0xf22e6c4e);
  }

  lemma First2(x: seq<bv32>)
    requires FirstBlock(x) && Run(x, INITIAL, 8) == Regs(0xf22e6c4e, 0xa4799506, 0xa95a2fc0, 0xb4ac9218)
    ensures Run(x, INITIAL, 16) == Regs(0x3cbdcd45, 0x5d38e690, 0xfa148c8a, 0xb8dec763)
  {
    hide Run, K, S, T;
    Table1c();
    Table1d();
    StepFF(x, INITIAL, 8, 0xf22e6c4e, 0xa4799506, 0xa95a2fc0, 0xb4ac9218);
    StepFF(x, INITIAL, 9, 0xb4ac9218, 0x1eb3e7c1, 0xa4799506, 0xa95a2fc0);
    StepFF(x, INITIAL, 10, 0xa95a2fc0, 0xa6e70cfe, 0x1eb3e7c1, 0xa4799506);
    StepFF(x, INITIAL, 11, 0xa4799506, 0xca27520b, 0xa6e70cfe, 0x1eb3e7c1);
    StepFF(x, INITIAL, 12, 0x1eb3e7c1, 0x8a7612ec, 0xca27520b, 0xa6e70cfe);
    StepFF(x, INITIAL, 13, 0xa6e70cfe, 0x3cbdcd45, 0x8a7612ec, 0xca27520b);
    StepFF(x, INITIAL, 14, 0xca27520b, 0xb8dec763, 0x3cbdcd45, 0x8a7612ec);
    StepFF(x, INITIAL, 15, 0x8a7612ec, 0xfa148c8a, 0xb8dec763, 0x3cbdcd45);
  }

  lemma First3(x: seq<bv32>)
    requires FirstBlock(x) && Run(x, INITIAL, 16) == Regs(0x3cbdcd45, 0x5d38e690, 0xfa148c8a, 0xb8dec763)
    ensures Run(x, INITIAL, 24) == Regs(0x2d7d8a3f, 0x75292030, 0x4b534dc3, 0xd1210823)
  {
    hide Run, K, S, T;
    Table2a();
    Table2b();
    StepGG(x, INITIAL, 16, 0x3cbdcd45, 0x5d38e690, 0xfa148c8a, 0xb8dec763);
    StepGG(x, INITIAL, 17, 0xb8dec763, 0x04b9d52a, 0x5d38e690, 0xfa148c8a);
    StepGG(x, INITIAL, 18, 0xfa148c8a, 0x783002eb, 0x04b9d52a, 0x5d38e690);
    StepGG(x, INITIAL, 19, 0x5d38e690, 0xd3ee3ed1, 0x783002eb, 0x04b9d52a);
    StepGG(x, INITIAL, 20, 0x04b9d52a, 0x47ae7c81, 0xd3ee3ed1, 0x783002eb);
    StepGG(x, INITIAL, 21, 0x783002eb, 0x2d7d8a3f, 0x47ae7c81, 0xd3ee3ed1);
    StepGG(x, INITIAL, 22, 0xd3ee3ed1, 0xd1210823, 0x2d7d8a3f, 0x47ae7c81);
    StepGG(x, INITIAL, 23, 0x47ae7c81, 0x4b534dc3, 0xd1210823, 0x2d7d8a3f);
  }

  lemma First4(x: seq<bv32>)
    requires FirstBlock(x) && Run(x, INITIAL, 24) == Regs(0x2d7d8a3f, 0x75292030, 0x4b534dc3, 0xd1210823)
    ensures Run(x, INITIAL, 32) == Regs(0x9b085fa9, 0xdd789ecc, 0x5993248f, 0x4400a9bd)
  {
    hide Run, K, S, T;
    Table2c();
    Table2d();
    StepGG(x, INITIAL, 24, 0x2d7d8a3f, 0x75292030, 0x4b534dc3, 0xd1210823);
    StepGG(x, INITIAL, 25, 0xd1210823, 0x9d2a6e33, 0x75292030, 0x4b534dc3);
    StepGG(x, INITIAL, 26, 0x4b534dc3, 0x0e8d2e44, 0x9d2a6e33, 0x75292030);
    StepGG(x, INITIAL, 27, 0x75292030, 0xd473b564, 0x0e8d2e44, 0x9d2a6e33);
    StepGG(x, INITIAL, 28, 0x9d2a6e33, 0xf2ff6ea0, 0xd473b564, 0x0e8d2e44);
    StepGG(x, INITIAL, 29, 0x0e8d2e44, 0x9b085fa9, 0xf2ff6ea0, 0xd473b564);
    StepGG(x, INITIAL, 30, 0xd473b564, 0x4400a9bd, 0x9b085fa9, 0xf2ff6ea0);
    StepGG(x, INITIAL, 31, 0xf2ff6ea0, 0x5993248f, 0x4400a9bd, 0x9b085fa9);
  }

  lemma First5(x: seq<bv32>)
    requires FirstBlock(x) && Run(x, INITIAL, 32) == Regs(0x9b085fa9, 0xdd789ecc, 0x5993248f, 0x4400a9bd)
    ensures Run(x, INITIAL, 40) == Regs(0x436b7fe9, 0xcf0341ed, 0xf404c2f6, 0x075800c1)
  {
    hide Run, K, S, T;
    Table3a();
    Table3b();
    StepHH(x, INITIAL, 32, 0x9b085fa9, 0xdd789ecc, 0x5993248f, 0x4400a9bd);
    StepHH(x, INITIAL, 33, 0x4400a9bd, 0x21c8d2b7, 0xdd789ecc, 0x5993248f);
    StepHH(x, INITIAL, 34, 0x5993248f, 0x1d55a18e, 0x21c8d2b7, 0xdd789ecc);
    StepHH(x, INITIAL, 35, 0xdd789ecc, 0x056ec119, 0x1d55a18e, 0x21c8d2b7);
    StepHH(x, INITIAL, 36, 0x21c8d2b7, 0x1b9504f8, 0x056ec119, 0x1d55a18e);
    StepHH(x, INITIAL, 37, 0x1d55a18e, 0x436b7fe9, 0x1b9504f8, 0x056ec119);
    StepHH(x, INITIAL, 38, 0x056ec119, 0x075800c1, 0x436b7fe9, 0x1b9504f8);
    StepHH(x, INITIAL, 39, 0x1b9504f8, 0xf404c2f6, 0x075800c1, 0x436b7fe9);
  }

  lemma First6(x: seq<bv32>)
    requires FirstBlock(x) && Run(x, INITIAL, 40) == Regs(0x436b7fe9, 0xcf0341ed, 0xf404c2f6, 0x075800c1)
    ensures Run(x, INITIAL, 48) == Regs(0x2dbee21d, 0xf166f514, 0xee46e961, 0xe95c3a43)
  {
    hide Run, K, S, T;
    Table3c();
    Table3d();
    StepHH(x, INITIAL, 40, 0x436b7fe9, 0xcf0341ed, 0xf404c2f6, 0x075800c1);
    StepHH(x, INITIAL, 41, 0x075800c1, 0x888e7d8a, 0xcf0341ed, 0xf404c2f6);
    StepHH(x, INITIAL, 42, 0xf404c2f6, 0xbbdaecd8, 0x888e7d8a, 0xcf0341ed);
    StepHH(x, INITIAL, 43, 0xcf0341ed, 0xce620273, 0xbbdaecd8, 0x888e7d8a);
    StepHH(x, INITIAL, 44, 0x888e7d8a, 0x047b9419, 0xce620273, 0xbbdaecd8);
    StepHH(x, INITIAL, 45, 0xbbdaecd8, 0x2dbee21d, 0x047b9419, 0xce620273);
    StepHH(x, INITIAL, 46, 0xce620273, 0xe95c3a43, 0x2dbee21d, 0x047b9419);
    StepHH(x, INITIAL, 47, 0x047b9419, 0xee46e961, 0xe95c3a43, 0x2dbee21d);
  }

  lemma First7(x: seq<bv32>)
    requires FirstBlock(x) && Run(x, INITIAL, 48) == Regs(0x2dbee21d, 0xf166f514, 0xee46e961, 0xe95c3a43)
    ensures Run(x, INITIAL, 56) == Regs(0xa691d430, 0xefb0e72f, 0x3fc23df6, 0x528452f2)
  {
    hide Run, K, S, T;
    Table4a();
    Table4b();
    StepII(x, INITIAL, 48, 0x2dbee21d, 0xf166f514, 0xee46e961, 0xe95c3a43);
    StepII(x, INITIAL, 49, 0xe95c3a43, 0xe47fd4f3, 0xf166f514, 0xee46e961);
    StepII(x, INITIAL, 50, 0xee46e961, 0xfb887751, 0xe47fd4f3, 0xf166f514);
    StepII(x, INITIAL, 51, 0xf166f514, 0xf22aedcc, 0xfb887751, 0xe47fd4f3);
    StepII(x, INITIAL, 52, 0xe47fd4f3, 0x7a13bc5c, 0xf22aedcc, 0xfb887751);
    StepII(x, INITIAL, 53, 0xfb887751, 0xa691d430, 0x7a13bc5c, 0xf22aedcc);
    StepII(x, INITIAL, 54, 0xf22aedcc, 0x528452f2, 0xa691d430, 0x7a13bc5c);
    StepII(x, INITIAL, 55, 0x7a13bc5c, 0x3fc23df6, 0x528452f2, 0xa691d430);
  }

  lemma First8(x: seq<bv32>)
    requires FirstBlock(x) && Run(x, INITIAL, 56) == Regs(0xa691d430, 0xefb0e72f, 0x3fc23df6, 0x528452f2)
    ensures Run(x, INITIAL, 64) == Regs(0x1cb80f0a, 0xef2e3a46, 0x10f68731, 0xea3d3eb4)
  {
    hide Run, K, S, T;
    Table4c();
    Table4d();
    StepII(x, INITIAL, 56, 0xa691d430, 0xefb0e72f, 0x3fc23df6, 0x528452f2);
    StepII(x, INITIAL, 57, 0x528452f2, 0x27145703, 0xefb0e72f, 0x3fc23df6);
    StepII(x, INITIAL, 58, 0x3fc23df6, 0x21a11069, 0x27145703, 0xefb0e72f);
    StepII(x, INITIAL, 59, 0xefb0e72f, 0x374fbe79, 0x21a11069, 0x27145703);
    StepII(x, INITIAL, 60, 0x27145703, 0x49d9a5b4, 0x374fbe79, 0x21a11069);
    StepII(x, INITIAL, 61, 0x21a11069, 0x1cb80f0a, 0x49d9a5b4, 0x374fbe79);
    StepII(x, INITIAL, 62, 0x374fbe79, 0xea3d3eb4, 0x1cb80f0a, 0x49d9a5b4);
    StepII(x, INITIAL, 63, 0x49d9a5b4, 0x10f68731, 0xea3d3eb4, 0x1cb80f0a);
  }

  /** The registers after that. */
  const MIDDLE: Regs := Regs(0x83fd320b, 0xdefbe5cf, 0xa9b1642f, 0xfa6f932a)

  /** Two words of length, all the rest 0. */
  ghost predicate SecondBlock(x: seq<bv32>) {
    |x| == 16 && x[14] == 0x000001f0 && forall i :: 0 <= i < 16 && i != 14 ==> x[i] == 0
  }

  lemma Second1(x: seq<bv32>)
    requires SecondBlock(x) && Run(x, MIDDLE, 0) == Regs(0x83fd320b, 0xdefbe5cf, 0xa9b1642f, 0xfa6f932a)
    ensures Run(x, MIDDLE, 16) == Regs(0xa70737da, 0xa36f556f, 0x96f6586e, 0x5473f8a7)
  {
    hide Run, K, S, T;
    Table1a();
    Table1b();
    Table1c();
    Table1d();
    StepFF(x, MIDDLE, 0, 0x83fd320b, 0xdefbe5cf, 0xa9b1642f, 0xfa6f932a);
    StepFF(x, MIDDLE, 1, 0xfa6f932a, 0xeda23ed1, 0xdefbe5cf, 0xa9b1642f);
    StepFF(x, MIDDLE, 2, 0xa9b1642f, 0x989939cf, 0xeda23ed1, 0xdefbe5cf);
    StepFF(x, MIDDLE, 3, 0xdefbe5cf, 0x3c307338, 0x989939cf, 0xeda23ed1);
    StepFF(x, MIDDLE, 4, 0xeda23ed1, 0xddcf0634, 0x3c307338, 0x989939cf);
    StepFF(x, MIDDLE, 5, 0x989939cf, 0x75144433, 0xddcf0634, 0x3c307338);
    StepFF(x, MIDDLE, 6, 0x3c307338, 0xc8875807, 0x75144433, 0xddcf0634);
    StepFF(x, MIDDLE, 7, 0xddcf0634, 0xc783cb60, 0xc8875807, 0x75144433);
    StepFF(x, MIDDLE, 8, 0x75144433, 0x99b6b699, 0xc783cb60, 0xc8875807);
    StepFF(x, MIDDLE, 9, 0xc8875807, 0xa60a3f69, 0x99b6b699, 0xc783cb60);
    StepFF(x, MIDDLE, 10, 0xc783cb60, 0xaa6630be, 0xa60a3f69, 0x99b6b699);
    StepFF(x, MIDDLE, 11, 0x99b6b699, 0x64db26e9, 0xaa6630be, 0xa60a3f69);
    StepFF(x, MIDDLE, 12, 0xa60a3f69, 0x64cc7c5a, 0x64db26e9, 0xaa6630be);
    StepFF(x, MIDDLE, 13, 0xaa6630be, 0xa70737da, 0x64cc7c5a, 0x64db26e9);
    StepFF(x, MIDDLE, 14, 0x64db26e9, 0x5473f8a7, 0xa70737da, 0x64cc7c5a);
    StepFF(x, MIDDLE, 15, 0x64cc7c5a, 0x96f6586e, 0x5473f8a7, 0xa70737da);
  }

  lemma Second2(x: seq<bv32>)
    requires SecondBlock(x) && Run(x, MIDDLE, 16) == Regs(0xa70737da, 0xa36f556f, 0x96f6586e, 0x5473f8a7)
    ensures Run(x, MIDDLE, 32) == Regs(0x24eba695, 0x9c03e2e8, 0x10c42a2f, 0x4bd0378b)
  {
    hide Run, K, S, T;
    Table2a();
    Table2b();
    Table2c();
    Table2d();
    StepGG(x, MIDDLE, 16, 0xa70737da, 0xa36f556f, 0x96f6586e, 0x5473f8a7);
    StepGG(x, MIDDLE, 17, 0x5473f8a7, 0xa5050ad3, 0xa36f556f, 0x96f6586e);
    StepGG(x, MIDDLE, 18, 0x96f6586e, 0x28776046, 0xa5050ad3, 0xa36f556f);
    StepGG(x, MIDDLE, 19, 0xa36f556f, 0x27dcd8b4, 0x28776046, 0xa5050ad3);
    StepGG(x, MIDDLE, 20, 0xa5050ad3, 0x82b8827c, 0x27dcd8b4, 0x28776046);
    StepGG(x, MIDDLE, 21, 0x28776046, 0xe04f070c, 0x82b8827c, 0x27dcd8b4);
    StepGG(x, MIDDLE, 22, 0x27dcd8b4, 0x2f3cd2a2, 0xe04f070c, 0x82b8827c);
    StepGG(x, MIDDLE, 23, 0x82b8827c, 0xc0d22b61, 0x2f3cd2a2, 0xe04f070c);
    StepGG(x, MIDDLE, 24, 0xe04f070c, 0xdf35cb56, 0xc0d22b61, 0x2f3cd2a2);
    StepGG(x, MIDDLE, 25, 0x2f3cd2a2, 0x242dd210, 0xdf35cb56, 0xc0d22b61);
    StepGG(x, MIDDLE, 26, 0xc0d22b61, 0x576ace33, 0x242dd210, 0xdf35cb56);
    StepGG(x, MIDDLE, 27, 0xdf35cb56, 0x5c295967, 0x576ace33, 0x242dd210);
    StepGG(x, MIDDLE, 28, 0x242dd210, 0x2291191a, 0x5c295967, 0x576ace33);
    StepGG(x, MIDDLE, 29, 0x576ace33, 0x24eba695, 0x2291191a, 0x5c295967);
    StepGG(x, MIDDLE, 30, 0x5c295967, 0x4bd0378b, 0x24eba695, 0x2291191a);
    StepGG(x, MIDDLE, 31, 0x2291191a, 0x10c42a2f, 0x4bd0378b, 0x24eba695);
  }

  lemma Second3(x: seq<bv32>)
    requires SecondBlock(x) && Run(x, MIDDLE, 32) == Regs(0x24eba695, 0x9c03e2e8, 0x10c42a2f, 0x4bd0378b)
    ensures Run(x, MIDDLE, 48) == Regs(0x54c9eb3a, 0x79c0710a, 0x2ec86f72, 0xd4d9c6ac)
  {
    hide Run, K, S, T;
    Table3a();
    Table3b();
    Table3c();
    Table3d();
    StepHH(x, MIDDLE, 32, 0x24eba695, 0x9c03e2e8, 0x10c42a2f, 0x4bd0378b);
    StepHH(x, MIDDLE, 33, 0x4bd0378b, 0x5be1d526, 0x9c03e2e8, 0x10c42a2f);
    StepHH(x, MIDDLE, 34, 0x10c42a2f, 0x9e414279, 0x5be1d526, 0x9c03e2e8);
    StepHH(x, MIDDLE, 35, 0x9c03e2e8, 0x9f4a1a7e, 0x9e414279, 0x5be1d526);
    StepHH(x, MIDDLE, 36, 0x5be1d526, 0xa2448453, 0x9f4a1a7e, 0x9e414279);
    StepHH(x, MIDDLE, 37, 0x9e414279, 0xe14e403d, 0xa2448453, 0x9f4a1a7e);
    StepHH(x, MIDDLE, 38, 0x9f4a1a7e, 0xe8cfd670, 0xe14e403d, 0xa2448453);
    StepHH(x, MIDDLE, 39, 0xa2448453, 0x60cc183a, 0xe8cfd670, 0xe14e403d);
    StepHH(x, MIDDLE, 40, 0xe14e403d, 0xfe314121, 0x60cc183a, 0xe8cfd670);
    StepHH(x, MIDDLE, 41, 0xe8cfd670, 0xfff62809, 0xfe314121, 0x60cc183a);
    StepHH(x, MIDDLE, 42, 0x60cc183a, 0xe37209ac, 0xfff62809, 0xfe314121);
    StepHH(x, MIDDLE, 43, 0xfe314121, 0x8cb5221c, 0xe37209ac, 0xfff62809);
    StepHH(x, MIDDLE, 44, 0xfff62809, 0x7c7e974c, 0x8cb5221c, 0xe37209ac);
    StepHH(x, MIDDLE, 45, 0xe37209ac, 0x54c9eb3a, 0x7c7e974c, 0x8cb5221c);
    StepHH(x, MIDDLE, 46, 0x8cb5221c, 0xd4d9c6ac, 0x54c9eb3a, 0x7c7e974c);
    StepHH(x, MIDDLE, 47, 0x7c7e974c, 0x2ec86f72, 0xd4d9c6ac, 0x54c9eb3a);
  }

  lemma Second4(x: seq<bv32>)
    requires SecondBlock(x) && Run(x, MIDDLE, 48) == Regs(0x54c9eb3a, 0x79c0710a, 0x2ec86f72, 0xd4d9c6ac)
    ensures Run(x, MIDDLE, 64) == Regs(0x14ae42c6, 0x16dd9203, 0x826afd76, 0xa52dae75)
  {
    hide Run, K, S, T;
    Table4a();
    Table4b();
    Table4c();
    Table4d();
    StepII(x, MIDDLE, 48, 0x54c9eb3a, 0x79c0710a, 0x2ec86f72, 0xd4d9c6ac);
    StepII(x, MIDDLE, 49, 0xd4d9c6ac, 0x02095af1, 0x79c0710a, 0x2ec86f72);
    StepII(x, MIDDLE, 50, 0x2ec86f72, 0x13d245fd, 0x02095af1, 0x79c0710a);
    StepII(x, MIDDLE, 51, 0x79c0710a, 0xa8dcfe26, 0x13d245fd, 0x02095af1);
    StepII(x, MIDDLE, 52, 0x02095af1, 0x2ba98e3f, 0xa8dcfe26, 0x13d245fd);
    StepII(x, MIDDLE, 53, 0x13d245fd, 0xe126c1aa, 0x2ba98e3f, 0xa8dcfe26);
    StepII(x, MIDDLE, 54, 0xa8dcfe26, 0x96b00fa7, 0xe126c1aa, 0x2ba98e3f);
    StepII(x, MIDDLE, 55, 0x2ba98e3f, 0x6f287ff5, 0x96b00fa7, 0xe126c1aa);
    StepII(x, MIDDLE, 56, 0xe126c1aa, 0xfb7bcee0, 0x6f287ff5, 0x96b00fa7);
    StepII(x, MIDDLE, 57, 0x96b00fa7, 0x452c1099, 0xfb7bcee0, 0x6f287ff5);
    StepII(x, MIDDLE, 58, 0x6f287ff5, 0xca801ba6, 0x452c1099, 0xfb7bcee0);
    StepII(x, MIDDLE, 59, 0xfb7bcee0, 0xc197ea8e, 0xca801ba6, 0x452c1099);
    StepII(x, MIDDLE, 60, 0x452c1099, 0x5ac74608, 0xc197ea8e, 0xca801ba6);
    StepII(x, MIDDLE, 61, 0xca801ba6, 0x14ae42c6, 0x5ac74608, 0xc197ea8e);
    StepII(x, MIDDLE, 62, 0xc197ea8e, 0xa52dae75, 0x14ae42c6, 0x5ac74608);
    StepII(x, MIDDLE, 63, 0x5ac74608, 0x826afd76, 0xa52dae75, 0x14ae42c6);
  }

  // ----- the digests

  lemma OneBlock(r: Regs, p: seq<bv8>)
    requires |p| == 64
    ensures Blocks(r, p) == Compress(r, p)
  {
    hide Compress;
    assert p[..64] == p && p[64..] == [];
  }

  /** MD5 ("") = d41d8cd98f00b204e9800998ecf8427e */
  lemma OfNothing()
    ensures Digest([]) == [
      0xd4, 0x1d, 0x8c, 0xd9, 0x8f, 0x00, 0xb2, 0x04, 0xe9, 0x80, 0x09, 0x98, 0xec, 0xf8, 0x42, 0x7e
    ]
  {
    hide Padded, Blocks, Bytes;
    EmptyBlocks();
    EmptyBytes();
  }

  lemma EmptyBlocks()
    ensures Blocks(INITIAL, Padded([])) == Regs(0xd98c1dd4, 0x04b2008f, 0x980980e9, 0x7e42f8ec)
  {
    var p := Padded([]);
    EmptyPadded();
    hide Padded, Words, Run, Blocks;
    Empty1(Words(p));
    Empty2(Words(p));
    Empty3(Words(p));
    Empty4(Words(p));
    OneBlock(INITIAL, p);
  }

  lemma EmptyBytes()
    ensures Bytes(0xd98c1dd4) == [0xd4, 0x1d, 0x8c, 0xd9]
      && Bytes(0x04b2008f) == [0x8f, 0x00, 0xb2, 0x04]
      && Bytes(0x980980e9) == [0xe9, 0x80, 0x09, 0x98]
      && Bytes(0x7e42f8ec) == [0xec, 0xf8, 0x42, 0x7e]
  {
  }

  lemma EmptyPadded()
    ensures |Padded([])| == 64 && EmptyBlock(Words(Padded([])))
    ensures Run(Words(Padded([])), INITIAL, 0) == INITIAL
  {
    hide LengthBytes;
    LengthOut(0);
    EmptyWords(Padded([]));
  }

  lemma EmptyWords(p: seq<bv8>)
    requires |p| == 64 && p[0] == 0x80 && forall i :: 1 <= i < 64 ==> p[i] == 0
    ensures EmptyBlock(Words(p)) && Run(Words(p), INITIAL, 0) == INITIAL
  {
  }

  /** MD5 ("ABCDEFGHIJKLMNOPQRSTUVWXYZabcdefghijklmnopqrstuvwxyz0123456789") = d174ab98d277d9f5a5611c2c9f419d9f */
  lemma OfLettersAndDigits()
    ensures Digest(ALPHABET) == [
      0xd1, 0x74, 0xab, 0x98, 0xd2, 0x77, 0xd9, 0xf5, 0xa5, 0x61, 0x1c, 0x2c, 0x9f, 0x41, 0x9d, 0x9f
    ]
  {
    hide Padded, Blocks, Bytes;
    AlphabetBlocks();
    AlphabetBytes();
  }

  lemma AlphabetBytes()
    ensures Bytes(0x98ab74d1) == [0xd1, 0x74, 0xab, 0x98]
      && Bytes(0xf5d977d2) == [0xd2, 0x77, 0xd9, 0xf5]
      && Bytes(0x2c1c61a5) == [0xa5, 0x61, 0x1c, 0x2c]
      && Bytes(0x9f9d419f) == [0x9f, 0x41, 0x9d, 0x9f]
  {
  }

  lemma AlphabetBlocks()
    ensures Blocks(INITIAL, Padded(ALPHABET)) == Regs(0x98ab74d1, 0xf5d977d2, 0x2c1c61a5, 0x9f9d419f)
  {
    hide *;
    AlphabetCut(Padded(ALPHABET));
    InBlocks(Padded(ALPHABET));
    TwoBlocks(Padded(ALPHABET));
  }

  lemma TwoBlocks(p: seq<bv8>)
    requires |p| == 128 && FirstBlock(Words(p[..64])) && SecondBlock(Words(p[64..]))
    ensures Blocks(INITIAL, p) == Regs(0x98ab74d1, 0xf5d977d2, 0x2c1c61a5, 0x9f9d419f)
  {
    hide *;
    BlocksSnoc(INITIAL, p[..64], p[64..]);
    assert p == p[..64] + p[64..];
    OneBlock(INITIAL, p[..64]);
    AlphabetFirst(p[..64]);
    AlphabetSecond(p[64..]);
  }

  lemma AlphabetFirst(p: seq<bv8>)
    requires |p| == 64 && FirstBlock(Words(p))
    ensures Compress(INITIAL, p) == MIDDLE
  {
    var x := Words(p);
    RunNone(x, INITIAL);
    hide Words, Run;
    First1(x);
    First2(x);
    First3(x);
    First4(x);
    First5(x);
    First6(x);
    First7(x);
    First8(x);
  }

  lemma AlphabetSecond(p: seq<bv8>)
    requires |p| == 64 && SecondBlock(Words(p))
    ensures Compress(MIDDLE, p) == Regs(0x98ab74d1, 0xf5d977d2, 0x2c1c61a5, 0x9f9d419f)
  {
    var x := Words(p);
    RunNone(x, MIDDLE);
    hide Words, Run;
    Second1(x);
    Second2(x);
    Second3(x);
    Second4(x);
  }

  lemma InBlocks(p: seq<bv8>)
    requires |p| == 128 && p[..64] == A1 + A2 + A3 + (A4 + [0x80, 0])
    requires p[64..] == seq(56, _ => 0) + [0xf0, 0x01, 0, 0, 0, 0, 0, 0]
    ensures FirstBlock(Words(p[..64])) && SecondBlock(Words(p[64..]))
  {
    FourQuarters(p[..64]);
    LengthBlock(p[64..]);
  }

  lemma AlphabetCut(p: seq<bv8>)
    requires p == Padded(ALPHABET)
    ensures |p| == 128 && p[..64] == A1 + A2 + A3 + (A4 + [0x80, 0])
    ensures p[64..] == seq(56, _ => 0) + [0xf0, 0x01, 0, 0, 0, 0, 0, 0]
  {
    LengthOut(62);
    assert |A1| == |A2| == |A3| == 16 && |A4| == 14;
    SixtyTwo(A1 + A2 + A3, A4, LengthBytes(62));
  }

  lemma SixtyTwo(a: seq<bv8>, b: seq<bv8>, l: seq<bv8>)
    requires |a| == 48 && |b| == 14 && |l| == 8
    ensures Padding(62) == [0x80] + seq(57, _ => 0)
    ensures var p := a + b + Padding(62) + l; p[..64] == a + (b + [0x80, 0]) && p[64..] == seq(56, _ => 0) + l
  {
  }

  lemma WordsConcat(a: seq<bv8>, b: seq<bv8>)
    requires |a| % 4 == 0 && |b| % 4 == 0
    ensures Words(a + b) == Words(a) + Words(b)
  {
    hide Word;
  }

  lemma FourQuarters(p: seq<bv8>)
    requires p == A1 + A2 + A3 + (A4 + [0x80, 0])
    ensures |p| == 64 && FirstBlock(Words(p))
  {
    hide Words;
    assert |A1| == |A2| == |A3| == 16 && |A4| == 14;
    WordsConcat(A1 + A2 + A3, A4 + [0x80, 0]);
    WordsConcat(A1 + A2, A3);
    WordsConcat(A1, A2);
    Quarter1();
    Quarter2();
    Quarter3();
    Quarter4();
  }

  lemma InWords(q: seq<bv8>)
    requires |q| == 16
    ensures Words(q) == [
      Word(q[0], q[1], q[2], q[3]), Word(q[4], q[5], q[6], q[7]),
      Word(q[8], q[9], q[10], q[11]), Word(q[12], q[13], q[14], q[15])
    ]
  {
    hide Word;
  }

  lemma Quarter1()
    ensures Words(A1) == [0x44434241, 0x48474645, 0x4c4b4a49, 0x504f4e4d]
  {
    InWords(A1);
    hide Words;
  }

  lemma Quarter2()
    ensures Words(A2) == [0x54535251, 0x58575655, 0x62615a59, 0x66656463]
  {
    InWords(A2);
    hide Words;
  }

  lemma Quarter3()
    ensures Words(A3) == [0x6a696867, 0x6e6d6c6b, 0x7271706f, 0x76757473]
  {
    InWords(A3);
    hide Words;
  }

  lemma Quarter4()
    ensures Words(A4 + [0x80, 0]) == [0x7a797877, 0x33323130, 0x37363534, 0x00803938]
  {
    InWords(A4 + [0x80, 0]);
    hide Words;
  }

  lemma Zeros(n: nat)
    ensures var x := Words(seq(4 * n, _ => 0)); forall i :: 0 <= i < |x| ==> x[i] == 0
  {
  }

  lemma LengthOut(n: nat)
    requires n == 0 || n == 62
    ensures LengthBytes(n) == if n == 0 then [0, 0, 0, 0, 0, 0, 0, 0] else [0xf0, 0x01, 0, 0, 0, 0, 0, 0]
  {
    hide WordBytes;
    WordBytesOut(8 * n);
    WordBytesOut(0);
  }

  /** The low word of the length, by its four bytes. */
  lemma WordBytesOut(w: nat)
    requires w == 0 || w == 496
    ensures WordBytes(w) == if w == 0 then [0, 0, 0, 0] else [0xf0, 0x01, 0, 0]
  {
    assert w % 256 == (if w == 0 then 0 else 240) && w / 256 % 256 == (if w == 0 then 0 else 1);
    assert w / 65536 % 256 == 0 && w / 16777216 % 256 == 0;
    ByteOut(w % 256);
    ByteOut(w / 256 % 256);
    ByteOut(w / 65536 % 256);
  }

  lemma ByteOut(n: nat)
    requires n < 256
    ensures (n == 0 ==> n as bv8 == 0) && (n == 1 ==> n as bv8 == 1) && (n == 240 ==> n as bv8 == 0xf0)
  {
  }

  lemma LengthWords()
    ensures Words([0xf0, 0x01, 0, 0, 0, 0, 0, 0]) == [0x1f0, 0]
  {
  }

  lemma LengthBlock(p: seq<bv8>)
    requires p == seq(56, _ => 0) + [0xf0, 0x01, 0, 0, 0, 0, 0, 0]
    ensures SecondBlock(Words(p))
  {
    hide Words;
    var zeros: seq<bv8> := seq(56, _ => 0);
    Zeros(14);
    LengthWords();
    WordsConcat(zeros, [0xf0, 0x01, 0, 0, 0, 0, 0, 0]);
    assert forall i :: 0 <= i < 14 ==> Words(p)[i] == Words(zeros)[i];
  }
}
