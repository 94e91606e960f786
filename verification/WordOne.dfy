/**
 Known values: both shipped hashes of word 1, computed step by step. Unlike word 0 it is changed
 by every factor, every rotation and every shift.
 */
module WordOne {
  import opened BitSlices
  import opened Monoids
  import opened Murmur
  import opened Streams
  import opened WordZero

  lemma {:induction false} LargeSum(a: nat, b: nat, r: nat)
    requires a + b == 0x1_0000_0000_0000_0000 + r && r < 0x1_0000_0000_0000_0000
    ensures Plus(a, b, 64) == r
  {
    Widths();
    DivModUnique(1, r, 0x1_0000_0000_0000_0000);
  }

  lemma {:induction false} Powers()
    ensures Pow2(31) == 0x8000_0000 && Pow2(33) == 0x2_0000_0000
    ensures Pow2(13) == 0x2000 && Pow2(15) == 0x8000 && Pow2(16) == 0x1_0000
    ensures Pow2(17) == 0x2_0000 && Pow2(19) == 0x8_0000
  {
    Widths();
    SmallPowers();
  }

  // The 128-bit hash.

  lemma {:induction false} Low1ATop(p: nat, q: nat, r: nat)
    requires Xor(p, q) == r
    ensures Xor(0x1_0000 * p + 0x9420, 0x1_0000 * q + 0x1a70) == 0x1_0000 * r + 0x8e50
  {
    Append4(p, q, r, Digits(9, 1, 8), Digits(4, 10, 14), Digits(2, 7, 5), Digits(0, 0, 0));
  }

  lemma {:induction false} Low1ABottom(p: nat, q: nat, r: nat)
    requires Xor(p, q) == r
    ensures Xor(0x1_0000 * p + 0xfe3a, 0x1_0000 * q + 0x4e86) == 0x1_0000 * r + 0xb0bc
  {
    Append4(p, q, r, Digits(15, 4, 11), Digits(14, 14, 0), Digits(3, 8, 11), Digits(10, 6, 12));
  }

  lemma {:induction false} Low1A(a: nat)
    ensures Xor(0x1_0000_0000 * a + 0x9420fe3a, 0x1a704e86) == 0x1_0000_0000 * a + 0x8e50b0bc
  {
    XorZero(a);
    Low1ATop(a, 0, a);
    Low1ABottom(0x1_0000 * a + 0x9420, 0x1a70, 0x1_0000 * a + 0x8e50);
  }

  lemma {:induction false} Low1BTop(p: nat, q: nat, r: nat)
    requires Xor(p, q) == r
    ensures Xor(0x1_0000 * p + 0xd1b0, 0x1_0000 * q + 0x685e) == 0x1_0000 * r + 0xb9ee
  {
    Append4(p, q, r, Digits(13, 6, 11), Digits(1, 8, 9), Digits(11, 5, 14), Digits(0, 14, 14));
  }

  lemma {:induction false} Low1BBottom(p: nat, q: nat, r: nat)
    requires Xor(p, q) == r
    ensures Xor(0x1_0000 * p + 0x568c, 0x1_0000 * q + 0xc397) == 0x1_0000 * r + 0x951b
  {
    Append4(p, q, r, Digits(5, 12, 9), Digits(6, 3, 5), Digits(8, 9, 1), Digits(12, 7, 11));
  }

  lemma {:induction false} Low1B(a: nat)
    ensures Xor(0x1_0000_0000 * a + 0xd1b0568c, 0x685ec397) == 0x1_0000_0000 * a + 0xb9ee951b
  {
    XorZero(a);
    Low1BTop(a, 0, a);
    Low1BBottom(0x1_0000 * a + 0xd1b0, 0x685e, 0x1_0000 * a + 0xb9ee);
  }

  lemma {:induction false} Low1CTop(p: nat, q: nat, r: nat)
    requires Xor(p, q) == r
    ensures Xor(0x1_0000 * p + 0x6ed6, 0x1_0000 * q + 0x7636) == 0x1_0000 * r + 0x18e0
  {
    Append4(p, q, r, Digits(6, 7, 1), Digits(14, 6, 8), Digits(13, 3, 14), Digits(6, 6, 0));
  }

  lemma {:induction false} Low1CBottom(p: nat, q: nat, r: nat)
    requires Xor(p, q) == r
    ensures Xor(0x1_0000 * p + 0x3bc1, 0x1_0000 * q + 0x97b8) == 0x1_0000 * r + 0xac79
  {
    Append4(p, q, r, Digits(3, 9, 10), Digits(11, 7, 12), Digits(12, 11, 7), Digits(1, 8, 9));
  }

  lemma {:induction false} Low1C(a: nat)
    ensures Xor(0x1_0000_0000 * a + 0x6ed63bc1, 0x763697b8) == 0x1_0000_0000 * a + 0x18e0ac79
  {
    XorZero(a);
    Low1CTop(a, 0, a);
    Low1CBottom(0x1_0000 * a + 0x6ed6, 0x7636, 0x1_0000 * a + 0x18e0);
  }

  lemma {:induction false} FirstHalfOne(x: nat)
    requires x == 0x34e0_9d0c_9420_fe3a
    ensures Fmix64(x) == 0xec6d_2f70_18e0_ac79
  {
    TopBits(x, 0x1a70_4e86, 0x9420_fe3a);
    Low1A(0x34e0_9d0c);
    Product(0x34e0_9d0c_8e50_b0bc, 0xff51afd7ed558ccd, 0x34bc_9bd3_57c0_7f75, 0xd0bd_872e_d1b0_568c);
    var y := Times(Xorshift(x, 33), 0xff51afd7ed558ccd, 64);
    TopBits(y, 0x685e_c397, 0xd1b0_568c);
    Low1B(0xd0bd_872e);
    Product(0xd0bd_872e_b9ee_951b, 0xc4ceb9fe1a85ec53, 0xa079_abaa_b651_9fc2, 0xec6d_2f70_6ed6_3bc1);
    var z := Times(Xorshift(y, 33), 0xc4ceb9fe1a85ec53, 64);
    TopBits(z, 0x7636_97b8, 0x6ed6_3bc1);
    Low1C(0xec6d_2f70);
  }

  lemma {:induction false} Low2ATop(p: nat, q: nat, r: nat)
    requires Xor(p, q) == r
    ensures Xor(0x1_0000 * p + 0x72ce, 0x1_0000 * q + 0x1a70) == 0x1_0000 * r + 0x68be
  {
    Append4(p, q, r, Digits(7, 1, 6), Digits(2, 10, 8), Digits(12, 7, 11), Digits(14, 0, 14));
  }

  lemma {:induction false} Low2ABottom(p: nat, q: nat, r: nat)
    requires Xor(p, q) == r
    ensures Xor(0x1_0000 * p + 0xee43, 0x1_0000 * q + 0x4e86) == 0x1_0000 * r + 0xa0c5
  {
    Append4(p, q, r, Digits(14, 4, 10), Digits(14, 14, 0), Digits(4, 8, 12), Digits(3, 6, 5));
  }

  lemma {:induction false} Low2A(a: nat)
    ensures Xor(0x1_0000_0000 * a + 0x72ceee43, 0x1a704e86) == 0x1_0000_0000 * a + 0x68bea0c5
  {
    XorZero(a);
    Low2ATop(a, 0, a);
    Low2ABottom(0x1_0000 * a + 0x72ce, 0x1a70, 0x1_0000 * a + 0x68be);
  }

  lemma {:induction false} Low2BTop(p: nat, q: nat, r: nat)
    requires Xor(p, q) == r
    ensures Xor(0x1_0000 * p + 0xe2fb, 0x1_0000 * q + 0x0f41) == 0x1_0000 * r + 0xedba
  {
    Append4(p, q, r, Digits(14, 0, 14), Digits(2, 15, 13), Digits(15, 4, 11), Digits(11, 1, 10));
  }

  lemma {:induction false} Low2BBottom(p: nat, q: nat, r: nat)
    requires Xor(p, q) == r
    ensures Xor(0x1_0000 * p + 0x79c1, 0x1_0000 * q + 0x05cc) == 0x1_0000 * r + 0x7c0d
  {
    Append4(p, q, r, Digits(7, 0, 7), Digits(9, 5, 12), Digits(12, 12, 0), Digits(1, 12, 13));
  }

  lemma {:induction false} Low2B(a: nat)
    ensures Xor(0x1_0000_0000 * a + 0xe2fb79c1, 0x0f4105cc) == 0x1_0000_0000 * a + 0xedba7c0d
  {
    XorZero(a);
    Low2BTop(a, 0, a);
    Low2BBottom(0x1_0000 * a + 0xe2fb, 0x0f41, 0x1_0000 * a + 0xedba);
  }

  lemma {:induction false} Low2CTop(p: nat, q: nat, r: nat)
    requires Xor(p, q) == r
    ensures Xor(0x1_0000 * p + 0xc293, 0x1_0000 * q + 0x6c8d) == 0x1_0000 * r + 0xae1e
  {
    Append4(p, q, r, Digits(12, 6, 10), Digits(2, 12, 14), Digits(9, 8, 1), Digits(3, 13, 14));
  }

  lemma {:induction false} Low2CBottom(p: nat, q: nat, r: nat)
    requires Xor(p, q) == r
    ensures Xor(0x1_0000 * p + 0x3437, 0x1_0000 * q + 0xcb38) == 0x1_0000 * r + 0xff0f
  {
    Append4(p, q, r, Digits(3, 12, 15), Digits(4, 11, 15), Digits(3, 3, 0), Digits(7, 8, 15));
  }

  lemma {:induction false} Low2C(a: nat)
    ensures Xor(0x1_0000_0000 * a + 0xc2933437, 0x6c8dcb38) == 0x1_0000_0000 * a + 0xae1eff0f
  {
    XorZero(a);
    Low2CTop(a, 0, a);
    Low2CBottom(0x1_0000 * a + 0xc293, 0x6c8d, 0x1_0000 * a + 0xae1e);
  }

  lemma {:induction false} SecondHalfOne(x: nat)
    requires x == 0x34e0_9d0d_72ce_ee43
    ensures Fmix64(x) == 0xd91b_9671_ae1e_ff0f
  {
    TopBits(x, 0x1a70_4e86, 0x1_72ce_ee43);
    Low2A(0x34e0_9d0d);
    Product(0x34e0_9d0d_68be_a0c5, 0xff51afd7ed558ccd, 0x34bc_9bd4_3199_b461, 0x1e82_0b99_e2fb_79c1);
    var y := Times(Xorshift(x, 33), 0xff51afd7ed558ccd, 64);
    TopBits(y, 0xf41_05cc, 0x1_e2fb_79c1);
    Low2B(0x1e82_0b99);
    Product(0x1e82_0b99_edba_7c0d, 0xc4ceb9fe1a85ec53, 0x1774_33b1_7272_fd76, 0xd91b_9671_c293_3437);
    var z := Times(Xorshift(y, 33), 0xc4ceb9fe1a85ec53, 64);
    TopBits(z, 0x6c8d_cb38, 0x1_c293_3437);
    Low2C(0xd91b_9671);
  }

  lemma {:induction false} Rotated(x: nat)
    requires x == 0x87c3_7b91_1142_53d5
    ensures Rotl(x, 31, 64) == 0x88a1_29ea_c3e1_bdc8
  {
    Powers();
    RotlParts(0x43e1_bdc8, 0x1_1142_53d5, 31, 64);
  }

  lemma {:induction false} OneScrambled(x: nat)
    requires x == 1
    ensures Scramble64(x) == 0x34e0_9d0b_6bde_fe38
  {
    Product(x, 0x87c37b91114253d5, 0, 0x87c3_7b91_1142_53d5);
    Rotated(0x87c3_7b91_1142_53d5);
    Product(0x88a1_29ea_c3e1_bdc8, 0x4cf5ad432745937f, 0x2912_f727_904b_c9be, 0x34e0_9d0b_6bde_fe38);
  }

  lemma {:induction false} LowSeedTop(p: nat, q: nat, r: nat)
    requires Xor(p, q) == r
    ensures Xor(0x1_0000 * p + 0x6bde, 0x1_0000 * q + 0xdead) == 0x1_0000 * r + 0xb573
  {
    Append4(p, q, r, Digits(6, 13, 11), Digits(11, 14, 5), Digits(13, 10, 7), Digits(14, 13, 3));
  }

  lemma {:induction false} LowSeedBottom(p: nat, q: nat, r: nat)
    requires Xor(p, q) == r
    ensures Xor(0x1_0000 * p + 0xfe38, 0x1_0000 * q + 0xf00d) == 0x1_0000 * r + 0x0e35
  {
    Append4(p, q, r, Digits(15, 15, 0), Digits(14, 0, 14), Digits(3, 0, 3), Digits(8, 13, 5));
  }

  lemma {:induction false} LowSeed(a: nat)
    ensures Xor(0x1_0000_0000 * a + 0x6bdefe38, 0xdeadf00d) == 0x1_0000_0000 * a + 0xb5730e35
  {
    XorZero(a);
    LowSeedTop(a, 0, a);
    LowSeedBottom(0x1_0000 * a + 0x6bde, 0xdead, 0x1_0000 * a + 0xb573);
  }

  lemma {:induction false} SeedOne(x: nat, k: nat)
    requires x == SEED && k == 0x34e0_9d0b_6bde_fe38
    ensures Xor(x, k) == 0x34e0_9d0b_b573_0e35
  {
    XorComm(x, k);
    LowSeed(0x34e0_9d0b);
  }

  lemma {:induction false} OneLength(x: nat)
    requires x == 0x34e0_9d0b_b573_0e35
    ensures Xor(x, 4) == 0x34e0_9d0b_b573_0e31
  {
    XorZero(0x34e_09d0_bb57_30e3);
    XorDigit(0x34e_09d0_bb57_30e3, 0, 5, 4);
  }

  lemma {:induction false} OneHalves(x: nat)
    requires x == 1
    ensures Halves128(x) == (0xc588_c5e1_c6ff_ab88, 0x9ea4_5c53_751e_aa97)
  {
    var seed: nat, k: nat, h1: nat, h2: nat := SEED, 0x34e0_9d0b_6bde_fe38, 0x34e0_9d0b_b573_0e31, 0xdead_f009;
    var s1: nat, s2: nat := 0x34e0_9d0c_9420_fe3a, 0x34e0_9d0d_72ce_ee43;
    OneScrambled(x);
    Seeded(seed);
    SeedOne(seed, k);
    OneLength(0x34e0_9d0b_b573_0e35);
    SmallSum(h1, h2, s1);
    SmallSum(h2, s1, s2);
    FirstHalfOne(s1);
    SecondHalfOne(s2);
    LargeSum(0xec6d_2f70_18e0_ac79, 0xd91b_9671_ae1e_ff0f, 0xc588_c5e1_c6ff_ab88);
    LargeSum(0xd91b_9671_ae1e_ff0f, 0xc588_c5e1_c6ff_ab88, 0x9ea4_5c53_751e_aa97);
  }

  /** The 128-bit hash of word 1. */
  lemma {:induction false} OneHashed(x: nat)
    requires x == 1
    ensures Hash128(x) == 0x9ea4_5c53_751e_aa97_c588_c5e1_c6ff_ab88
  {
    OneHalves(x);
    Widths();
  }

  // The 32-bit hash with the software's seed.

  lemma {:induction false} Product32(x: nat, c: nat, q: nat, r: nat)
    requires x * c == q * 0x1_0000_0000 + r && r < 0x1_0000_0000
    ensures Times(x, c, 32) == r
  {
    Widths();
    DivModUnique(q, r, 0x1_0000_0000);
  }

  lemma {:induction false} ShiftedOut(x: nat, top: nat, low: nat, s: nat, d: nat)
    requires d == Pow2(s) && x == top * d + low && low < d
    ensures Shr(x, s) == top
  {
    DivModUnique(top, low, d);
  }

  lemma {:induction false} SeedXorBottom(p: nat, q: nat, r: nat)
    requires Xor(p, q) == r
    ensures Xor(0x1_0000 * p + 0x9a5d, 0x1_0000 * q + 0x002a) == 0x1_0000 * r + 0x9a77
  {
    Append4(p, q, r, Digits(9, 0, 9), Digits(10, 0, 10), Digits(5, 2, 7), Digits(13, 10, 7));
  }

  lemma {:induction false} SeedXor(a: nat)
    ensures Xor(0x1_0000_0000 * a + 0xc3539a5d, 0x0000002a) == 0x1_0000_0000 * a + 0xc3539a77
  {
    XorZero(0x1_0000 * a + 0xc353);
    SeedXorBottom(0x1_0000 * a + 0xc353, 0x0000, 0x1_0000 * a + 0xc353);
  }

  lemma {:induction false} FirstXorBottom(p: nat, q: nat, r: nat)
    requires Xor(p, q) == r
    ensures Xor(0x1_0000 * p + 0x4572, 0x1_0000 * q + 0x26df) == 0x1_0000 * r + 0x63ad
  {
    Append4(p, q, r, Digits(4, 2, 6), Digits(5, 6, 3), Digits(7, 13, 10), Digits(2, 15, 13));
  }

  lemma {:induction false} FirstXor(a: nat)
    ensures Xor(0x1_0000_0000 * a + 0x26df4572, 0x000026df) == 0x1_0000_0000 * a + 0x26df63ad
  {
    XorZero(0x1_0000 * a + 0x26df);
    FirstXorBottom(0x1_0000 * a + 0x26df, 0x0000, 0x1_0000 * a + 0x26df);
  }

  lemma {:induction false} SecondXorTop(p: nat, q: nat, r: nat)
    requires Xor(p, q) == r
    ensures Xor(0x1_0000 * p + 0xe4d4, 0x1_0000 * q + 0x0007) == 0x1_0000 * r + 0xe4d3
  {
    Append4(p, q, r, Digits(14, 0, 14), Digits(4, 0, 4), Digits(13, 0, 13), Digits(4, 7, 3));
  }

  lemma {:induction false} SecondXorBottom(p: nat, q: nat, r: nat)
    requires Xor(p, q) == r
    ensures Xor(0x1_0000 * p + 0x2b4f, 0x1_0000 * q + 0x26a1) == 0x1_0000 * r + 0x0dee
  {
    Append4(p, q, r, Digits(2, 2, 0), Digits(11, 6, 13), Digits(4, 10, 14), Digits(15, 1, 14));
  }

  lemma {:induction false} SecondXor(a: nat)
    ensures Xor(0x1_0000_0000 * a + 0xe4d42b4f, 0x000726a1) == 0x1_0000_0000 * a + 0xe4d30dee
  {
    XorZero(a);
    SecondXorTop(a, 0, a);
    SecondXorBottom(0x1_0000 * a + 0xe4d4, 0x0007, 0x1_0000 * a + 0xe4d3);
  }

  lemma {:induction false} ThirdXorBottom(p: nat, q: nat, r: nat)
    requires Xor(p, q) == r
    ensures Xor(0x1_0000 * p + 0xa646, 0x1_0000 * q + 0xdea5) == 0x1_0000 * r + 0x78e3
  {
    Append4(p, q, r, Digits(10, 13, 7), Digits(6, 14, 8), Digits(4, 10, 14), Digits(6, 5, 3));
  }

  lemma {:induction false} ThirdXor(a: nat)
    ensures Xor(0x1_0000_0000 * a + 0xdea5a646, 0x0000dea5) == 0x1_0000_0000 * a + 0xdea578e3
  {
    XorZero(0x1_0000 * a + 0xdea5);
    ThirdXorBottom(0x1_0000 * a + 0xdea5, 0x0000, 0x1_0000 * a + 0xdea5);
  }

  lemma {:induction false} OneScrambled32(x: nat)
    requires x == 1
    ensures Scramble32(x) == 0xc353_9a5d
  {
    Powers();
    Product32(x, 0xcc9e2d51, 0, 0xcc9e_2d51);
    RotlParts(0x664f, 0x2d51, 15, 32);
    Product32(0x16a8_e64f, 0x1b873593, 0x26f_c819, 0xc353_9a5d);
  }

  lemma {:induction false} RotatedMix(x: nat)
    requires x == 0xc353_9a77
    ensures Rotl(x, 13, 32) == 0x734e_f86a
  {
    Powers();
    RotlParts(0x186a, 0x3_9a77, 13, 32);
  }

  lemma {:induction false} SeedMixed(seed: nat, k: nat)
    requires seed == 42 && k == 0xc353_9a5d
    ensures Xor(seed, k) == 0xc353_9a77
  {
    SeedXor(0);
    XorComm(seed, k);
  }

  lemma {:induction false} MixEnd(x: nat)
    requires x == 0x408a_da12
    ensures Plus(x, 0xe6546b64, 32) == 0x26df_4576
  {
    Widths();
    DivModUnique(1, 0x26df_4576, 0x1_0000_0000);
  }

  lemma {:induction false} OneMixed(seed: nat, k: nat)
    requires seed == 42 && k == 0xc353_9a5d
    ensures Mix32(seed, k) == 0x26df_4576
  {
    SeedMixed(seed, k);
    RotatedMix(0xc353_9a77);
    Product32(0x734e_f86a, 5, 2, 0x408a_da12);
    MixEnd(0x408a_da12);
  }

  lemma {:induction false} FirstShift(x: nat)
    requires x == 0x26df_4572
    ensures Xorshift(x, 16) == 0x26df_63ad
  {
    Powers();
    ShiftedOut(x, 0x26df, 0x4572, 16, 0x1_0000);
    FirstXor(0);
  }

  lemma {:induction false} SecondShift(x: nat)
    requires x == 0xe4d4_2b4f
    ensures Xorshift(x, 13) == 0xe4d3_0dee
  {
    Powers();
    ShiftedOut(x, 0x7_26a1, 0xb4f, 13, 0x2000);
    SecondXor(0);
  }

  lemma {:induction false} ThirdShift(x: nat)
    requires x == 0xdea5_a646
    ensures Xorshift(x, 16) == 0xdea5_78e3
  {
    Powers();
    ShiftedOut(x, 0xdea5, 0xa646, 16, 0x1_0000);
    ThirdXor(0);
  }

  lemma {:induction false} OneFinished(x: nat)
    requires x == 0x26df_4572
    ensures Fmix32(x) == 0xdea5_78e3
  {
    FirstShift(x);
    Product32(0x26df_63ad, 0x85ebca6b, 0x1455_dc95, 0xe4d4_2b4f);
    SecondShift(0xe4d4_2b4f);
    Product32(0xe4d3_0dee, 0xc2b2ae35, 0xae07_a704, 0xdea5_a646);
    ThirdShift(0xdea5_a646);
  }

  lemma {:induction false} LengthAdded(x: nat)
    requires x == 0x26df_4576
    ensures Xor(x, 4) == 0x26df_4572
  {
    XorZero(0x26d_f457);
    XorDigit(0x26d_f457, 0, 6, 4);
  }

  /** The 32-bit hash of word 1 with the seed 42. */
  lemma {:induction false} OneHashed32(seed: nat, x: nat)
    requires seed == 42 && x == 1
    ensures Hash32(seed, x) == 0xdea5_78e3
  {
    OneScrambled32(x);
    OneMixed(seed, 0xc353_9a5d);
    LengthAdded(0x26df_4576);
    OneFinished(0x26df_4572);
  }
}
