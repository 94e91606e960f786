/**
 The shipped hash of word 0, computed step by step: the input on which results that differ
 between two hashes or two hash widths are shown to differ.
 */
module WordZero {
  import opened Monoids
  import opened BitSlices
  import opened HllEstimation
  import opened Murmur
  import opened Sketches
  import opened Streams

  // Exclusive or of numbers given digit by digit.

  function Bit(a: nat, b: nat): nat {
    if a % 2 != b % 2 then 1 else 0
  }

  /** The lowest four bits. */
  function Xor4(a: nat, b: nat): nat {
    Bit(a, b) + 2 * Bit(a / 2, b / 2) + 4 * Bit(a / 4, b / 4) + 8 * Bit(a / 8, b / 8)
  }

  lemma {:induction false} XorBit(a: nat, b: nat)
    ensures Xor(a, b) == 2 * Xor(a / 2, b / 2) + Bit(a, b)
  {
    XorStep(a, b);
  }

  lemma {:induction false} Quarters(a: nat)
    ensures (a / 2) / 2 == a / 4 && (a / 4) / 2 == a / 8 && (a / 8) / 2 == a / 16
  {
    DivDiv(a, 2, 2);
    DivDiv(a, 4, 2);
    DivDiv(a, 8, 2);
  }

  lemma {:induction false} XorFour(a: nat, b: nat)
    ensures Xor(a, b) == 16 * Xor(a / 16, b / 16) + Xor4(a, b)
  {
    Quarters(a);
    Quarters(b);
    XorBit(a, b);
    XorBit(a / 2, b / 2);
    XorBit(a / 4, b / 4);
    XorBit(a / 8, b / 8);
  }

  lemma {:induction false} LowBits(a: nat, x: nat)
    requires x < 16
    ensures var u := 16 * a + x;
            && u / 16 == a && u % 2 == x % 2 && (u / 2) % 2 == (x / 2) % 2
            && (u / 4) % 2 == (x / 4) % 2 && (u / 8) % 2 == (x / 8) % 2
  {
    DivPlus(x, a, 16);
    ModPlus(x, 8 * a, 2);
    DivPlus(x, 8 * a, 2);
    ModPlus(x / 2, 4 * a, 2);
    DivPlus(x, 4 * a, 4);
    ModPlus(x / 4, 2 * a, 2);
    DivPlus(x, 2 * a, 8);
    ModPlus(x / 8, a, 2);
  }

  lemma {:induction false} XorDigit(a: nat, b: nat, x: nat, y: nat)
    requires x < 16 && y < 16
    ensures Xor(16 * a + x, 16 * b + y) == 16 * Xor(a, b) + Xor4(x, y)
  {
    XorFour(16 * a + x, 16 * b + y);
    assert Xor4(16 * a + x, 16 * b + y) == Xor4(x, y) && (16 * a + x) / 16 == a && (16 * b + y) / 16 == b by {
      LowBits(a, x);
      LowBits(b, y);
    }
  }

  /** Two hexadecimal digits with their exclusive or. */
  datatype Digits = Digits(x: nat, y: nat, z: nat)

  predicate Right(d: Digits) {
    d.x < 16 && d.y < 16 && d.z == Xor4(d.x, d.y)
  }

  function Behind(a: nat, d: nat): nat {
    16 * a + d
  }

  /** One more digit of both operands and of the result. */
  lemma {:induction false} Append(a: nat, b: nat, c: nat, d: Digits)
    requires Xor(a, b) == c && Right(d)
    ensures Xor(Behind(a, d.x), Behind(b, d.y)) == Behind(c, d.z)
  {
    XorDigit(a, b, d.x, d.y);
  }

  function Value(d3: nat, d2: nat, d1: nat, d0: nat): nat {
    0x1000 * d3 + 0x100 * d2 + 0x10 * d1 + d0
  }

  lemma {:induction false} BehindFour(a: nat, d3: nat, d2: nat, d1: nat, d0: nat)
    ensures Behind(Behind(Behind(Behind(a, d3), d2), d1), d0) == 0x1_0000 * a + Value(d3, d2, d1, d0)
  {
  }

  lemma {:induction false} Append4(a: nat, b: nat, c: nat, d3: Digits, d2: Digits, d1: Digits, d0: Digits)
    requires Xor(a, b) == c && Right(d3) && Right(d2) && Right(d1) && Right(d0)
    ensures Xor(0x1_0000 * a + Value(d3.x, d2.x, d1.x, d0.x), 0x1_0000 * b + Value(d3.y, d2.y, d1.y, d0.y))
         == 0x1_0000 * c + Value(d3.z, d2.z, d1.z, d0.z)
  {
    var a3, b3, c3 := Behind(a, d3.x), Behind(b, d3.y), Behind(c, d3.z);
    var a2, b2, c2 := Behind(a3, d2.x), Behind(b3, d2.y), Behind(c3, d2.z);
    var a1, b1, c1 := Behind(a2, d1.x), Behind(b2, d1.y), Behind(c2, d1.z);
    assert Xor(Behind(a1, d0.x), Behind(b1, d0.y)) == Behind(c1, d0.z) by {
      Append(a, b, c, d3);
      Append(a3, b3, c3, d2);
      Append(a2, b2, c2, d1);
      Append(a1, b1, c1, d0);
    }
    BehindFour(a, d3.x, d2.x, d1.x, d0.x);
    BehindFour(b, d3.y, d2.y, d1.y, d0.y);
    BehindFour(c, d3.z, d2.z, d1.z, d0.z);
  }

  lemma {:induction false} Low1(a: nat)
    ensures Xor(0x1_0000_0000 * a + 0xf116466a, 0x23753001) == 0x1_0000_0000 * a + 0xd263766b
  {
    XorZero(a);
    Append4(a, 0, a, Digits(15, 2, 13), Digits(1, 3, 2), Digits(1, 7, 6), Digits(6, 5, 3));
    Append4(0x1_0000 * a + 0xf116, 0x2375, 0x1_0000 * a + 0xd263,
            Digits(4, 3, 7), Digits(6, 0, 6), Digits(6, 0, 6), Digits(10, 1, 11));
  }

  lemma {:induction false} Low2(a: nat)
    ensures Xor(0x1_0000_0000 * a + 0x4b0108b1, 0x0758f9dd) == 0x1_0000_0000 * a + 0x4c59f16c
  {
    XorZero(a);
    Append4(a, 0, a, Digits(4, 0, 4), Digits(11, 7, 12), Digits(0, 5, 5), Digits(1, 8, 9));
    Append4(0x1_0000 * a + 0x4b01, 0x0758, 0x1_0000 * a + 0x4c59,
            Digits(0, 15, 15), Digits(8, 9, 1), Digits(11, 13, 6), Digits(1, 13, 12));
  }

  lemma {:induction false} Low3(a: nat)
    ensures Xor(0x1_0000_0000 * a + 0x7c4bdcd2, 0x7586f016) == 0x1_0000_0000 * a + 0x09cd2cc4
  {
    XorZero(a);
    Append4(a, 0, a, Digits(7, 7, 0), Digits(12, 5, 9), Digits(4, 8, 12), Digits(11, 6, 13));
    Append4(0x1_0000 * a + 0x7c4b, 0x7586, 0x1_0000 * a + 0x09cd,
            Digits(13, 15, 2), Digits(12, 0, 12), Digits(13, 1, 12), Digits(2, 6, 4));
  }

  lemma {:induction false} Low4(a: nat)
    ensures Xor(0x1_0000_0000 * a + 0x7c9e338c, 0x025621f6) == 0x1_0000_0000 * a + 0x7ec8127a
  {
    XorZero(a);
    Append4(a, 0, a, Digits(7, 0, 7), Digits(12, 2, 14), Digits(9, 5, 12), Digits(14, 6, 8));
    Append4(0x1_0000 * a + 0x7c9e, 0x0256, 0x1_0000 * a + 0x7ec8,
            Digits(3, 2, 1), Digits(3, 1, 2), Digits(8, 15, 7), Digits(12, 6, 10));
  }

  // The hash.

  lemma {:induction false} TopBits(x: nat, top: nat, low: nat)
    requires x == top * 0x2_0000_0000 + low && low < 0x2_0000_0000
    ensures Shr(x, 33) == top
  {
    Widths();
    Pow2Halves(33);
    DivModUnique(top, low, 0x2_0000_0000);
  }

  lemma {:induction false} Product(x: nat, c: nat, q: nat, r: nat)
    requires x * c == q * 0x1_0000_0000_0000_0000 + r && r < 0x1_0000_0000_0000_0000
    ensures Times(x, c, 64) == r
  {
    Widths();
    DivModUnique(q, r, 0x1_0000_0000_0000_0000);
  }

  lemma {:induction false} FirstHalf(x: nat)
    requires x == 0x1_bd5b_e012
    ensures Fmix64(x) == 0x0eb1_f3bb_4c59_f16c
  {
    TopBits(x, 0, x);
    XorZero(x);
    Product(x, 0xff51afd7ed558ccd, 0x1_bc2c_a02d, 0x46ea_6002_f116_466a);
    var y := Times(x, 0xff51afd7ed558ccd, 64);
    TopBits(y, 0x2375_3001, 0xf116_466a);
    Low1(0x46ea_6002);
    Product(0x46ea_6002_d263_766b, 0xc4ceb9fe1a85ec53, 0x3684_b5a1_2e9f_a685, 0x0eb1_f3bb_4b01_08b1);
    var z := Times(Xorshift(y, 33), 0xc4ceb9fe1a85ec53, 64);
    TopBits(z, 0x0758_f9dd, 0x1_4b01_08b1);
    Low2(0x0eb1_f3bb);
  }

  lemma {:induction false} SecondHalf(x: nat)
    requires x == 0x2_9c09_d01b
    ensures Fmix64(x) == 0x04ac_43ec_7ec8_127a
  {
    TopBits(x, 1, 0x9c09_d01b);
    XorZero(0x29c0_9d01);
    XorDigit(0x29c0_9d01, 0, 11, 1);
    Product(0x2_9c09_d01a, 0xff51afd7ed558ccd, 0x2_9a42_f042, 0xeb0d_e02c_7c4b_dcd2);
    var y := Times(Xorshift(x, 33), 0xff51afd7ed558ccd, 64);
    TopBits(y, 0x7586_f016, 0x7c4b_dcd2);
    Low3(0xeb0d_e02c);
    Product(0xeb0d_e02c_09cd_2cc4, 0xc4ceb9fe1a85ec53, 0xb4b4_6f92_720f_981e, 0x04ac_43ec_7c9e_338c);
    var z := Times(Xorshift(y, 33), 0xc4ceb9fe1a85ec53, 64);
    TopBits(z, 0x0256_21f6, 0x7c9e_338c);
    Low4(0x04ac_43ec);
  }

  lemma {:induction false} NothingScrambled(x: nat)
    requires x == 0
    ensures Scramble64(x) == 0
  {
    Product(x, 0x87c37b91114253d5, 0, 0);
    RotlParts(0, 0, 31, 64);
    Product(x, 0x4cf5ad432745937f, 0, 0);
  }

  lemma {:induction false} Seeded(x: nat)
    requires x == SEED
    ensures Xor(x, 4) == 0xdeadf009
  {
    XorZero(0xdeadf00);
    XorDigit(0xdeadf00, 0, 13, 4);
  }

  lemma {:induction false} SmallSum(a: nat, b: nat, r: nat)
    requires a + b == r < 0x1_0000_0000_0000_0000
    ensures Plus(a, b, 64) == r
  {
    Widths();
    MaskFits(r, 64);
  }

  lemma {:induction false} ZeroHalves(x: nat)
    requires x == 0
    ensures Halves128(x) == (0x135e_37a7_cb22_03e6, 0x180a_7b94_49ea_1660)
  {
    var seed: nat, h: nat, s1: nat, s2: nat := SEED, 0xdeadf009, 0x1_bd5b_e012, 0x2_9c09_d01b;
    NothingScrambled(x);
    XorZero(seed);
    Seeded(seed);
    SmallSum(h, h, s1);
    SmallSum(h, s1, s2);
    FirstHalf(s1);
    SecondHalf(s2);
    SmallSum(0x0eb1_f3bb_4c59_f16c, 0x04ac_43ec_7ec8_127a, 0x135e_37a7_cb22_03e6);
    SmallSum(0x04ac_43ec_7ec8_127a, 0x135e_37a7_cb22_03e6, 0x180a_7b94_49ea_1660);
  }

  /** The 128-bit hash of word 0. */
  lemma {:induction false} ZeroHashed(x: nat)
    requires x == 0
    ensures Hash128(x) == 0x180a_7b94_49ea_1660_135e_37a7_cb22_03e6
  {
    ZeroHalves(x);
    Widths();
  }

  lemma {:induction false} SmallPowers()
    ensures Pow2(3) == 8 && Pow2(4) == 16 && Pow2(13) == 0x2000 && Pow2(16) == 0x1_0000
  {
  }

  lemma {:induction false} Summed(n: nat, m: nat, k: nat)
    requires k == n + m
    ensures Pow2(k) == Pow2(n) * Pow2(m)
  {
    Pow2Add(n, m);
  }

  lemma {:induction false} LargePowers()
    ensures Pow2(68) == 0x10_0000_0000_0000_0000
    ensures Pow2(112) == 0x1_0000_0000_0000_0000_0000_0000_0000
  {
    Widths();
    SmallPowers();
    Summed(4, 64, 68);
    Summed(16, 32, 48);
    Summed(48, 64, 112);
  }

  /** The top 16 bits of the full hash of word 0. */
  lemma {:induction false} ZeroTop(h: nat)
    requires h == 0x180a_7b94_49ea_1660_135e_37a7_cb22_03e6
    ensures Shr(h, 112) == 0x180a && Slice(h, 112, 16) == 0x180a
  {
    SmallPowers();
    LargePowers();
    DivModUnique(0x180a, 0x7b94_49ea_1660_135e_37a7_cb22_03e6, Pow2(112));
    DivModUnique(0, 0x180a, Pow2(16));
  }

  /** And its top 13 bits. */
  lemma {:induction false} ZeroThirteen(h: nat)
    requires Shr(h, 112) == 0x180a
    ensures Slice(h, 115, 13) == 0x301
  {
    SmallPowers();
    ShiftShift(h, 112, 3);
    DivModUnique(0x301, 2, Pow2(3));
    DivModUnique(0, 0x301, Pow2(13));
  }

  /** The top 16 bits of the hash of word 0 cut to 84 bits. */
  lemma {:induction false} ZeroCut(h: nat)
    requires h == 0x180a_7b94_49ea_1660_135e_37a7_cb22_03e6
    ensures Slice(h, 68, 16) == 0xa166
  {
    SmallPowers();
    LargePowers();
    DivModUnique(0x180_a7b9_449e_a166, 0x0_135e_37a7_cb22_03e6, Pow2(68));
    DivModUnique(0x180_a7b9_449e, 0xa166, Pow2(16));
  }

  lemma {:induction false} ZeroBuckets(h: nat)
    requires h == 0x180a_7b94_49ea_1660_135e_37a7_cb22_03e6
    ensures Slice(h, 112, 16) == 0x180a && Slice(h, 68, 16) == 0xa166 && Slice(h, 115, 13) == 0x301
  {
    ZeroTop(h);
    ZeroThirteen(h);
    ZeroCut(h);
  }
}
