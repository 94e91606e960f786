/**
 The Murmur3 hashes of a 4-byte key, in software and in hardware. Every mixing step can be
 undone: the 32-bit hash is a bijection for every seed, and the full 128-bit hash never
 maps two keys to one value.

 Machine words are natural numbers below a power of two; a rotation adds its two halves,
 which share no bit.
 */
module Murmur {
  import opened Monoids
  import opened Lanes
  import opened BitSlices
  import opened HllEstimation
  import opened Streams

  // Exclusive or.

  function Xor(a: nat, b: nat): nat
    decreases a + b
  {
    if a == 0 && b == 0 then 0
    else 2 * Xor(a / 2, b / 2) + if a % 2 != b % 2 then 1 else 0
  }

  lemma {:induction false} XorStep(a: nat, b: nat)
    ensures Xor(a, b) / 2 == Xor(a / 2, b / 2)
    ensures Xor(a, b) % 2 == if a % 2 != b % 2 then 1 else 0
  {
    if a == 0 && b == 0 {
    } else {
      var x := Xor(a / 2, b / 2);
      assert Xor(a, b) == 2 * x + if a % 2 != b % 2 then 1 else 0;
    }
  }

  lemma {:induction false} XorZero(a: nat)
    ensures Xor(a, 0) == a
    decreases a
  {
    if a > 0 {
      XorZero(a / 2);
      XorStep(a, 0);
    }
  }

  lemma {:induction false} XorAssoc(a: nat, b: nat, c: nat)
    ensures Xor(Xor(a, b), c) == Xor(a, Xor(b, c))
    decreases a + b + c
  {
    XorStep(a, b);
    XorStep(b, c);
    XorStep(Xor(a, b), c);
    XorStep(a, Xor(b, c));
    if a + b + c > 0 {
      XorAssoc(a / 2, b / 2, c / 2);
    }
  }

  lemma {:induction false} XorSelf(a: nat)
    ensures Xor(a, a) == 0
    decreases a
  {
    if a > 0 {
      XorSelf(a / 2);
      XorStep(a, a);
    }
  }

  lemma {:induction false} XorTwice(a: nat, b: nat)
    ensures Xor(Xor(a, b), b) == a
  {
    XorAssoc(a, b, b);
    XorSelf(b);
    XorZero(a);
  }

  lemma {:induction false} XorFits(a: nat, b: nat, w: nat)
    requires a < Pow2(w) && b < Pow2(w)
    ensures Xor(a, b) < Pow2(w)
    decreases w
  {
    XorStep(a, b);
    if w > 0 {
      XorFits(a / 2, b / 2, w - 1);
    }
  }

  lemma {:induction false} XorShr(a: nat, b: nat, n: nat)
    ensures Shr(Xor(a, b), n) == Xor(Shr(a, n), Shr(b, n))
    decreases n
  {
    if n > 0 {
      XorStep(a, b);
      XorShr(a / 2, b / 2, n - 1);
      Halved(a, n);
      Halved(b, n);
      Halved(Xor(a, b), n);
    } else {
      assert a / 1 == a && b / 1 == b && Xor(a, b) / 1 == Xor(a, b);
    }
  }

  lemma {:induction false} Halved(a: nat, n: nat)
    requires n > 0
    ensures Shr(a, n) == Shr(a / 2, n - 1)
  {
    ShiftShift(a, 1, n - 1);
    assert Pow2(1) == 2;
  }

  // `x ^= x >> s`

  function Xorshift(x: nat, s: nat): nat {
    Xor(x, Shr(x, s))
  }

  lemma {:induction false} ShrFits(x: nat, s: nat, w: nat)
    requires x < Pow2(w)
    ensures Shr(x, s) < Pow2(w)
  {
    DivNat(x, Pow2(s));
    MulMonotone(1, Pow2(s), x / Pow2(s));
  }

  lemma {:induction false} XorshiftFits(x: nat, s: nat, w: nat)
    requires x < Pow2(w)
    ensures Xorshift(x, s) < Pow2(w)
  {
    ShrFits(x, s, w);
    XorFits(x, Shr(x, s), w);
  }

  lemma {:induction false} ShiftedOut(x: nat, n: nat, w: nat)
    requires x < Pow2(w) && w <= n
    ensures Shr(x, n) == 0
  {
    Pow2Monotone(w, n);
    ShrAll(x, n);
  }

  /** A shift by at least half the width undoes itself. */
  lemma {:induction false} XorshiftTwice(x: nat, s: nat, w: nat)
    requires x < Pow2(w) && w <= 2 * s
    ensures Xorshift(Xorshift(x, s), s) == x
  {
    var a := Shr(x, s);
    XorShr(x, a, s);
    ShrShr(x, s, s);
    ShiftedOut(x, s + s, w);
    XorZero(a);
    XorTwice(x, a);
  }

  /** A shift by at least a third of the width, undone with two shifts. */
  function Unxorshift(y: nat, s: nat): nat {
    Xor(Xor(y, Shr(y, s)), Shr(y, s + s))
  }

  lemma {:induction false} XorshiftUndone(x: nat, s: nat, w: nat)
    requires x < Pow2(w) && w <= 3 * s
    ensures Unxorshift(Xorshift(x, s), s) == x
    ensures Xorshift(Unxorshift(x, s), s) == x
  {
    var a, b := Shr(x, s), Shr(x, s + s);
    ShrShr(x, s, s);
    ShrShr(x, s + s, s);
    ShiftedOut(x, s + s + s, w);
    XorThird(x, a, b, s);
    XorZero(b);
    XorZero(Xor(a, b));
    ShrShr(Xor(x, a), s, s);
    assert Shr(Xor(x, a), s + s) == b by {
      XorShr(a, b, s);
    }
    XorCancel(x, a, b);
    XorAssoc(x, a, b);
    XorTwice(x, Xor(a, b));
  }

  /** How the shifts of a word combine. */
  lemma {:induction false} XorThird(x: nat, a: nat, b: nat, s: nat)
    requires Shr(x, s) == a && Shr(a, s) == b && Shr(b, s) == 0
    ensures Shr(Xor(x, a), s) == Xor(a, b)
    ensures Shr(Xor(a, b), s) == Xor(b, 0)
    ensures Shr(Xor(Xor(x, a), b), s) == Xor(Xor(a, b), 0)
  {
    XorShr(x, a, s);
    XorShr(a, b, s);
    XorShr(Xor(x, a), b, s);
  }

  lemma {:induction false} XorCancel(x: nat, a: nat, b: nat)
    ensures Xor(Xor(Xor(x, a), Xor(a, b)), b) == x
  {
    XorAssoc(Xor(x, a), a, b);
    XorTwice(x, a);
    XorTwice(x, b);
  }

  // Rotations.

  function Rotl(x: nat, r: nat, w: nat): nat
    requires r <= w
  {
    (x * Pow2(r)) % Pow2(w) + Shr(x, w - r)
  }

  /** A rotation swaps the upper `r` bits with the rest. */
  lemma {:induction false} RotlParts(h: nat, l: nat, r: nat, w: nat)
    requires r <= w && h < Pow2(r) && l < Pow2(w - r)
    ensures Rotl(h * Pow2(w - r) + l, r, w) == l * Pow2(r) + h
    ensures h * Pow2(w - r) + l < Pow2(w)
  {
    var A, B, x := Pow2(r), Pow2(w - r), h * Pow2(w - r) + l;
    Pow2Add(r, w - r);
    Swap(h, l, A, B);
    assert x / B == h by {
      DivModUnique(h, l, B);
    }
    assert (x * A) % (A * B) == l * A by {
      DivModUnique(h, l * A, A * B);
    }
  }

  lemma {:induction false} Swap(h: nat, l: nat, A: nat, B: nat)
    requires h < A && l < B
    ensures (h * B + l) * A == h * (A * B) + l * A
    ensures l * A < A * B && h * B + l < A * B
  {
    assert (h * B + l) * A == (h * B) * A + l * A;
    MulMonotone(l + 1, B, A);
    MulMonotone(h + 1, A, B);
    assert (l + 1) * A == l * A + A && (h + 1) * B == h * B + B;
  }

  lemma {:induction false} RotlBack(x: nat, r: nat, w: nat)
    requires r <= w && x < Pow2(w)
    ensures Rotl(x, r, w) < Pow2(w) && Rotl(Rotl(x, r, w), w - r, w) == x
  {
    var h, l := Shr(x, w - r), x % Pow2(w - r);
    DivNat(x, Pow2(w - r));
    Pow2Add(r, w - r);
    QuotientBound(x, Pow2(r), Pow2(w - r));
    RotlParts(h, l, r, w);
    RotlParts(l, h, w - r, w);
  }

  // Multiplication by an odd constant.

  function Times(x: nat, c: nat, w: nat): nat {
    (x * c) % Pow2(w)
  }

  /** With `c * d == 1 + k * 2^w` a factor `d` undoes a factor `c`. */
  lemma {:induction false} TimesBack(x: nat, c: nat, d: nat, k: nat, w: nat)
    requires x < Pow2(w) && c * d == 1 + k * Pow2(w)
    ensures Times(Times(x, c, w), d, w) == x
  {
    UndoFactor(x, c, d, k, Pow2(w));
  }

  lemma {:induction false} UndoFactor(x: nat, c: nat, d: nat, k: nat, q: nat)
    requires x < q && c * d == 1 + k * q
    ensures (((x * c) % q) * d) % q == x
  {
    var t, r := (x * c) / q, (x * c) % q;
    DivNat(x * c, q);
    assert r * d == x * (c * d) - (t * q) * d by {
      MulAssoc(x, c, d);
      assert (x * c) * d == (t * q + r) * d == (t * q) * d + r * d;
    }
    assert x * (c * d) == x + (x * k) * q by {
      MulAssoc(x, k, q);
    }
    assert (t * q) * d == (t * d) * q;
    assert r * d == x + (x * k - t * d) * q;
    Reduce(x, x * k - t * d, r * d, q);
  }

  lemma {:induction false} Reduce(x: nat, k: int, v: nat, q: nat)
    requires x < q && v == x + k * q
    ensures v % q == x
  {
    assert v == (v / q) * q + v % q;
    assert (v / q - k) * q == (v / q) * q - k * q == x - v % q;
    SmallMultiple(v / q - k, q);
  }

  // Addition.

  function Plus(x: nat, y: nat, w: nat): nat {
    (x + y) % Pow2(w)
  }

  function Minus(x: nat, y: nat, w: nat): nat
    requires y <= Pow2(w)
  {
    (x + (Pow2(w) - y)) % Pow2(w)
  }

  lemma {:induction false} PlusBack(x: nat, y: nat, w: nat)
    requires x < Pow2(w) && y < Pow2(w)
    ensures Minus(Plus(x, y, w), y, w) == x && Plus(Minus(x, y, w), y, w) == x
  {
    var q := Pow2(w);
    WrapAdd(x, y, q);
    WrapAdd(x, q - y, q);
    WrapAdd(Plus(x, y, w), q - y, q);
    WrapAdd(Minus(x, y, w), y, q);
  }

  lemma {:induction false} WrapAdd(x: nat, y: nat, q: nat)
    requires x < q && y <= q
    ensures (x + y) % q == if x + y < q then x + y else x + y - q
  {
    if x + y < q {
      Reduce(x + y, 0, x + y, q);
    } else {
      Reduce(x + y - q, 1, x + y, q);
    }
  }

  // The 32-bit hash.

  lemma {:induction false} Widths()
    ensures Pow2(32) == 0x1_0000_0000 && Pow2(64) == 0x1_0000_0000_0000_0000
  {
    assert Pow2(4) == 16;
    Doubled(4, 8);
    Doubled(8, 16);
    Doubled(16, 32);
    Doubled(32, 64);
  }

  lemma {:induction false} Doubled(n: nat, m: nat)
    requires m == n + n
    ensures Pow2(m) == Pow2(n) * Pow2(n)
  {
    Pow2Add(n, n);
  }

  function Scramble32(key: nat): nat {
    Times(Rotl(Times(key, 0xcc9e2d51, 32), 15, 32), 0x1b873593, 32)
  }

  function Unscramble32(k: nat): nat {
    Times(Rotl(Times(k, 0x56ed309b, 32), 17, 32), 0xdee13bb1, 32)
  }

  function Mix32(h: nat, k: nat): nat {
    Plus(Times(Rotl(Xor(h, k), 13, 32), 5, 32), 0xe6546b64, 32)
  }

  function Unmix32(h: nat, m: nat): nat {
    Widths();
    Xor(Rotl(Times(Minus(m, 0xe6546b64, 32), 0xcccccccd, 32), 19, 32), h)
  }

  function Fmix32(h: nat): nat {
    Xorshift(Times(Xorshift(Times(Xorshift(h, 16), 0x85ebca6b, 32), 13), 0xc2b2ae35, 32), 16)
  }

  function Unfmix32(h: nat): nat {
    Xorshift(Times(Unxorshift(Times(Xorshift(h, 16), 0x7ed1b41d, 32), 13), 0xa5cb9243, 32), 16)
  }

  /** `hash<MURMUR3_32>` with the seed as a parameter. */
  function Hash32(seed: nat, key: nat): nat {
    Fmix32(Xor(Mix32(seed, Scramble32(key)), 4))
  }

  function Unhash32(seed: nat, h: nat): nat {
    Unscramble32(Unmix32(seed, Xor(Unfmix32(h), 4)))
  }

  lemma {:induction false} Factors32(x: nat)
    requires x < Pow2(32)
    ensures Times(Times(x, 0xcc9e2d51, 32), 0xdee13bb1, 32) == x == Times(Times(x, 0xdee13bb1, 32), 0xcc9e2d51, 32)
    ensures Times(Times(x, 0x1b873593, 32), 0x56ed309b, 32) == x == Times(Times(x, 0x56ed309b, 32), 0x1b873593, 32)
    ensures Times(Times(x, 0x85ebca6b, 32), 0xa5cb9243, 32) == x == Times(Times(x, 0xa5cb9243, 32), 0x85ebca6b, 32)
    ensures Times(Times(x, 0xc2b2ae35, 32), 0x7ed1b41d, 32) == x == Times(Times(x, 0x7ed1b41d, 32), 0xc2b2ae35, 32)
    ensures Times(Times(x, 5, 32), 0xcccccccd, 32) == x == Times(Times(x, 0xcccccccd, 32), 5, 32)
  {
    Widths();
    TimesBack(x, 0xcc9e2d51, 0xdee13bb1, 0xb2253208, 32);
    TimesBack(x, 0xdee13bb1, 0xcc9e2d51, 0xb2253208, 32);
    TimesBack(x, 0x1b873593, 0x56ed309b, 0x958ed66, 32);
    TimesBack(x, 0x56ed309b, 0x1b873593, 0x958ed66, 32);
    TimesBack(x, 0x85ebca6b, 0xa5cb9243, 0x56bb77f4, 32);
    TimesBack(x, 0xa5cb9243, 0x85ebca6b, 0x56bb77f4, 32);
    TimesBack(x, 0xc2b2ae35, 0x7ed1b41d, 0x60736e9a, 32);
    TimesBack(x, 0x7ed1b41d, 0xc2b2ae35, 0x60736e9a, 32);
    TimesBack(x, 0x5, 0xcccccccd, 0x4, 32);
    TimesBack(x, 0xcccccccd, 0x5, 0x4, 32);
  }

  lemma {:induction false} Scrambled32(x: nat)
    requires x < Pow2(32)
    ensures Scramble32(x) < Pow2(32) && Unscramble32(Scramble32(x)) == x
  {
    var a := Times(x, 0xcc9e2d51, 32);
    var r := Rotl(a, 15, 32);
    RotlBack(a, 15, 32);
    assert Times(Times(r, 0x1b873593, 32), 0x56ed309b, 32) == r by {
      Factors32(r);
    }
    assert Times(a, 0xdee13bb1, 32) == x by {
      Factors32(x);
    }
  }

  lemma {:induction false} Unscrambled32(x: nat)
    requires x < Pow2(32)
    ensures Unscramble32(x) < Pow2(32) && Scramble32(Unscramble32(x)) == x
  {
    var b := Times(x, 0x56ed309b, 32);
    var r := Rotl(b, 17, 32);
    RotlBack(b, 17, 32);
    assert Times(Times(r, 0xdee13bb1, 32), 0xcc9e2d51, 32) == r by {
      Factors32(r);
    }
    assert Times(b, 0x1b873593, 32) == x by {
      Factors32(x);
    }
  }

  lemma {:induction false} Scramble32Bijective(x: nat)
    requires x < Pow2(32)
    ensures Scramble32(x) < Pow2(32) && Unscramble32(Scramble32(x)) == x
    ensures Unscramble32(x) < Pow2(32) && Scramble32(Unscramble32(x)) == x
  {
    Scrambled32(x);
    Unscrambled32(x);
  }

  lemma {:induction false} Mix32Bijective(h: nat, x: nat)
    requires h < Pow2(32) && x < Pow2(32)
    ensures Mix32(h, x) < Pow2(32) && Unmix32(h, Mix32(h, x)) == x
    ensures Unmix32(h, x) < Pow2(32) && Mix32(h, Unmix32(h, x)) == x
  {
    Widths();
    Mixed(h, x);
    Unmixed(h, x);
  }

  lemma {:induction false} Mixed(h: nat, x: nat)
    requires h < Pow2(32) && x < Pow2(32)
    ensures Unmix32(h, Mix32(h, x)) == x
  {
    Widths();
    XorFits(h, x, 32);
    XorComm(h, x);
    XorTwice(x, h);
    RotlBack(Xor(h, x), 13, 32);
    Factors32(Rotl(Xor(h, x), 13, 32));
    PlusBack(Times(Rotl(Xor(h, x), 13, 32), 5, 32), 0xe6546b64, 32);
  }

  lemma {:induction false} Unmixed(h: nat, x: nat)
    requires h < Pow2(32) && x < Pow2(32)
    ensures Unmix32(h, x) < Pow2(32) && Mix32(h, Unmix32(h, x)) == x
  {
    Widths();
    PlusBack(x, 0xe6546b64, 32);
    var m := Minus(x, 0xe6546b64, 32);
    UnmixedRotation(h, m);
  }

  lemma {:induction false} UnmixedRotation(h: nat, m: nat)
    requires h < Pow2(32) && m < Pow2(32)
    ensures var u := Xor(Rotl(Times(m, 0xcccccccd, 32), 19, 32), h);
            u < Pow2(32) && Times(Rotl(Xor(h, u), 13, 32), 5, 32) == m
  {
    var t := Times(m, 0xcccccccd, 32);
    var r := Rotl(t, 19, 32);
    Factors32(m);
    RotlBack(t, 19, 32);
    XorFits(r, h, 32);
    XorComm(h, Xor(r, h));
    XorTwice(r, h);
  }

  lemma {:induction false} XorComm(a: nat, b: nat)
    ensures Xor(a, b) == Xor(b, a)
    decreases a + b
  {
    XorStep(a, b);
    XorStep(b, a);
    if a + b > 0 {
      XorComm(a / 2, b / 2);
    }
  }

  lemma {:induction false} Fmix32Bijective(x: nat)
    requires x < Pow2(32)
    ensures Fmix32(x) < Pow2(32) && Unfmix32(Fmix32(x)) == x
    ensures Unfmix32(x) < Pow2(32) && Fmix32(Unfmix32(x)) == x
  {
    Fmixed32(x);
    Unfmixed32(x);
  }

  lemma {:induction false} Fmixed32(x: nat)
    requires x < Pow2(32)
    ensures Fmix32(x) < Pow2(32) && Unfmix32(Fmix32(x)) == x
  {
    var a := Xorshift(x, 16);
    XorshiftFits(x, 16, 32);
    XorshiftTwice(x, 16, 32);
    Factors32(a);
    var b := Times(a, 0x85ebca6b, 32);
    XorshiftFits(b, 13, 32);
    XorshiftUndone(b, 13, 32);
    Factors32(Xorshift(b, 13));
    var c := Times(Xorshift(b, 13), 0xc2b2ae35, 32);
    XorshiftFits(c, 16, 32);
    XorshiftTwice(c, 16, 32);
  }

  lemma {:induction false} Unfmixed32(x: nat)
    requires x < Pow2(32)
    ensures Unfmix32(x) < Pow2(32) && Fmix32(Unfmix32(x)) == x
  {
    var a := Xorshift(x, 16);
    XorshiftFits(x, 16, 32);
    XorshiftTwice(x, 16, 32);
    Factors32(a);
    var b := Times(a, 0x7ed1b41d, 32);
    UnxorshiftFits(b, 13, 32);
    XorshiftUndone(b, 13, 32);
    Factors32(Unxorshift(b, 13));
    var c := Times(Unxorshift(b, 13), 0xa5cb9243, 32);
    XorshiftFits(c, 16, 32);
    XorshiftTwice(c, 16, 32);
  }

  lemma {:induction false} UnxorshiftFits(x: nat, s: nat, w: nat)
    requires x < Pow2(w)
    ensures Unxorshift(x, s) < Pow2(w)
  {
    ShrFits(x, s, w);
    ShrFits(x, s + s, w);
    XorFits(x, Shr(x, s), w);
    XorFits(Xor(x, Shr(x, s)), Shr(x, s + s), w);
  }

  /** The 32-bit hash is a bijection on 32-bit words, whatever the seed. */
  lemma {:induction false} Hash32Bijective(seed: Word, x: Word)
    ensures Hash32(seed, x) < TWO_32 && Unhash32(seed, Hash32(seed, x)) == x
    ensures Unhash32(seed, x) < TWO_32 && Hash32(seed, Unhash32(seed, x)) == x
  {
    Widths();
    var k := Scramble32(x);
    Scramble32Bijective(x);
    Mix32Bijective(seed, k);
    var m := Mix32(seed, k);
    XorFits(m, 4, 32);
    XorTwice(m, 4);
    Fmix32Bijective(Xor(m, 4));

    Fmix32Bijective(x);
    var u := Unfmix32(x);
    XorFits(u, 4, 32);
    XorTwice(u, 4);
    Mix32Bijective(seed, Xor(u, 4));
    Scramble32Bijective(Unmix32(seed, Xor(u, 4)));
  }

  // The 128-bit hash.

  function Scramble64(key: nat): nat {
    Times(Rotl(Times(key, 0x87c37b91114253d5, 64), 31, 64), 0x4cf5ad432745937f, 64)
  }

  function Unscramble64(k: nat): nat {
    Times(Rotl(Times(k, 0xa81e14edd9de2c7f, 64), 33, 64), 0xa98409e882ce4d7d, 64)
  }

  function Fmix64(k: nat): nat {
    Xorshift(Times(Xorshift(Times(Xorshift(k, 33), 0xff51afd7ed558ccd, 64), 33), 0xc4ceb9fe1a85ec53, 64), 33)
  }

  function Unfmix64(k: nat): nat {
    Xorshift(Times(Xorshift(Times(Xorshift(k, 33), 0x9cb4b2f8129337db, 64), 33), 0x4f74430c22a54005, 64), 33)
  }

  lemma {:induction false} Factors64(x: nat)
    requires x < Pow2(64)
    ensures Times(Times(x, 0x87c37b91114253d5, 64), 0xa98409e882ce4d7d, 64) == x
    ensures Times(Times(x, 0x4cf5ad432745937f, 64), 0xa81e14edd9de2c7f, 64) == x
    ensures Times(Times(x, 0xff51afd7ed558ccd, 64), 0x4f74430c22a54005, 64) == x
            == Times(Times(x, 0x4f74430c22a54005, 64), 0xff51afd7ed558ccd, 64)
    ensures Times(Times(x, 0xc4ceb9fe1a85ec53, 64), 0x9cb4b2f8129337db, 64) == x
            == Times(Times(x, 0x9cb4b2f8129337db, 64), 0xc4ceb9fe1a85ec53, 64)
  {
    Widths();
    TimesBack(x, 0x87c37b91114253d5, 0xa98409e882ce4d7d, 0x59e6129fa91071c3, 64);
    TimesBack(x, 0x4cf5ad432745937f, 0xa81e14edd9de2c7f, 0x328a44c9121df37a, 64);
    TimesBack(x, 0xff51afd7ed558ccd, 0x4f74430c22a54005, 0x4f3e2925cb7c5b4e, 64);
    TimesBack(x, 0x4f74430c22a54005, 0xff51afd7ed558ccd, 0x4f3e2925cb7c5b4e, 64);
    TimesBack(x, 0xc4ceb9fe1a85ec53, 0x9cb4b2f8129337db, 0x7878e44812b2d581, 64);
    TimesBack(x, 0x9cb4b2f8129337db, 0xc4ceb9fe1a85ec53, 0x7878e44812b2d581, 64);
  }

  lemma {:induction false} Fmixed64(x: nat)
    requires x < Pow2(64)
    ensures Fmix64(x) < Pow2(64) && Unfmix64(Fmix64(x)) == x
  {
    var a := Xorshift(x, 33);
    XorshiftFits(x, 33, 64);
    XorshiftTwice(x, 33, 64);
    Factors64(a);
    var b := Times(a, 0xff51afd7ed558ccd, 64);
    XorshiftFits(b, 33, 64);
    XorshiftTwice(b, 33, 64);
    Factors64(Xorshift(b, 33));
    var c := Times(Xorshift(b, 33), 0xc4ceb9fe1a85ec53, 64);
    XorshiftFits(c, 33, 64);
    XorshiftTwice(c, 33, 64);
  }

  lemma {:induction false} Unfmixed64(x: nat)
    requires x < Pow2(64)
    ensures Unfmix64(x) < Pow2(64) && Fmix64(Unfmix64(x)) == x
  {
    var a := Xorshift(x, 33);
    XorshiftFits(x, 33, 64);
    XorshiftTwice(x, 33, 64);
    Factors64(a);
    var b := Times(a, 0x9cb4b2f8129337db, 64);
    XorshiftFits(b, 33, 64);
    XorshiftTwice(b, 33, 64);
    Factors64(Xorshift(b, 33));
    var c := Times(Xorshift(b, 33), 0x4f74430c22a54005, 64);
    XorshiftFits(c, 33, 64);
    XorshiftTwice(c, 33, 64);
  }

  /** `fmix64` is a bijection on 64-bit words. */
  lemma {:induction false} Fmix64Bijective(x: nat)
    requires x < Pow2(64)
    ensures Fmix64(x) < Pow2(64) && Unfmix64(Fmix64(x)) == x
    ensures Unfmix64(x) < Pow2(64) && Fmix64(Unfmix64(x)) == x
  {
    Fmixed64(x);
    Unfmixed64(x);
  }

  const SEED := 0xDEADF00D

  /** Both halves of the 128-bit hash. */
  function Halves128(key: nat): (nat, nat) {
    var k1 := Scramble64(key);
    var h1 := Xor(Xor(SEED, k1), 4);
    var h2 := Xor(SEED, 4);
    var s1 := Plus(h1, h2, 64);
    var s2 := Plus(h2, s1, 64);
    var f1 := Fmix64(s1);
    var f2 := Fmix64(s2);
    var o1 := Plus(f1, f2, 64);
    (o1, Plus(f2, o1, 64))
  }

  function Unhash128(o: (nat, nat)): nat
    requires o.0 <= Pow2(64) && o.1 <= Pow2(64)
  {
    var f2 := Minus(o.1, o.0, 64);
    var f1 := Minus(o.0, f2, 64);
    Seeds();
    Unscramble64(Xor(SEED, Xor(Minus(Unfmix64(f1), Xor(SEED, 4), 64), 4)))
  }

  lemma {:induction false} Seeds()
    ensures Xor(SEED, 4) < Pow2(64) && SEED < Pow2(64) && 4 < Pow2(64)
  {
    Widths();
    XorFits(SEED, 4, 64);
  }

  lemma {:induction false} Scramble64Back(x: nat)
    requires x < Pow2(64)
    ensures Scramble64(x) < Pow2(64) && Unscramble64(Scramble64(x)) == x
  {
    var a := Times(x, 0x87c37b91114253d5, 64);
    var r := Rotl(a, 31, 64);
    RotlBack(a, 31, 64);
    assert Times(Times(r, 0x4cf5ad432745937f, 64), 0xa81e14edd9de2c7f, 64) == r by {
      Factors64(r);
    }
    assert Times(a, 0xa98409e882ce4d7d, 64) == x by {
      Factors64(x);
    }
  }

  /** The key can be read off the two halves. */
  lemma {:induction false} Hash128Back(key: nat)
    requires key < Pow2(64)
    ensures Halves128(key).0 < Pow2(64) && Halves128(key).1 < Pow2(64)
    ensures Unhash128(Halves128(key)) == key
  {
    Seeds();
    Scramble64Back(key);
    var k1, h2 := Scramble64(key), Xor(SEED, 4);
    XorFits(SEED, k1, 64);
    XorFits(Xor(SEED, k1), 4, 64);
    XorTwice(Xor(SEED, k1), 4);
    XorAssoc(SEED, SEED, k1);
    XorSelf(SEED);
    XorComm(0, k1);
    XorZero(k1);
    var h1 := Xor(Xor(SEED, k1), 4);
    PlusBack(h1, h2, 64);
    var s1 := Plus(h1, h2, 64);
    var s2 := Plus(h2, s1, 64);
    Fmix64Bijective(s1);
    Fmix64Bijective(s2);
    PlusBack(Fmix64(s1), Fmix64(s2), 64);
    PlusBack(Fmix64(s2), Plus(Fmix64(s1), Fmix64(s2), 64), 64);
  }

  /** Two 64-bit words as one. */
  function Joined(hi: nat, lo: nat): nat {
    var q := Pow2(64);
    assert hi * q >= 0;
    hi * q + lo
  }

  lemma {:induction false} JoinedParts(hi: nat, lo: nat)
    requires hi < Pow2(64) && lo < Pow2(64)
    ensures Joined(hi, lo) / Pow2(64) == hi && Joined(hi, lo) % Pow2(64) == lo && Joined(hi, lo) < Pow2(128)
  {
    var q := Pow2(64);
    DivModUnique(hi, lo, q);
    Pow2Add(64, 64);
    Swap(hi, lo, q, q);
  }

  /** `hash<MURMUR3_128>`: the second half on top of the first. */
  function Hash128(key: nat): nat {
    Joined(Halves128(key).1, Halves128(key).0)
  }

  /** Different keys have different 128-bit hashes. */
  lemma {:induction false} Hash128Injective(a: Word, b: Word)
    ensures Hash128(a) < Pow2(128)
    ensures Hash128(a) == Hash128(b) ==> a == b
  {
    Widths();
    Hash128Back(a);
    Hash128Back(b);
    JoinedParts(Halves128(a).1, Halves128(a).0);
    JoinedParts(Halves128(b).1, Halves128(b).0);
  }

  // The hardware's form.

  /** `Murmur3_128<seed, W>`: both halves mixed side by side, the lower `W` bits of the two returned. */
  function Straight128(seed: nat, W: nat, data: nat): nat {
    var k1 := Times(Rotl(Times(data, 0x87c37b91114253d5, 64), 31, 64), 0x4cf5ad432745937f, 64);
    var a1 := Plus(Xor(Xor(seed, k1), 4), Xor(seed, 4), 64);
    var a2 := Plus(Xor(seed, 4), a1, 64);
    var b1, b2 := Xor(a1, Shr(a1, 33)), Xor(a2, Shr(a2, 33));
    var c1, c2 := Times(b1, 0xff51afd7ed558ccd, 64), Times(b2, 0xff51afd7ed558ccd, 64);
    var d1, d2 := Xor(c1, Shr(c1, 33)), Xor(c2, Shr(c2, 33));
    var e1, e2 := Times(d1, 0xc4ceb9fe1a85ec53, 64), Times(d2, 0xc4ceb9fe1a85ec53, 64);
    var f1, f2 := Xor(e1, Shr(e1, 33)), Xor(e2, Shr(e2, 33));
    var h1 := Plus(f1, f2, 64);
    Joined(Plus(f2, h1, 64), h1) % Pow2(W)
  }

  method Murmur3_128(seed: nat, W: nat, data: Word) returns (r: nat)
    requires W <= 128
    ensures r == Straight128(seed, W, data) < Pow2(W)
    ensures seed == SEED ==> r == Hash128(data) % Pow2(W)
  {
    var c1, c2, c3, c4, len := 0x87c37b91114253d5, 0x4cf5ad432745937f, 0xff51afd7ed558ccd, 0xc4ceb9fe1a85ec53, 4;
    var k1: nat := data;
    var h1, h2 := seed, seed;
    k1 := Times(k1, c1, 64);
    k1 := Rotl(k1, 31, 64);
    k1 := Times(k1, c2, 64);
    h1 := Xor(h1, k1);

    h1 := Xor(h1, len);
    h2 := Xor(h2, len);

    h1 := Plus(h1, h2, 64);
    h2 := Plus(h2, h1, 64);

    h1 := Xor(h1, Shr(h1, 33));
    h1 := Times(h1, c3, 64);
    h1 := Xor(h1, Shr(h1, 33));
    h1 := Times(h1, c4, 64);
    h1 := Xor(h1, Shr(h1, 33));

    h2 := Xor(h2, Shr(h2, 33));
    h2 := Times(h2, c3, 64);
    h2 := Xor(h2, Shr(h2, 33));
    h2 := Times(h2, c4, 64);
    h2 := Xor(h2, Shr(h2, 33));

    h1 := Plus(h1, h2, 64);
    h2 := Plus(h2, h1, 64);

    r := Joined(h2, h1) % Pow2(W);
    Straight128Agrees(W, data);
  }

  /** For the software's seed the hardware computes the software's hash, cut to `W` bits. */
  lemma {:induction false} Straight128Agrees(W: nat, data: Word)
    ensures Straight128(SEED, W, data) == Hash128(data) % Pow2(W)
  {
    var k1 := Scramble64(data);
    var h1 := Xor(Xor(SEED, k1), 4);
    var s1 := Plus(h1, Xor(SEED, 4), 64);
    var s2 := Plus(Xor(SEED, 4), s1, 64);
    Fmix64Steps(s1);
    Fmix64Steps(s2);
  }

  /** `fmix64` step by step. */
  lemma {:induction false} Fmix64Steps(a: nat)
    ensures var b := Xor(a, Shr(a, 33));
            var c := Times(b, 0xff51afd7ed558ccd, 64);
            var d := Xor(c, Shr(c, 33));
            var e := Times(d, 0xc4ceb9fe1a85ec53, 64);
            Fmix64(a) == Xor(e, Shr(e, 33))
  {
  }

  /** `Murmur3_32<seed, W>` */
  method Murmur3_32(seed: Word, W: nat, data: Word) returns (r: nat)
    requires W <= 32
    ensures r == Hash32(seed, data) % Pow2(W)
  {
    var c1, c2, len := 0xcc9e2d51, 0x1b873593, 4;
    var h1: nat, k1: nat := seed, data;
    k1 := Times(k1, c1, 32);
    k1 := Rotl(k1, 15, 32);
    k1 := Times(k1, c2, 32);

    h1 := Xor(h1, k1);
    h1 := Rotl(h1, 13, 32);
    h1 := Plus(Times(h1, 5, 32), 0xe6546b64, 32);

    h1 := Xor(h1, len);
    h1 := Xorshift(h1, 16);
    h1 := Times(h1, 0x85ebca6b, 32);
    h1 := Xorshift(h1, 13);
    h1 := Times(h1, 0xc2b2ae35, 32);
    h1 := Xorshift(h1, 16);
    r := h1 % Pow2(W);
  }

  // Both hashes as functions of a key.

  function SoftwareHash(): Word -> nat {
    (w: Word) => Hash128(w)
  }

  function HardwareHash(H: nat): Word -> nat {
    (w: Word) => Straight128(SEED, H, w)
  }
}
