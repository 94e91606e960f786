/**
 Shifts of a hash value against closed bit slices, and the sentinel form of counting
 leading zeros.
 */
module BitSlices {
  import opened Streams
  import opened Monoids
  import opened Sketches
  import opened HllEstimation

  /** Shifting twice is shifting by the sum. */
  lemma {:induction false} DivDiv(h: nat, a: nat, b: nat)
    requires a > 0 && b > 0
    ensures a * b > 0 && (h / a) / b == h / (a * b)
  {
    DivNat(h, a);
    var q, r := h / a, h % a;
    DivNat(q, b);
    var s, t := q / b, q % b;
    assert a * b >= 1;
    TwoDigits(s, t, r, a, b);
    DivModUnique(s, a * t + r, a * b);
  }

  lemma {:induction false} TwoDigits(s: nat, t: nat, r: nat, a: nat, b: nat)
    requires r < a && t < b
    ensures (s * b + t) * a + r == s * (a * b) + (a * t + r)
    ensures 0 <= a * t + r < a * b
  {
    assert (s * b + t) * a == s * (a * b) + a * t;
    assert a * t <= a * (b - 1) == a * b - a;
  }

  lemma {:induction false} ShiftShift(h: nat, a: nat, b: nat)
    ensures (h / Pow2(a)) / Pow2(b) == h / Pow2(a + b)
  {
    DivDiv(h, Pow2(a), Pow2(b));
    Pow2Add(a, b);
  }

  /** `h >> n` */
  function Shr(h: nat, n: nat): nat {
    DivNat(h, Pow2(n));
    h / Pow2(n)
  }

  lemma {:induction false} ShrShr(h: nat, a: nat, b: nat)
    ensures Shr(Shr(h, a), b) == Shr(h, a + b)
  {
    ShiftShift(h, a, b);
  }

  /** All bits shifted out. */
  lemma {:induction false} ShrAll(h: nat, n: nat)
    requires h < Pow2(n)
    ensures Shr(h, n) == 0
  {
    QuotientBound(h, 1, Pow2(n));
  }

  /** A value below 2^w loses nothing to a mask of `w` bits. */
  lemma {:induction false} MaskFits(x: nat, w: nat)
    requires x < Pow2(w)
    ensures x % Pow2(w) == x
  {
    DivModUnique(0, x, Pow2(w));
  }

  lemma {:induction false} QuotientBound(h: nat, a: nat, b: nat)
    requires b > 0 && h < a * b
    ensures h / b < a
  {
    var q := h / b;
    assert h == q * b + h % b;
    if q >= a {
      MulMonotone(a, q, b);
    }
  }

  lemma {:induction false} MulMonotone(x: nat, y: nat, b: nat)
    requires x <= y
    ensures x * b <= y * b
  {
  }

  lemma {:induction false} MulAssoc(a: int, b: int, c: int)
    ensures (a * b) * c == a * (b * c)
  {
  }

  lemma {:induction false} TopArithmetic(h: nat, a: nat, b: nat, w: nat)
    requires a > 0 && b > 0 && w == a * b && h < w
    ensures h / b < a && (h / b) % a == h / b
  {
    QuotientBound(h, a, b);
    DivModUnique(0, h / b, a);
  }

  /** The top `P` bits need no mask. */
  lemma {:induction false} TopSlice(h: nat, W: nat, P: nat)
    requires P <= W && h < Pow2(W)
    ensures h / Pow2(W - P) < Pow2(P)
    ensures h / Pow2(W - P) == Slice(h, W - P, P)
  {
    Pow2Add(P, W - P);
    TopArithmetic(h, Pow2(P), Pow2(W - P), Pow2(W));
  }

  lemma {:induction false} SliceArithmetic(h: nat, a: nat, b: nat, c: nat, v: nat)
    requires a > 0 && b > 0 && v > 0 && v == (c * b) * a
    ensures ((h % v) / a) % b == (h / a) % b
  {
    DivNat(h, v);
    var q, r := h / v, h % v;
    MulAssoc(q, c * b, a);
    MulAssoc(q, c, b);
    var k, kb: nat := q * c, (q * c) * b;
    assert h == r + kb * a;
    DivNat(r, a);
    DivPlus(r, kb, a);
    ModPlus(r / a, k, b);
  }

  /** Slices below bit `V` only see the low `V` bits. */
  lemma {:induction false} SliceOfLow(h: nat, V: nat, lo: nat, len: nat)
    requires lo + len <= V
    ensures Slice(h % Pow2(V), lo, len) == Slice(h, lo, len)
  {
    Pow2Add(V - lo, lo);
    Pow2Add(V - lo - len, len);
    SliceArithmetic(h, Pow2(lo), Pow2(len), Pow2(V - lo - len), Pow2(V));
  }

  lemma {:induction false} DivPlus(r: nat, k: nat, d: nat)
    requires d > 0
    ensures (r + k * d) / d == r / d + k
  {
    assert r + k * d == (r / d + k) * d + r % d by {
      assert r == (r / d) * d + r % d;
      assert (r / d + k) * d == (r / d) * d + k * d;
    }
    DivModUnique(r / d + k, r % d, d);
  }

  lemma {:induction false} ModPlus(r: nat, k: nat, d: nat)
    requires d > 0
    ensures (r + k * d) % d == r % d
  {
    assert r + k * d == (r / d + k) * d + r % d by {
      assert r == (r / d) * d + r % d;
      assert (r / d + k) * d == (r / d) * d + k * d;
    }
    DivModUnique(r / d + k, r % d, d);
  }

  // Leading zeros.

  lemma {:induction false} ClzWide(x: nat, a: nat, b: nat)
    requires x < Pow2(b)
    ensures Clz(x, a + b) == a + Clz(x, b)
    decreases a
  {
    if a > 0 {
      Pow2Monotone(b, a + b - 1);
      ClzWide(x, a - 1, b);
    }
  }

  /** Bits appended below a non-zero value do not change its leading zeros. */
  lemma {:induction false} ClzAppend(x: nat, w: nat, low: nat, b: nat)
    requires 0 < x < Pow2(w) && low < Pow2(b)
    ensures Clz(x * Pow2(b) + low, w + b) == Clz(x, w)
    decreases w
  {
    Pow2Add(w - 1, b);
    if x >= Pow2(w - 1) {
      MulMonotone(Pow2(w - 1), x, Pow2(b));
    } else {
      MulMonotone(x + 1, Pow2(w - 1), Pow2(b));
      assert (x + 1) * Pow2(b) == x * Pow2(b) + Pow2(b);
      ClzAppend(x, w - 1, low, b);
    }
  }

  lemma {:induction false} ClzOnes(P: nat)
    ensures Clz(Pow2(P) - 1, P) == 0
  {
  }

  lemma {:induction false} ClzZero(w: nat)
    ensures Clz(0, w) == w
  {
    if w > 0 {
      ClzZero(w - 1);
    }
  }

  /** The sentinel `((h + 1) << P) - 1` in `W`-bit arithmetic. */
  function Sentinel(h: nat, W: nat, P: nat): nat {
    SentinelOf(h, Pow2(P), Pow2(W))
  }

  /** The same with `b` for 2^P and `w` for 2^W. */
  function SentinelOf(h: nat, b: nat, w: nat): nat
    requires w > 0
  {
    ((((h + 1) % w) * b) % w + w - 1) % w
  }

  lemma {:induction false} ScaledMod(h: nat, v: nat, b: nat, w: nat)
    requires v > 0 && b > 0 && w == v * b
    ensures w > 0 && (h * b) % w == (h % v) * b
  {
    var q, r := h / v, h % v;
    assert w >= 1;
    assert h == q * v + r;
    assert h * b == q * w + r * b by {
      assert (q * v + r) * b == (q * v) * b + r * b;
      assert (q * v) * b == q * (v * b);
    }
    assert r * b < w by {
      MulMonotone(r + 1, v, b);
      assert (r + 1) * b == r * b + b;
    }
    DivModUnique(q, r * b, w);
  }

  lemma {:induction false} ModOfMod(h: nat, v: nat, d: nat, w: nat)
    requires v > 0 && w > 0 && w == d * v
    ensures (h % w) % v == h % v
  {
    var q, r := h / w, h % w;
    DivNat(h, w);
    MulAssoc(q, d, v);
    var k := q * d;
    assert h == r + k * v;
    ModPlus(r, k, v);
  }

  lemma {:induction false} SuccMod(h: nat, v: nat)
    requires v > 0
    ensures (h + 1) % v == if h % v == v - 1 then 0 else h % v + 1
  {
    var q, r := h / v, h % v;
    assert h == q * v + r;
    if r == v - 1 {
      assert h + 1 == (q + 1) * v + 0;
      DivModUnique(q + 1, 0, v);
    } else {
      DivModUnique(q, r + 1, v);
    }
  }

  /** `(x + w - 1) % w` is one below `x`, or `w - 1` below zero. */
  lemma {:induction false} PredMod(x: nat, w: nat)
    requires w > 0 && x < w
    ensures (x + w - 1) % w == if x == 0 then w - 1 else x - 1
  {
    if x == 0 {
      DivModUnique(0, w - 1, w);
    } else {
      DivModUnique(1, x - 1, w);
    }
  }

  lemma {:induction false} SentinelArithmetic(h: nat, v: nat, b: nat, w: nat)
    requires v > 0 && b > 0 && w == v * b
    ensures w > 0
    ensures SentinelOf(h, b, w) == (h % v) * b + (b - 1) < w
  {
    var low := h % v;
    assert w >= 1;
    ScaledMod((h + 1) % w, v, b, w);
    ModOfMod(h + 1, v, b, w);
    SuccMod(h, v);
    MulMonotone(low + 1, v, b);
    NextMultiple(low, b);
    if low == v - 1 {
      NextMultiple(v - 1, b);
      assert 0 * b == 0;
      PredMod(0, w);
    } else {
      MulMonotone(low + 2, v, b);
      NextMultiple(low + 1, b);
      PredMod((low + 1) * b, w);
    }
  }

  /** The sentinel is the low part of the hash followed by `P` ones, whatever wraps around. */
  lemma {:induction false} SentinelValue(h: nat, W: nat, P: nat)
    requires P <= W
    ensures Sentinel(h, W, P) == (h % Pow2(W - P)) * Pow2(P) + (Pow2(P) - 1) < Pow2(W)
  {
    Pow2Add(W - P, P);
    SentinelArithmetic(h, Pow2(W - P), Pow2(P), Pow2(W));
  }

  /**
   For every hash and P > 0, including all-zero and all-one hashes, the sentinel form
   counts the leading zeros of the low W - P bits and never looks at zero.
   */
  lemma {:induction false} SentinelRank(h: nat, W: nat, P: nat)
    requires 0 < P <= W
    ensures 0 < Sentinel(h, W, P) < Pow2(W)
    ensures Clz(Sentinel(h, W, P), W) == Clz(Slice(h, 0, W - P), W - P)
  {
    SentinelValue(h, W, P);
    Pow2Halves(P);
    var low := h % Pow2(W - P);
    assert low * Pow2(P) >= 0;
    assert Slice(h, 0, W - P) == low by {
      assert Pow2(0) == 1 && h / 1 == h;
    }
    if low == 0 {
      assert 0 * Pow2(P) == 0;
      ClzWide(Pow2(P) - 1, W - P, P);
      ClzOnes(P);
      ClzZero(W - P);
    } else {
      ClzAppend(low, W - P, Pow2(P) - 1, P);
    }
  }

  /** The sentinel is never zero, for which leading zeros are not defined, if and only if there are bucket bits. */
  lemma {:induction false} SentinelDefinedIff(W: nat, P: nat)
    requires P <= W
    ensures (forall h: nat :: h < Pow2(W) ==> Sentinel(h, W, P) != 0) <==> P > 0
  {
    if P > 0 {
      forall h: nat | h < Pow2(W)
        ensures Sentinel(h, W, P) != 0
      {
        SentinelRank(h, W, P);
      }
    } else {
      SentinelValue(0, W, 0);
      DivModUnique(0, 0, Pow2(W));
      var zero: nat := 0;
      assert Sentinel(zero, W, P) == 0;
    }
  }

  /** Leading zeros of a double word from those of its halves. */
  function ClzDouble(x: nat, w: nat): nat {
    DivNat(x, Pow2(w));
    if x / Pow2(w) != 0 then Clz(x / Pow2(w), w)
    else if x % Pow2(w) != 0 then Clz(x % Pow2(w), w) + w
    else 2 * w
  }

  lemma {:induction false} ClzHalves(x: nat, w: nat)
    requires x < Pow2(2 * w)
    ensures ClzDouble(x, w) == Clz(x, 2 * w)
  {
    DivNat(x, Pow2(w));
    var hi, lo := x / Pow2(w), x % Pow2(w);
    TopSlice(x, 2 * w, w);
    if hi != 0 {
      ClzAppend(hi, w, lo, w);
    } else {
      ClzWide(x, w, w);
      if lo == 0 {
        ClzZero(w);
      }
    }
  }
}
