/**
 What the squares of a Fast-AGMS row add up to: a sum over all pairs of items that share
 a cell, and so the second frequency moment when distinct items have distinct cells.
 */
module SecondMoment {
  import opened Monoids
  import opened Lanes
  import opened Network
  import opened Results
  import opened Sketches
  import opened SoftwareCollector
  import BitSlices
  import Joined
  import Murmur

  /** Cell and sign of a word. */
  datatype Slot = Slot(key: nat, sign: int)

  function SlotOf(hash: Word -> nat, P: nat, j: nat, w: Word): Slot {
    var e := AgmsKey(P, j)(hash(w));
    Slot(e.key, Sign(e.inc))
  }

  /** The unbounded value of cell `k`: the signs of its items added up. */
  function Exact(hash: Word -> nat, P: nat, j: nat, s: seq<Word>, k: nat): int {
    if s == [] then 0
    else
      var e := SlotOf(hash, P, j, s[|s| - 1]);
      Exact(hash, P, j, s[..|s| - 1], k) + if e.key == k then e.sign else 0
  }

  function ExactRow(hash: Word -> nat, P: nat, j: nat, s: seq<Word>): (r: seq<int>)
    ensures |r| == Pow2(P)
  {
    seq(Pow2(P), k requires 0 <= k < Pow2(P) => Exact(hash, P, j, s, k))
  }

  function SumSquares(v: seq<int>): int {
    if v == [] then 0 else SumSquares(v[..|v| - 1]) + Square(v[|v| - 1])
  }

  // Pairs of items.

  /** The signs of two items multiplied if they share a cell. */
  function Match(a: Slot, b: Slot): int {
    if a.key == b.key then a.sign * b.sign else 0
  }

  /** One item against all of `s`. */
  function Against(hash: Word -> nat, P: nat, j: nat, x: Word, s: seq<Word>): int {
    if s == [] then 0
    else Against(hash, P, j, x, s[..|s| - 1]) + Match(SlotOf(hash, P, j, x), SlotOf(hash, P, j, s[|s| - 1]))
  }

  /** All items of `a` against all items of `b`. */
  function Pairs(hash: Word -> nat, P: nat, j: nat, a: seq<Word>, b: seq<Word>): int {
    if a == [] then 0 else Pairs(hash, P, j, a[..|a| - 1], b) + Against(hash, P, j, a[|a| - 1], b)
  }

  lemma {:induction false} AgainstIsCell(hash: Word -> nat, P: nat, j: nat, x: Word, s: seq<Word>)
    ensures var e := SlotOf(hash, P, j, x);
            Against(hash, P, j, x, s) == e.sign * Exact(hash, P, j, s, e.key)
    decreases |s|
  {
    if s != [] {
      AgainstIsCell(hash, P, j, x, s[..|s| - 1]);
    }
  }

  lemma {:induction false} PairsRight(hash: Word -> nat, P: nat, j: nat, a: seq<Word>, b: seq<Word>, y: Word)
    ensures Pairs(hash, P, j, a, b + [y]) == Pairs(hash, P, j, a, b) + Against(hash, P, j, y, a)
    decreases |a|
  {
    if a != [] {
      PairsRight(hash, P, j, a[..|a| - 1], b, y);
      assert (b + [y])[..|b|] == b;
    }
  }

  lemma {:induction false} PairsSnoc(hash: Word -> nat, P: nat, j: nat, s: seq<Word>, x: Word)
    ensures Pairs(hash, P, j, s + [x], s + [x])
         == Pairs(hash, P, j, s, s) + 2 * Against(hash, P, j, x, s) + 1
  {
    assert (s + [x])[..|s|] == s;
    PairsRight(hash, P, j, s, s, x);
  }

  lemma {:induction false} SquaresUpdate(v: seq<int>, k: nat, d: int)
    requires k < |v|
    ensures SumSquares(v[k := v[k] + d]) == SumSquares(v) + 2 * (d * v[k]) + Square(d)
    decreases |v|
  {
    var n := |v| - 1;
    if k < n {
      assert v[k := v[k] + d][..n] == v[..n][k := v[..n][k] + d];
      SquaresUpdate(v[..n], k, d);
    } else {
      assert v[k := v[k] + d][..n] == v[..n];
      SquareSum(v[k], d);
    }
  }

  lemma {:induction false} SquareSum(a: int, d: int)
    ensures Square(a + d) == Square(a) + 2 * (d * a) + Square(d)
  {
  }

  lemma {:induction false} ExactRowSnoc(hash: Word -> nat, P: nat, j: nat, s: seq<Word>, x: Word)
    ensures var e := SlotOf(hash, P, j, x);
            var v := ExactRow(hash, P, j, s);
            && e.key < Pow2(P) && (e.sign == 1 || e.sign == -1)
            && ExactRow(hash, P, j, s + [x]) == v[e.key := v[e.key] + e.sign]
  {
    assert (s + [x])[..|s|] == s;
  }

  lemma {:induction false} SumSquaresZero(n: nat)
    ensures SumSquares(seq(n, _ => 0)) == 0
  {
    if n > 0 {
      assert seq(n, _ => 0)[..n - 1] == seq(n - 1, _ => 0);
      SumSquaresZero(n - 1);
    }
  }

  lemma {:induction false} RowSnoc(hash: Word -> nat, P: nat, j: nat, s: seq<Word>, x: Word)
    ensures SumSquares(ExactRow(hash, P, j, s + [x])) == SumSquares(ExactRow(hash, P, j, s))
            + 2 * Against(hash, P, j, x, s) + 1
  {
    var e := SlotOf(hash, P, j, x);
    ExactRowSnoc(hash, P, j, s, x);
    SquaresUpdate(ExactRow(hash, P, j, s), e.key, e.sign);
    AgainstIsCell(hash, P, j, x, s);
  }

  /** The squares of a row add up to all pairs of items that share a cell, signs multiplied. */
  lemma {:induction false} RowIsPairs(hash: Word -> nat, P: nat, j: nat, s: seq<Word>)
    ensures SumSquares(ExactRow(hash, P, j, s)) == Pairs(hash, P, j, s, s)
    decreases |s|
  {
    if s == [] {
      assert ExactRow(hash, P, j, s) == seq(Pow2(P), _ => 0);
      SumSquaresZero(Pow2(P));
    } else {
      var p, x := s[..|s| - 1], s[|s| - 1];
      assert s == p + [x];
      RowIsPairs(hash, P, j, p);
      RowSnoc(hash, P, j, p, x);
      PairsSnoc(hash, P, j, p, x);
    }
  }

  // The second frequency moment.

  function Without(s: seq<Word>, w: Word): (r: seq<Word>)
    ensures |r| <= |s| && (|s| > 0 && s[|s| - 1] == w ==> |r| < |s|)
  {
    if s == [] then []
    else if s[|s| - 1] == w then Without(s[..|s| - 1], w)
    else Without(s[..|s| - 1], w) + [s[|s| - 1]]
  }

  /** The number of occurrences of `w`. */
  function Frequency(s: seq<Word>, w: Word): nat {
    if s == [] then 0 else Frequency(s[..|s| - 1], w) + if s[|s| - 1] == w then 1 else 0
  }

  /** The sum of the squared frequencies of the distinct words. */
  function Moment2(s: seq<Word>): int
    decreases |s|
  {
    if s == [] then 0
    else
      var w := s[|s| - 1];
      Square(Frequency(s, w)) + Moment2(Without(s, w))
  }

  lemma {:induction false} WithoutSnoc(s: seq<Word>, x: Word, w: Word)
    ensures Without(s + [x], w) == if x == w then Without(s, w) else Without(s, w) + [x]
    ensures Frequency(s + [x], w) == Frequency(s, w) + if x == w then 1 else 0
  {
    assert (s + [x])[..|s|] == s;
  }

  lemma {:induction false} WithoutCommutes(s: seq<Word>, v: Word, w: Word)
    ensures Without(Without(s, v), w) == Without(Without(s, w), v)
    ensures v != w ==> Frequency(Without(s, v), w) == Frequency(s, w)
    decreases |s|
  {
    if s != [] {
      var p, x := s[..|s| - 1], s[|s| - 1];
      WithoutCommutes(p, v, w);
      if x != v {
        WithoutSnoc(Without(p, v), x, w);
      }
      if x != w {
        WithoutSnoc(Without(p, w), x, v);
      }
    }
  }

  lemma {:induction false} WithoutAbsent(s: seq<Word>, w: Word)
    requires Frequency(s, w) == 0
    ensures Without(s, w) == s
    decreases |s|
  {
    if s != [] {
      WithoutAbsent(s[..|s| - 1], w);
    }
  }

  /** Any word's share of the moment can be split off. */
  lemma {:induction false} Moment2Split(s: seq<Word>, w: Word)
    ensures Moment2(s) == Square(Frequency(s, w)) + Moment2(Without(s, w))
    decreases |s|
  {
    if s != [] && s[|s| - 1] != w {
      var v := s[|s| - 1];
      Moment2Split(Without(s, v), w);
      WithoutCommutes(s, v, w);
      WithoutCommutes(s, w, v);
      var r := Without(s, w);
      assert r[|r| - 1] == v;
    }
  }

  lemma {:induction false} Moment2Snoc(s: seq<Word>, x: Word)
    ensures Moment2(s + [x]) == Moment2(s) + 2 * Frequency(s, x) + 1
  {
    Moment2More(s, x);
    Moment2Split(s, x);
    NextSquare(Frequency(s, x), Moment2(Without(s, x)));
  }

  lemma {:induction false} NextSquare(f: nat, rest: int)
    ensures Square(f + 1) + rest == Square(f) + rest + 2 * f + 1
  {
    assert (f + 1) * (f + 1) == f * f + 2 * f + 1;
  }

  lemma {:induction false} Moment2More(s: seq<Word>, x: Word)
    ensures Moment2(s + [x]) == Square(Frequency(s, x) + 1) + Moment2(Without(s, x))
  {
    Moment2Split(s + [x], x);
    WithoutSnoc(s, x, x);
  }

  /** No two different words of `s` share a cell. */
  predicate CollisionFree(hash: Word -> nat, P: nat, j: nat, s: seq<Word>) {
    forall a, b :: 0 <= a < |s| && 0 <= b < |s| && s[a] != s[b] ==>
      SlotOf(hash, P, j, s[a]).key != SlotOf(hash, P, j, s[b]).key
  }

  lemma {:induction false} AgainstIsFrequency(hash: Word -> nat, P: nat, j: nat, x: Word, s: seq<Word>)
    requires forall a :: 0 <= a < |s| && s[a] != x ==> SlotOf(hash, P, j, s[a]).key != SlotOf(hash, P, j, x).key
    ensures Against(hash, P, j, x, s) == Frequency(s, x)
    decreases |s|
  {
    if s != [] {
      AgainstIsFrequency(hash, P, j, x, s[..|s| - 1]);
    }
  }

  /** Without collisions the pairs are the second frequency moment. */
  lemma {:induction false} PairsAreMoment(hash: Word -> nat, P: nat, j: nat, s: seq<Word>)
    requires CollisionFree(hash, P, j, s)
    ensures Pairs(hash, P, j, s, s) == Moment2(s)
    decreases |s|
  {
    if s != [] {
      var p, x := s[..|s| - 1], s[|s| - 1];
      assert s == p + [x];
      assert CollisionFree(hash, P, j, p) by {
        assert forall a :: 0 <= a < |p| ==> p[a] == s[a];
      }
      PairsAreMoment(hash, P, j, p);
      PairsSnoc(hash, P, j, p, x);
      AgainstIsFrequency(hash, P, j, x, p);
      Moment2Snoc(p, x);
    }
  }

  // The counters of the machine.

  lemma {:induction false} ExactBound(hash: Word -> nat, P: nat, j: nat, s: seq<Word>, k: nat)
    ensures -|s| <= Exact(hash, P, j, s, k) <= |s|
    decreases |s|
  {
    if s != [] {
      ExactBound(hash, P, j, s[..|s| - 1], k);
    }
  }

  /** A counter holds the exact value modulo 2^W. */
  lemma {:induction false} CellIsWrapped(hash: Word -> nat, P: nat, W: nat, j: nat, s: seq<Word>, k: nat)
    requires W >= 2
    ensures Cell(hash, AgmsRow(P, W, j), s, k) == Wrap(Exact(hash, P, j, s, k), Pow2(W), 0 - Pow2(W - 1))
    decreases |s|
  {
    var q, low := Pow2(W), 0 - Pow2(W - 1);
    Pow2Halves(W);
    if s == [] {
      WrapFix(0, q, low);
    } else {
      var p, x := s[..|s| - 1], s[|s| - 1];
      assert s == p + [x];
      CellIsWrapped(hash, P, W, j, p, k);
      AgmsRowOk(P, W, j);
      CellAppend(hash, AgmsRow(P, W, j), p, x, k);
      WrapPlus(Exact(hash, P, j, p, k), SlotOf(hash, P, j, x).sign, q, low);
      WrapFix(Wrap(Exact(hash, P, j, p, k), q, low), q, low);
    }
  }

  /** With fewer than 2^(W-1) items no counter wraps. */
  lemma {:induction false} VectorIsExact(hash: Word -> nat, P: nat, W: nat, j: nat, s: seq<Word>)
    requires W >= 2 && |s| < Pow2(W - 1)
    ensures Joined.Vector(hash, AgmsRow(P, W, j), s) == ExactRow(hash, P, j, s)
  {
    forall k | 0 <= k < Pow2(P)
      ensures Cell(hash, AgmsRow(P, W, j), s, k) == Exact(hash, P, j, s, k)
    {
      CellIsWrapped(hash, P, W, j, s, k);
      ExactBound(hash, P, j, s, k);
      Pow2Halves(W);
      WrapFix(Exact(hash, P, j, s, k), Pow2(W), 0 - Pow2(W - 1));
    }
  }

  lemma {:induction false} SumSquaresNatural(v: seq<int>)
    ensures SumSquares(v) >= 0
    decreases |v|
  {
    if v != [] {
      SumSquaresNatural(v[..|v| - 1]);
    }
  }

  lemma {:induction false} AgainstBound(hash: Word -> nat, P: nat, j: nat, x: Word, s: seq<Word>)
    ensures -|s| <= Against(hash, P, j, x, s) <= |s|
    decreases |s|
  {
    if s != [] {
      AgainstBound(hash, P, j, x, s[..|s| - 1]);
    }
  }

  lemma {:induction false} PairsBound(hash: Word -> nat, P: nat, j: nat, a: seq<Word>, b: seq<Word>)
    ensures Pairs(hash, P, j, a, b) <= |a| * |b|
    decreases |a|
  {
    if a != [] {
      PairsBound(hash, P, j, a[..|a| - 1], b);
      AgainstBound(hash, P, j, a[|a| - 1], b);
      assert |a| * |b| == (|a| - 1) * |b| + |b|;
    }
  }

  /** The 64-bit fold of a row is its sum of squares modulo 2^64. */
  lemma {:induction false} FoldIsModulo(v: seq<int>)
    ensures FoldOf(AddSquare(), 0, v) == SumSquares(v) % TWO_64
    decreases |v|
  {
    if v != [] {
      var p, x := v[..|v| - 1], v[|v| - 1];
      FoldIsModulo(p);
      ModPlusLeft(SumSquares(p), Square(x), TWO_64);
    }
  }

  lemma {:induction false} SquareBelow(n: nat)
    requires n < TWO_32
    ensures n * n < TWO_64
  {
    BitSlices.MulMonotone(n, TWO_32 - 1, n);
    BitSlices.MulMonotone(n, TWO_32 - 1, TWO_32 - 1);
  }

  lemma {:induction false} FoldIsExact(v: seq<int>)
    requires 0 <= SumSquares(v) < TWO_64
    ensures FoldOf(AddSquare(), 0, v) == SumSquares(v)
  {
    FoldIsModulo(v);
    WrapFix(SumSquares(v), TWO_64, 0);
  }

  lemma {:induction false} SquaresFit(hash: Word -> nat, P: nat, j: nat, s: seq<Word>)
    requires |s| < TWO_32
    ensures SumSquares(ExactRow(hash, P, j, s)) == Pairs(hash, P, j, s, s)
    ensures 0 <= Pairs(hash, P, j, s, s) < TWO_64
  {
    RowIsPairs(hash, P, j, s);
    SumSquaresNatural(ExactRow(hash, P, j, s));
    PairsBound(hash, P, j, s, s);
    SquareBelow(|s|);
  }

  /** The hardware's row sum is exactly the pairs of items sharing a cell, and the second moment without collisions. */
  lemma {:induction false} HardwareMoment(hash: Word -> nat, P: nat, W: nat, j: nat, s: seq<Word>)
    requires W >= 2 && |s| < Pow2(W - 1) && |s| < TWO_32
    ensures FoldOf(AddSquare(), 0, Joined.Vector(hash, AgmsRow(P, W, j), s)) == Pairs(hash, P, j, s, s)
    ensures CollisionFree(hash, P, j, s) ==>
              FoldOf(AddSquare(), 0, Joined.Vector(hash, AgmsRow(P, W, j), s)) == Moment2(s)
  {
    VectorIsExact(hash, P, W, j, s);
    SquaresFit(hash, P, j, s);
    FoldIsExact(ExactRow(hash, P, j, s));
    if CollisionFree(hash, P, j, s) {
      PairsAreMoment(hash, P, j, s);
    }
  }

  // The software's row sums.

  /** A 32-bit register in two's complement. */
  function Register(x: int): int {
    Wrap(x, Pow2(COUNTER_BITS), 0 - Pow2(COUNTER_BITS - 1))
  }

  lemma {:induction false} RegisterHolds(x: int)
    ensures 0 - Pow2(COUNTER_BITS - 1) <= x < Pow2(COUNTER_BITS - 1) <==> Register(x) == x
  {
    Pow2Halves(COUNTER_BITS);
    if 0 - Pow2(COUNTER_BITS - 1) <= x < Pow2(COUNTER_BITS - 1) {
      WrapFix(x, Pow2(COUNTER_BITS), 0 - Pow2(COUNTER_BITS - 1));
    }
  }

  /** Squaring and adding see no difference between values that agree modulo `q`. */
  lemma {:induction false} SquareModulo(acc: int, x: int, y: int, q: nat, low: int)
    requires q >= 1 && (x - y) % q == 0
    ensures Wrap(Wrap(acc, q, low) + Square(x), q, low) == Wrap(acc + Square(y), q, low)
  {
    var t := (x - y) / q;
    assert (Square(x) - Square(y)) % q == 0 by {
      assert Square(x) - Square(y) == (t * (x + y)) * q by {
        assert x - y == t * q;
        DifferenceOfSquares(x, y, t, q);
      }
      MulMod(t * (x + y), q);
    }
    WrapPlus(acc, Square(x), q, low);
    WrapUnique(acc + Square(x), acc + Square(y), q, low);
  }

  lemma {:induction false} DifferenceOfSquares(x: int, y: int, t: int, q: int)
    requires x - y == t * q
    ensures Square(x) - Square(y) == (t * (x + y)) * q
  {
    assert Square(x) - Square(y) == (x - y) * (x + y);
    assert (t * q) * (x + y) == (t * (x + y)) * q;
  }

  lemma {:induction false} NextSquareWraps(acc: int, x: int, y: int)
    requires x == Register(y)
    ensures AddSigned(Register(acc), Square(x)) == Register(acc + Square(y))
  {
    SquareModulo(acc, x, y, Pow2(COUNTER_BITS), 0 - Pow2(COUNTER_BITS - 1));
  }

  /** Sums of squares wrap like every other addition, and need only know the squared values modulo 2^32. */
  lemma {:induction false} AddSquaresWraps(row: seq<int>, exact: seq<int>)
    requires |row| == |exact| && forall k :: 0 <= k < |row| ==> row[k] == Register(exact[k])
    ensures AddSquares(0, row) == Register(SumSquares(exact))
    decreases |row|
  {
    if row == [] {
      RegisterHolds(0);
    } else {
      var n := |row| - 1;
      AddSquaresWraps(row[..n], exact[..n]);
      NextSquareWraps(SumSquares(exact[..n]), row[n], exact[n]);
    }
  }

  lemma {:induction false} TableCell(t: seq<int>, M: nat, j: nat, hash: Word -> nat, spec: RowSpec,
        items: seq<Word>, k: nat)
    requires RowIs(t, M, j, hash, spec, items) && k < M
    ensures RowOf(t, j, M)[k] == Cell(hash, spec, items, k)
  {
    assert t[Idx(j, k, M)] == Cell(hash, spec, items, k);
  }

  lemma {:induction false} RowIsWrapped(t: seq<int>, P: nat, j: nat, hash: Word -> nat, items: seq<Word>)
    requires RowIs(t, Pow2(P), j, hash, AgmsRow(P, COUNTER_BITS, j), items)
    ensures var exact := ExactRow(hash, P, j, items);
            forall k :: 0 <= k < Pow2(P) ==> RowOf(t, j, Pow2(P))[k] == Register(exact[k])
  {
    forall k | 0 <= k < Pow2(P)
      ensures RowOf(t, j, Pow2(P))[k] == Register(Exact(hash, P, j, items, k))
    {
      TableCell(t, Pow2(P), j, hash, AgmsRow(P, COUNTER_BITS, j), items, k);
      CellIsWrapped(hash, P, COUNTER_BITS, j, items, k);
    }
  }

  /** What the squares of a table's row add up to: the pairs of items sharing a cell, in a 32-bit register. */
  lemma {:induction false} SoftwareMoment(t: seq<int>, P: nat, j: nat, hash: Word -> nat, items: seq<Word>)
    requires RowIs(t, Pow2(P), j, hash, AgmsRow(P, COUNTER_BITS, j), items)
    ensures AddSquares(0, RowOf(t, j, Pow2(P))) == Register(Pairs(hash, P, j, items, items))
  {
    RowIsWrapped(t, P, j, hash, items);
    AddSquaresWraps(RowOf(t, j, Pow2(P)), ExactRow(hash, P, j, items));
    RowIsPairs(hash, P, j, items);
  }

  /**
   A register holds the pairs of `s` if and only if they number less than 2^31; without collisions
   they are the second moment.
   */
  lemma {:induction false} MomentFitsIff(hash: Word -> nat, P: nat, j: nat, s: seq<Word>)
    ensures Register(Pairs(hash, P, j, s, s)) == Pairs(hash, P, j, s, s) <==> Pairs(hash, P, j, s, s) < 0x8000_0000
    ensures CollisionFree(hash, P, j, s) ==> Pairs(hash, P, j, s, s) == Moment2(s)
  {
    RowIsPairs(hash, P, j, s);
    SumSquaresNatural(ExactRow(hash, P, j, s));
    RegisterHolds(Pairs(hash, P, j, s, s));
    CounterWidth();
    if CollisionFree(hash, P, j, s) {
      PairsAreMoment(hash, P, j, s);
    }
  }

  lemma {:induction false} CounterWidth()
    ensures Pow2(COUNTER_BITS) == TWO_32 && Pow2(COUNTER_BITS - 1) == 0x8000_0000
  {
    Murmur.Widths();
    Pow2Halves(COUNTER_BITS);
  }

  /**
   The software's 32-bit row sum is the pairs of items sharing a cell, and so the second moment
   without collisions, if and only if that is below 2^31.
   */
  lemma {:induction false} SoftwareMomentIff(c: SktCollector, j: nat)
    requires c.Valid() && j < c.r_agms
    ensures var sum := AddSquares(0, RowOf(c.agms[..], j, Pow2(c.p_agms)));
            var pairs := Pairs(c.hash, c.p_agms, j, c.items, c.items);
            && (sum == pairs <==> pairs < 0x8000_0000)
            && (CollisionFree(c.hash, c.p_agms, j, c.items) ==> pairs == Moment2(c.items))
  {
    assert RowIs(c.agms[..], Pow2(c.p_agms), j, c.hash, c.AgmsSpecs()[j], c.items);
    SoftwareMoment(c.agms[..], c.p_agms, j, c.hash, c.items);
    MomentFitsIff(c.hash, c.p_agms, j, c.items);
  }

  lemma {:induction false} CopiesMoment(n: nat, w: Word)
    ensures Frequency(seq(n, _ => w), w) == n && Without(seq(n, _ => w), w) == []
    ensures Moment2(seq(n, _ => w)) == n * n
    decreases n
  {
    if n > 0 {
      CopiesMoment(n - 1, w);
      assert seq(n, _ => w)[..n - 1] == seq(n - 1, _ => w);
    }
  }

  /** 2^16 copies of one word, whose second moment is 2^32, leave a row sum of zero. */
  lemma {:induction false} MomentOverflows(c: SktCollector, j: nat, w: Word)
    requires c.Valid() && j < c.r_agms && c.items == seq(0x1_0000, _ => w)
    ensures AddSquares(0, RowOf(c.agms[..], j, Pow2(c.p_agms))) == 0
    ensures Moment2(c.items) == Pairs(c.hash, c.p_agms, j, c.items, c.items) == TWO_32
  {
    assert RowIs(c.agms[..], Pow2(c.p_agms), j, c.hash, c.AgmsSpecs()[j], c.items);
    SoftwareMoment(c.agms[..], c.p_agms, j, c.hash, c.items);
    CopiesMoment(0x1_0000, w);
    PairsAreMoment(c.hash, c.p_agms, j, c.items);
    CounterWidth();
    WrapUnique(TWO_32, 0, TWO_32, -0x8000_0000);
    RegisterHolds(0);
  }
}
