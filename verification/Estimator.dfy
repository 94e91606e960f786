/**
 The HyperLogLog estimator: an exact fixed-point accumulation of 2^(-rank) over all
 buckets and a count of the empty ones. The conversion to a floating-point estimate is
 a parameter.
 */
module HllEstimation {
  import opened Streams
  import opened Monoids
  import opened Results

  /** Empty buckets, and the accumulator in units of its least significant bit. */
  datatype Estimator = Estimator(zeros: nat, accu: nat)

  const RESET := Estimator(0, 0)

  /** 2^(-rank) with `L` fractional bits: a single bit. */
  function Share(L: nat, rank: int): nat {
    if 0 <= rank <= L then Pow2(L - rank) else 0
  }

  /** `P` integer bits, `L` fractional bits, `P + 1` bits for the count of empty buckets. */
  function Absorb(P: nat, L: nat): (Estimator, int) -> Estimator {
    (e: Estimator, rank: int) =>
      Estimator((if rank == 0 then e.zeros + 1 else e.zeros) % Pow2(P + 1), (e.accu + Share(L, rank)) % Pow2(P + L))
  }

  /** The single bit that `estimate` sets for a rank. */
  method SingleBit(L: nat, rank: int) returns (d: nat)
    ensures d == Share(L, rank)
    ensures 0 <= rank <= L ==> d * Pow2(rank) == Pow2(L)
  {
    d := 0;
    if 0 <= rank <= L {
      d := Pow2(L - rank);
      ShareOfRank(L, rank);
    }
  }

  class HllEstimator {
    const P: nat
    const L: nat
    var zeros: nat
    var accu: nat

    constructor (P: nat, L: nat)
      ensures this.P == P && this.L == L && Estimator(zeros, accu) == RESET
    {
      this.P, this.L := P, L;
      zeros, accu := 0, 0;
    }

    method Step(src: Stream<Flit<int>>, dst: Stream<int>, card: Estimator -> int)
      modifies this, src, dst
      ensures (Estimator(zeros, accu), src.fifo, dst.fifo)
           == FoldStep(Absorb(P, L), RESET, card, old(Estimator(zeros, accu)), old(src.fifo), old(dst.fifo))
    {
      if !src.fifo.Empty() {
        var x := src.fifo.Peek();
        src.fifo := src.fifo.Read();
        var rank := x.val;
        if rank == 0 {
          zeros := zeros + 1;
        }
        zeros := zeros % Pow2(P + 1);
        var d := SingleBit(L, rank);
        accu := (accu + d) % Pow2(P + L);
        if x.last {
          dst.fifo := dst.fifo.Write(card(Estimator(zeros, accu)));
          zeros := 0;
          accu := 0;
        }
      }
    }
  }

  // Exactness.

  /** The sum of 2^(L - rank): the harmonic sum in units of 2^(-L). */
  function Harmonic(L: nat, ranks: seq<int>): nat {
    if ranks == [] then 0 else Harmonic(L, ranks[..|ranks| - 1]) + Share(L, ranks[|ranks| - 1])
  }

  /** How many ranks equal `rank`. */
  function Tally(ranks: seq<int>, rank: int): nat {
    if ranks == [] then 0
    else Tally(ranks[..|ranks| - 1], rank) + if ranks[|ranks| - 1] == rank then 1 else 0
  }

  /** The harmonic sum over the ranks from 0 to `n`, in units of 2^(-L): 2^(-rank) for each time a rank occurs. */
  function RankSum(L: nat, ranks: seq<int>, n: nat): nat
    requires n <= L
  {
    Tally(ranks, n) * Pow2(L - n) + if n == 0 then 0 else RankSum(L, ranks, n - 1)
  }

  predicate RanksIn(L: nat, ranks: seq<int>) {
    forall i :: 0 <= i < |ranks| ==> 0 <= ranks[i] <= L
  }

  predicate AllEmpty(ranks: seq<int>) {
    forall i :: 0 <= i < |ranks| ==> ranks[i] == 0
  }

  lemma {:induction false} Pow2Monotone(a: nat, b: nat)
    requires a <= b
    ensures Pow2(a) <= Pow2(b)
    decreases b
  {
    if a < b {
      Pow2Monotone(a, b - 1);
    }
  }

  lemma {:induction false} TwiceProduct(x: nat, y: nat)
    ensures x * (2 * y) == 2 * (x * y)
  {
  }

  lemma {:induction false} Pow2Add(a: nat, b: nat)
    ensures Pow2(a + b) == Pow2(a) * Pow2(b)
    decreases b
  {
    if b > 0 {
      Pow2Add(a, b - 1);
      TwiceProduct(Pow2(a), Pow2(b - 1));
    }
  }

  /** Below the number of buckets unless all of them are empty. */
  lemma {:induction false} HarmonicBound(L: nat, ranks: seq<int>)
    requires RanksIn(L, ranks)
    ensures Harmonic(L, ranks) <= |ranks| * Pow2(L)
    ensures Harmonic(L, ranks) == |ranks| * Pow2(L) <==> AllEmpty(ranks)
    decreases |ranks|
  {
    if ranks != [] {
      var p, x := ranks[..|ranks| - 1], ranks[|ranks| - 1];
      HarmonicBound(L, p);
      assert |ranks| * Pow2(L) == |p| * Pow2(L) + Pow2(L);
      ShareBound(L, x);
      assert ranks == p + [x];
    }
  }

  lemma {:induction false} ShareBound(L: nat, rank: int)
    requires 0 <= rank <= L
    ensures Share(L, rank) <= Pow2(L)
    ensures Share(L, rank) == Pow2(L) <==> rank == 0
  {
    if rank > 0 {
      Pow2Monotone(L - rank, L - 1);
    }
  }

  /** The share of a rank, 2^rank times, is the whole: it is 2^(-rank). */
  lemma {:induction false} ShareOfRank(L: nat, rank: nat)
    requires rank <= L
    ensures Share(L, rank) * Pow2(rank) == Pow2(L)
  {
    Pow2Add(L - rank, rank);
  }

  lemma {:induction false} RankSumSnoc(L: nat, p: seq<int>, x: int, n: nat)
    requires n <= L
    ensures RankSum(L, p + [x], n) == RankSum(L, p, n) + if 0 <= x <= n then Pow2(L - x) else 0
    decreases n
  {
    assert (p + [x])[..|p|] == p;
    OneTimeMore(Tally(p, n), Pow2(L - n));
    if n > 0 {
      RankSumSnoc(L, p, x, n - 1);
    }
  }

  lemma {:induction false} OneTimeMore(k: nat, q: nat)
    ensures (k + 1) * q == k * q + q
  {
  }

  lemma {:induction false} NothingRanked(L: nat, n: nat)
    requires n <= L
    ensures RankSum(L, [], n) == 0
    decreases n
  {
    if n > 0 {
      NothingRanked(L, n - 1);
    }
  }

  /** Added up bucket by bucket or rank by rank, the harmonic sum is the same. */
  lemma {:induction false} HarmonicByRank(L: nat, ranks: seq<int>)
    requires RanksIn(L, ranks)
    ensures Harmonic(L, ranks) == RankSum(L, ranks, L)
    decreases |ranks|
  {
    if ranks == [] {
      NothingRanked(L, L);
    } else {
      var p, x := ranks[..|ranks| - 1], ranks[|ranks| - 1];
      HarmonicByRank(L, p);
      RankSumSnoc(L, p, x, L);
      assert ranks == p + [x];
    }
  }

  lemma {:induction false} TallyBound(ranks: seq<int>, rank: int)
    ensures Tally(ranks, rank) <= |ranks|
    decreases |ranks|
  {
    if ranks != [] {
      TallyBound(ranks[..|ranks| - 1], rank);
    }
  }

  lemma {:induction false} AbsorbModulo(P: nat, L: nat, ranks: seq<int>)
    ensures FoldOf(Absorb(P, L), RESET, ranks)
         == Estimator(Tally(ranks, 0) % Pow2(P + 1), Harmonic(L, ranks) % Pow2(P + L))
    decreases |ranks|
  {
    if ranks != [] {
      var p, x := ranks[..|ranks| - 1], ranks[|ranks| - 1];
      AbsorbModulo(P, L, p);
      ModPlusLeft(Harmonic(L, p), Share(L, x), Pow2(P + L));
      ModPlusLeft(Tally(p, 0), if x == 0 then 1 else 0, Pow2(P + 1));
      ModTwice(Tally(p, 0), Pow2(P + 1));
    } else {
      ZeroMod(Pow2(P + 1));
      ZeroMod(Pow2(P + L));
    }
  }

  lemma {:induction false} ZeroMod(q: nat)
    requires q >= 1
    ensures 0 % q == 0
  {
    MulMod(0, q);
  }

  lemma {:induction false} ModTwice(a: nat, q: nat)
    requires q >= 1
    ensures (a % q) % q == a % q
  {
    WrapFix(a % q, q, 0);
  }

  /**
   Over all 2^P buckets the count of empty ones is exact, and the accumulator is exact,
   staying below 2^P, if and only if some bucket is not empty.
   */
  lemma {:induction false} EstimatorExact(P: nat, L: nat, ranks: seq<int>)
    requires |ranks| == Pow2(P) && RanksIn(L, ranks)
    ensures var e := FoldOf(Absorb(P, L), RESET, ranks);
            && e.zeros == Tally(ranks, 0)
            && (e.accu == RankSum(L, ranks, L) <==> !AllEmpty(ranks))
            && (!AllEmpty(ranks) ==> RankSum(L, ranks, L) < Pow2(P) * Pow2(L))
  {
    HarmonicByRank(L, ranks);
    AbsorbModulo(P, L, ranks);
    TallyBound(ranks, 0);
    HarmonicBound(L, ranks);
    Pow2Add(P, L);
    WrapFix(Tally(ranks, 0), Pow2(P + 1), 0);
    if AllEmpty(ranks) {
      MulMod(1, Pow2(P + L));
    } else {
      WrapFix(Harmonic(L, ranks), Pow2(P + L), 0);
    }
  }
}
