/**
 The kernel with its three sketches: what the host reads for each job, for any widths,
 row counts and lane counts, and any schedule.
 */
module Skt {
  import opened Streams
  import opened Monoids
  import opened Lanes
  import opened Funnel
  import opened Network
  import opened Joined
  import opened Results
  import opened Basic
  import opened Records
  import opened Layout
  import opened Sketches
  import opened HllEstimation
  import opened Kernel
  import opened KernelSafety
  import opened KernelResults
  import opened SoftwareCollector
  import opened SecondMoment
  import opened CellValues
  import opened Agreement
  import opened Liveness
  import opened Fairness
  import BitSlices
  import BitUtils
  import RoundRobin

  datatype SktConfig = SktConfig(
    N0: nat, N: nat,                        // words per flit, lanes
    H: nat, hash: Word -> nat,
    P_HLL: nat,
    R_AGMS: nat, P_AGMS: nat, W_AGMS: nat,  // rows, bucket bits and counter width
    R_CM: nat, P_CM: nat, W_CM: nat,
    card: Estimator -> int)

  /**
   What the source asserts at compile time, that there are slices to take, and that the counters
   have a sign and a value and fit the 32 bits that the record has for each of them.
   */
  predicate SktOk(g: SktConfig) {
    && 0 < g.N <= g.N0
    && 0 < g.P_HLL <= g.H
    && g.R_AGMS * (1 + g.P_AGMS) <= g.H && g.R_CM * g.P_CM <= g.H
    && 0 < g.R_CM && 0 < g.P_CM
    && WidthsOk(g)
  }

  predicate WidthsOk(g: SktConfig) {
    2 <= g.W_AGMS && 0 < g.W_CM <= 32
  }

  function L(g: SktConfig): nat
    requires g.P_HLL <= g.H
  {
    g.H - g.P_HLL + 1
  }

  /** The bits by which the sums of a flit exceed those of a word. */
  function SpareBits(N: nat): nat
    requires N > 0
  {
    BitUtils.Clog2(N)
  }

  /** With them a flit of `N` words has as many bits for its sum as that can need, and at most one more. */
  lemma {:induction false} SpareBitsCover(N: nat)
    requires N > 0
    ensures N <= Pow2(SpareBits(N)) && (N > 1 ==> Pow2(SpareBits(N)) < 2 * N)
  {
    if N > 1 && SpareBits(N) > 0 {
      Pow2Halves(SpareBits(N));
    }
  }

  /** No power of two covers the lanes without covering the words of a flit. */
  ghost predicate FlitsCovered(N0: nat, N: nat) {
    forall r: nat :: N <= Pow2(r) ==> N0 <= Pow2(r)
  }

  /** The sums of all flits of `N0` words fit into these bits if and only if that is so. */
  lemma {:induction false} FlitSumsFitIff(N0: nat, N: nat)
    requires N > 0 && N0 < TWO_32
    ensures (forall words: seq<Word> :: |words| == N0 ==> SummaryOf(SpareBits(N), words).sum == Total(words))
            <==> FlitsCovered(N0, N)
  {
    SpareBitsCover(N);
    SumExactIff(SpareBits(N), N0);
    if N0 <= Pow2(SpareBits(N)) {
      forall r: nat | N <= Pow2(r)
        ensures N0 <= Pow2(r)
      {
        SpareBitsLeast(N, r);
      }
    }
  }

  lemma {:induction false} SpareBitsLeast(N: nat, r: nat)
    requires N > 0 && N <= Pow2(r)
    ensures Pow2(SpareBits(N)) <= Pow2(r)
  {
    var s := SpareBits(N);
    if r < s {
      Pow2Monotone(r, s - 1);
    } else {
      Pow2Monotone(s, r);
    }
  }

  lemma {:induction false} CmCells(R: nat, P: nat, W: nat, n: nat)
    requires W >= 1 && n <= R
    ensures Cells(CmRows(R, P, W)[..n]) == n * Pow2(P)
    decreases n
  {
    if n > 0 {
      CmCells(R, P, W, n - 1);
      assert CmRows(R, P, W)[..n][..n - 1] == CmRows(R, P, W)[..n - 1];
      NextMultiple(n - 1, Pow2(P));
    }
  }

  lemma {:induction false} EvenMultiple(n: nat, P: nat)
    requires P > 0
    ensures (n * Pow2(P)) % 2 == 0
  {
    Pow2Halves(P);
    assert n * Pow2(P) == 2 * (n * Pow2(P - 1));
  }

  function NetOf(g: SktConfig): Network.Config
    requires g.P_HLL <= g.H && WidthsOk(g)
  {
    Network.Config(g.N0, g.N, g.hash,
        [[HllRow(g.H, g.P_HLL)], AgmsRows(g.R_AGMS, g.P_AGMS, g.W_AGMS), CmRows(g.R_CM, g.P_CM, g.W_CM)])
  }

  lemma {:induction false} NetIsOk(g: SktConfig)
    requires SktOk(g)
    ensures ConfigOk(NetOf(g)) && Cells(NetOf(g).sketches[CM]) % 2 == 0
  {
    HllRowOk(g.H, g.P_HLL);
    AgmsRowsOk(g.R_AGMS, g.P_AGMS, g.W_AGMS);
    CmRowsOk(g.R_CM, g.P_CM, g.W_CM);
    CmCells(g.R_CM, g.P_CM, g.W_CM, g.R_CM);
    assert CmRows(g.R_CM, g.P_CM, g.W_CM)[..g.R_CM] == CmRows(g.R_CM, g.P_CM, g.W_CM);
    EvenMultiple(g.R_CM, g.P_CM);
  }

  /** Every configuration the source admits meets what the network and the record framing rely on. */
  function Config(g: SktConfig): (cfg: KernelConfig)
    requires SktOk(g)
    ensures KernelOk(cfg) && Paired(cfg)
  {
    NetIsOk(g);
    KernelConfig(NetOf(g), g.P_HLL, L(g), SpareBits(g.N), g.card)
  }

  // HyperLogLog.

  /** A bucket's rank: zero exactly if no word falls into it, and never more than the estimator can represent. */
  lemma {:induction false} BucketRank(hash: Word -> nat, H: nat, P: nat, words: seq<Word>, k: nat)
    requires P <= H
    ensures 0 <= Cell(hash, HllRow(H, P), words, k) <= H - P + 1
    ensures Cell(hash, HllRow(H, P), words, k) == 0 <==>
              forall i :: 0 <= i < |words| ==> HllKey(H, P)(hash(words[i])).key != k
    decreases |words|
  {
    if words != [] {
      var p, x := words[..|words| - 1], words[|words| - 1];
      BucketRank(hash, H, P, p, k);
      HllRowOk(H, P);
      CellAppend(hash, HllRow(H, P), p, x, k);
      assert words == p + [x];
      var rank := HllKey(H, P)(hash(x)).inc;
      assert 1 <= rank <= H - P + 1;
      assert HllRow(H, P).g(rank) == rank;
    }
  }

  /**
   For a job with any words at all the accumulator is the exact harmonic sum, 2^(-rank) for each
   bucket, and `zeros` the count of empty buckets.
   */
  lemma {:induction false} HllExact(hash: Word -> nat, H: nat, P: nat, words: seq<Word>)
    requires P <= H && words != []
    ensures var v := Vector(hash, HllRow(H, P), words);
            && FoldOf(Absorb(P, H - P + 1), RESET, v) == Estimator(Tally(v, 0), RankSum(H - P + 1, v, H - P + 1))
            && RankSum(H - P + 1, v, H - P + 1) < Pow2(P) * Pow2(H - P + 1)
  {
    var v := Vector(hash, HllRow(H, P), words);
    forall k | 0 <= k < |v|
      ensures 0 <= v[k] <= H - P + 1
    {
      BucketRank(hash, H, P, words, k);
    }
    var k := HllKey(H, P)(hash(words[0])).key;
    BucketRank(hash, H, P, words, k);
    assert v[k] != 0;
    EstimatorExact(P, H - P + 1, v);
  }

  // Count-Min.

  /** While there are fewer words than it can count, a cell holds the number of words that select it. */
  lemma {:induction false} CellCounts(hash: Word -> nat, P: nat, W: nat, j: nat, words: seq<Word>, k: nat)
    requires W >= 1 && |words| < Pow2(W)
    ensures Cell(hash, CmRow(P, W, j), words, k) == Occurrences(hash, P, j, words, k)
  {
    CellIsCount(hash, P, W, j, words, k);
    BitSlices.MaskFits(Occurrences(hash, P, j, words, k), W);
  }

  lemma {:induction false} VectorsLength(hash: Word -> nat, specs: seq<RowSpec>, M: nat, words: seq<Word>)
    requires forall j :: 0 <= j < |specs| ==> specs[j].M == M
    ensures |VectorsOf(hash, specs, words)| == |specs| * M
    decreases |specs|
  {
    if specs != [] {
      VectorsLength(hash, specs[..|specs| - 1], M, words);
      NextMultiple(|specs| - 1, M);
    }
  }

  /** Cell `k` of row `j` in the cells of all rows, row by row. */
  lemma {:induction false} VectorAt(hash: Word -> nat, specs: seq<RowSpec>, M: nat, words: seq<Word>, j: nat, k: nat)
    requires (forall i :: 0 <= i < |specs| ==> specs[i].M == M) && j < |specs| && k < M
    ensures Idx(j, k, M) < |VectorsOf(hash, specs, words)|
    ensures VectorsOf(hash, specs, words)[Idx(j, k, M)] == Cell(hash, specs[j], words, k)
    decreases |specs|
  {
    var n := |specs| - 1;
    VectorsLength(hash, specs[..n], M, words);
    IdxValue(j, k, M);
    if j < n {
      VectorAt(hash, specs[..n], M, words, j, k);
    }
  }

  /** Row by row, the cells of all rows. */
  lemma {:induction false} VectorsAt(hash: Word -> nat, specs: seq<RowSpec>, M: nat, words: seq<Word>)
    requires forall j :: 0 <= j < |specs| ==> specs[j].M == M
    ensures |VectorsOf(hash, specs, words)| == |specs| * M
    ensures forall j, k :: 0 <= j < |specs| && 0 <= k < M ==>
              && Idx(j, k, M) < |VectorsOf(hash, specs, words)|
              && VectorsOf(hash, specs, words)[Idx(j, k, M)] == Cell(hash, specs[j], words, k)
  {
    VectorsLength(hash, specs, M, words);
    forall j, k | 0 <= j < |specs| && 0 <= k < M
      ensures Idx(j, k, M) < |VectorsOf(hash, specs, words)|
      ensures VectorsOf(hash, specs, words)[Idx(j, k, M)] == Cell(hash, specs[j], words, k)
    {
      VectorAt(hash, specs, M, words, j, k);
    }
  }

  // The record of a job, read by the host.

  ghost predicate SumsExact(g: SktConfig, agms: seq<int>, words: seq<Word>) {
    && |agms| == g.R_AGMS
    && forall r :: 0 <= r < g.R_AGMS ==>
         && agms[r] == SecondMoment.Pairs(g.hash, g.P_AGMS, r, words, words)
         && agms[r] == BalanceSquares(g.hash, g.P_AGMS, r, words, Pow2(g.P_AGMS))
         && (CollisionFree(g.hash, g.P_AGMS, r, words) ==> agms[r] == Moment2(words))
  }

  ghost predicate BasicExact(o: Output, words: seq<Word>) {
    && o.cnt == |words| && o.sum == Total(words) && 0 <= o.min && 0 <= o.max && Extremes(words, o.min, o.max)
    && o.sumq_hi * TWO_64 + o.sumq == TotalSquares(words)
  }

  ghost predicate EstimateExact(g: SktConfig, cardest: int, words: seq<Word>)
    requires g.P_HLL <= g.H
  {
    var v := Vector(g.hash, HllRow(g.H, g.P_HLL), words);
    && |v| == Pow2(g.P_HLL) && (forall k :: 0 <= k < |v| ==> LargestRank(g.hash, g.H, g.P_HLL, words, k, v[k]))
    && cardest == g.card(Estimator(Tally(v, 0), RankSum(L(g), v, L(g))))
  }

  ghost predicate CountsExact(g: SktConfig, cm: seq<int>, words: seq<Word>) {
    && |cm| == g.R_CM * Pow2(g.P_CM)
    && forall j, k :: 0 <= j < g.R_CM && 0 <= k < Pow2(g.P_CM) ==>
         Idx(j, k, Pow2(g.P_CM)) < |cm| && cm[Idx(j, k, Pow2(g.P_CM))] == Occurrences(g.hash, g.P_CM, j, words, k)
  }

  /** No counter of either sketch can wrap. */
  predicate CountersFit(g: SktConfig, words: seq<Word>) {
    2 <= g.W_AGMS && |words| < Pow2(g.W_AGMS - 1) && |words| < Pow2(g.W_CM)
  }

  /** Conditions under which nothing the kernel computes for `words` wraps. */
  ghost predicate Fits(g: SktConfig, words: seq<Word>) {
    FlitsCovered(g.N0, g.N) && |words| < TWO_32 && CountersFit(g, words)
  }

  lemma {:induction false} SumsAreExact(g: SktConfig, words: seq<Word>)
    requires WidthsOk(g) && CountersFit(g, words) && |words| < TWO_32
    ensures SumsExact(g, RowEnergies(g.hash, AgmsRows(g.R_AGMS, g.P_AGMS, g.W_AGMS), words), words)
  {
    forall r | 0 <= r < g.R_AGMS
      ensures var sum := RowEnergies(g.hash, AgmsRows(g.R_AGMS, g.P_AGMS, g.W_AGMS), words)[r];
              && sum == SecondMoment.Pairs(g.hash, g.P_AGMS, r, words, words)
              && sum == BalanceSquares(g.hash, g.P_AGMS, r, words, Pow2(g.P_AGMS))
              && (CollisionFree(g.hash, g.P_AGMS, r, words) ==> sum == Moment2(words))
    {
      HardwareMoment(g.hash, g.P_AGMS, g.W_AGMS, r, words);
      PairsAreBalances(g.hash, g.P_AGMS, r, words);
    }
  }

  lemma {:induction false} CountsAreExact(g: SktConfig, words: seq<Word>)
    requires WidthsOk(g) && CountersFit(g, words) && |words| < TWO_32
    ensures CountsExact(g, VectorsOf(g.hash, CmRows(g.R_CM, g.P_CM, g.W_CM), words), words)
    ensures All32(VectorsOf(g.hash, CmRows(g.R_CM, g.P_CM, g.W_CM), words))
  {
    var M, cm := Pow2(g.P_CM), VectorsOf(g.hash, CmRows(g.R_CM, g.P_CM, g.W_CM), words);
    VectorsAt(g.hash, CmRows(g.R_CM, g.P_CM, g.W_CM), M, words);
    forall j, k | 0 <= j < g.R_CM && 0 <= k < M
      ensures Idx(j, k, M) < |cm| && cm[Idx(j, k, M)] == Occurrences(g.hash, g.P_CM, j, words, k)
    {
      CellCounts(g.hash, g.P_CM, g.W_CM, j, words, k);
    }
    forall i | 0 <= i < |cm|
      ensures 0 <= cm[i] < TWO_32
    {
      var (j, k) := RowMajor(i, g.R_CM, M);
      assert cm[Idx(j, k, M)] == Occurrences(g.hash, g.P_CM, j, words, k);
    }
  }

  lemma {:induction false} FlattenWidth(flits: seq<seq<Word>>, N: nat)
    requires forall i :: 0 <= i < |flits| ==> |flits[i]| == N
    ensures |Flatten(flits)| == |flits| * N
    decreases |flits|
  {
    if flits != [] {
      FlattenWidth(flits[..|flits| - 1], N);
      NextMultiple(|flits| - 1, N);
    }
  }

  lemma {:induction false} MetricsAreExact(g: SktConfig, flits: seq<seq<Word>>)
    requires g.N > 0 && g.N0 > 0 && flits != [] && Fits(g, Flatten(flits))
    requires forall i :: 0 <= i < |flits| ==> |flits[i]| == g.N0
    ensures var m := MetricsOf(g.N0, Summaries(SpareBits(g.N), flits));
            var words := Flatten(flits);
            words != [] && ExactMetrics(m, words)
  {
    var words := Flatten(flits);
    SpareBitsCover(g.N);
    FlattenWidth(flits, g.N0);
    BitSlices.MulMonotone(1, |flits|, g.N0);
    MetricsExact(SpareBits(g.N), g.N0, flits);
    TotalBounds(words);
    NoWrap(|words|);
  }

  ghost predicate HostReads(g: SktConfig, o: Output, words: seq<Word>, cc: int)
    requires g.P_HLL <= g.H
  {
    && SumsExact(g, o.agms, words)
    && BasicExact(o, words)
    && EstimateExact(g, o.cardest, words)
    && o.cycs == cc
    && CountsExact(g, o.cm, words)
  }

  /** A record has its prescribed length, and in it the host reads the exact statistics of `words`. */
  ghost predicate RecordExact(g: SktConfig, record: seq<int>, words: seq<Word>, cc: int)
    requires g.P_HLL <= g.H
  {
    && |record| == g.R_AGMS + 4 + 1 + Pairs32(g)
    && HostReads(g, Decode(g.R_AGMS, record), words, cc)
  }

  /** The number of 64-bit words for all Count-Min cells. */
  function Pairs32(g: SktConfig): (n: nat)
    ensures g.P_CM > 0 ==> n == g.R_CM * Pow2(g.P_CM - 1)
  {
    if g.P_CM > 0 then
      assert g.R_CM * Pow2(g.P_CM - 1) >= 0;
      g.R_CM * Pow2(g.P_CM - 1)
    else 0
  }

  lemma {:induction false} HalfTheCells(g: SktConfig, n: nat)
    requires g.P_CM > 0 && n == g.R_CM * Pow2(g.P_CM)
    ensures n % 2 == 0 && n / 2 == Pairs32(g)
  {
    Pow2Halves(g.P_CM);
    assert n == 2 * (g.R_CM * Pow2(g.P_CM - 1));
  }

  function EstimateOf(g: SktConfig, words: seq<Word>): int
    requires g.P_HLL <= g.H
  {
    g.card(FoldOf(Absorb(g.P_HLL, L(g)), RESET, Vector(g.hash, HllRow(g.H, g.P_HLL), words)))
  }

  lemma {:induction false} RecordParts(g: SktConfig, flits: seq<seq<Word>>, cc: int)
    requires SktOk(g)
    ensures var words := Flatten(flits);
            ExpectedRecord(Config(g), flits, cc) ==
              Record(RowEnergies(g.hash, AgmsRows(g.R_AGMS, g.P_AGMS, g.W_AGMS), words),
                     DumpWords(MetricsOf(g.N0, Summaries(SpareBits(g.N), flits)), 4),
                     EstimateOf(g, words), cc, VectorsOf(g.hash, CmRows(g.R_CM, g.P_CM, g.W_CM), words))
  {
  }

  ghost predicate ExactMetrics(m: Metrics, words: seq<Word>) {
    MetricsFit(m) && ExactFor(m, words)
  }

  lemma {:induction false} BasicReads(o: Output, m: Metrics, words: seq<Word>)
    requires ExactMetrics(m, words) && o.cnt == m.cnt && o.min == m.min && o.max == m.max && o.sum == m.sum
    requires o.sumq_hi == m.sumq / TWO_64 && o.sumq == m.sumq % TWO_64
    ensures BasicExact(o, words)
  {
    DivNat(m.sumq, TWO_64);
  }

  lemma {:induction false} EstimateReads(g: SktConfig, words: seq<Word>)
    requires SktOk(g) && words != []
    ensures EstimateExact(g, EstimateOf(g, words), words)
  {
    HllExact(g.hash, g.H, g.P_HLL, words);
    forall k | 0 <= k < Pow2(g.P_HLL)
      ensures LargestRank(g.hash, g.H, g.P_HLL, words, k, Vector(g.hash, HllRow(g.H, g.P_HLL), words)[k])
    {
      BucketIsLargest(g.hash, g.H, g.P_HLL, words, k);
    }
  }

  /** The record read back, with its length. */
  lemma {:induction false} RecordReads(g: SktConfig, sums: seq<int>, m: Metrics, est: int, cc: int, cells: seq<int>)
    requires g.P_CM > 0 && |sums| == g.R_AGMS && |cells| == g.R_CM * Pow2(g.P_CM) && All32(cells)
    requires MetricsFit(m) && 0 <= est < TWO_32
    ensures |Record(sums, DumpWords(m, 4), est, cc, cells)| == g.R_AGMS + 4 + 1 + Pairs32(g)
    ensures Decode(g.R_AGMS, Record(sums, DumpWords(m, 4), est, cc, cells))
         == Output(sums, m.cnt, m.sumq / TWO_64, m.min, m.max, m.sum, m.sumq % TWO_64, est, cc, cells)
  {
    HalfTheCells(g, |cells|);
    RecordLength(sums, m, est, cc, cells);
    DecodeRecord(sums, m, est, cc, cells);
  }

  lemma {:induction false} DecodedExact(g: SktConfig, words: seq<Word>, sums: seq<int>, m: Metrics, cc: int,
        cells: seq<int>)
    requires SktOk(g) && words != [] && SumsExact(g, sums, words) && CountsExact(g, cells, words) && All32(cells)
    requires ExactMetrics(m, words) && 0 <= EstimateOf(g, words) < TWO_32
    ensures RecordExact(g, Record(sums, DumpWords(m, 4), EstimateOf(g, words), cc, cells), words, cc)
  {
    var est := EstimateOf(g, words);
    RecordReads(g, sums, m, est, cc, cells);
    BasicReads(Decode(g.R_AGMS, Record(sums, DumpWords(m, 4), est, cc, cells)), m, words);
    EstimateReads(g, words);
  }

  /** The record of a job holds the job's exact statistics. */
  lemma {:induction false} RecordIsExact(g: SktConfig, flits: seq<seq<Word>>, cc: int)
    requires SktOk(g) && flits != [] && Fits(g, Flatten(flits))
    requires forall i :: 0 <= i < |flits| ==> |flits[i]| == g.N0
    requires forall e :: 0 <= g.card(e) < TWO_32
    ensures RecordExact(g, ExpectedRecord(Config(g), flits, cc), Flatten(flits), cc)
  {
    var words := Flatten(flits);
    SumsAreExact(g, words);
    MetricsAreExact(g, flits);
    CountsAreExact(g, words);
    RecordParts(g, flits, cc);
    DecodedExact(g, words, RowEnergies(g.hash, AgmsRows(g.R_AGMS, g.P_AGMS, g.W_AGMS), words),
                 MetricsOf(g.N0, Summaries(SpareBits(g.N), flits)), cc,
                 VectorsOf(g.hash, CmRows(g.R_CM, g.P_CM, g.W_CM), words));
  }

  /** With as many lanes as words per flit, every job that the counters can count has its exact record. */
  lemma {:induction false} FullWidthIsExact(g: SktConfig, flits: seq<seq<Word>>, cc: int)
    requires SktOk(g) && g.N == g.N0 && flits != [] && |Flatten(flits)| < TWO_32 && CountersFit(g, Flatten(flits))
    requires forall i :: 0 <= i < |flits| ==> |flits[i]| == g.N0
    requires forall e :: 0 <= g.card(e) < TWO_32
    ensures RecordExact(g, ExpectedRecord(Config(g), flits, cc), Flatten(flits), cc)
  {
    assert FlitsCovered(g.N0, g.N);
    RecordIsExact(g, flits, cc);
  }

  // For every schedule.

  lemma {:induction false} JobsOfWidth(N: nat, s: seq<Wide>)
    requires WidthIs(N, s)
    ensures forall j :: 0 <= j < |Jobs(s)| ==> Jobs(s)[j] != []
    ensures forall j, i :: 0 <= j < |Jobs(s)| && 0 <= i < |Jobs(s)[j]| ==> |Jobs(s)[j][i]| == N
    ensures forall i :: 0 <= i < |Open(s)| ==> |Open(s)[i]| == N
    decreases |s|
  {
    if s != [] {
      JobsOfWidth(N, s[..|s| - 1]);
    }
  }

  lemma {:induction false} FedOfWidth(cfg: KernelConfig, schedule: seq<Action>)
    requires Legal(cfg, schedule)
    ensures WidthIs(cfg.net.N, Fed(schedule))
    decreases |schedule|
  {
    if schedule != [] {
      FedOfWidth(cfg, schedule[..|schedule| - 1]);
      assert Enabled(cfg, schedule[|schedule| - 1]);
    }
  }

  /**
   For every schedule, every lane count and every width: what the host reads from the
   `j`-th record are the exact statistics of the `j`-th job, as long as they fit.
   */
  lemma {:induction false} SktCorrect(g: SktConfig, schedule: seq<Action>, j: nat)
    requires SktOk(g) && Legal(Config(g), schedule)
    requires j < |Jobs(Run(Config(g), schedule).dst.log)|
    requires forall e :: 0 <= g.card(e) < TWO_32
    ensures j < |Jobs(Fed(schedule))| && j < |Run(Config(g), schedule).comp.ccs|
    ensures var record, words := Jobs(Run(Config(g), schedule).dst.log)[j], Flatten(Jobs(Fed(schedule))[j]);
            Fits(g, words) ==> RecordExact(g, record, words, Run(Config(g), schedule).comp.ccs[j])
  {
    KernelCorrect(Config(g), schedule, j);
    FedOfWidth(Config(g), schedule);
    JobsOfWidth(g.N0, Fed(schedule));
    var flits := Jobs(Fed(schedule))[j];
    if Fits(g, Flatten(flits)) {
      RecordIsExact(g, flits, Run(Config(g), schedule).comp.ccs[j]);
    }
  }

  /** When no stage can move, the host has such a record for every job that was fed, and nothing else. */
  lemma {:induction false} SktComplete(g: SktConfig, schedule: seq<Action>)
    requires SktOk(g) && Legal(Config(g), schedule) && g.R_AGMS > 0
    requires Idle(Config(g), Run(Config(g), schedule))
    ensures |Jobs(Run(Config(g), schedule).dst.log)| == |Jobs(Fed(schedule))|
    ensures Open(Run(Config(g), schedule).dst.log) == []
  {
    KernelComplete(Config(g), schedule);
  }

  /** Record `j` holds the exact statistics of job `j` of `fed`, as long as these fit. */
  ghost predicate JobServed(g: SktConfig, s: State, fed: seq<Wide>, j: nat)
    requires g.P_HLL <= g.H
  {
    && j < |Jobs(fed)| && j < |Jobs(s.dst.log)| && j < |s.comp.ccs|
    && (Fits(g, Flatten(Jobs(fed)[j])) ==> RecordExact(g, Jobs(s.dst.log)[j], Flatten(Jobs(fed)[j]), s.comp.ccs[j]))
  }

  /** Every job of `fed` has been served so, and nothing else has been sent. */
  ghost predicate AllServed(g: SktConfig, s: State, fed: seq<Wide>)
    requires g.P_HLL <= g.H
  {
    && |Jobs(s.dst.log)| == |Jobs(fed)| && Open(s.dst.log) == []
    && forall j :: 0 <= j < |Jobs(fed)| ==> JobServed(g, s, fed, j)
  }

  lemma {:induction false} JobIsServed(g: SktConfig, t: seq<Action>, j: nat)
    requires SktOk(g) && Legal(Config(g), t) && forall e :: 0 <= g.card(e) < TWO_32
    requires j < |Jobs(Run(Config(g), t).dst.log)|
    ensures JobServed(g, Run(Config(g), t), Fed(t), j)
  {
    SktCorrect(g, t, j);
  }

  lemma {:induction false} IdleIsServed(g: SktConfig, t: seq<Action>)
    requires SktOk(g) && g.R_AGMS > 0 && Legal(Config(g), t) && forall e :: 0 <= g.card(e) < TWO_32
    requires Idle(Config(g), Run(Config(g), t))
    ensures AllServed(g, Run(Config(g), t), Fed(t))
  {
    var s := Run(Config(g), t);
    assert |Jobs(s.dst.log)| == |Jobs(Fed(t))| && Open(s.dst.log) == [] by {
      SktComplete(g, t);
    }
    forall j | 0 <= j < |Jobs(s.dst.log)|
      ensures JobServed(g, s, Fed(t), j)
    {
      JobIsServed(g, t, j);
    }
  }

  /** After the schedule `t` every job of `fed` has its exact record, and nothing else has been sent. */
  ghost predicate Served(g: SktConfig, t: seq<Action>, fed: seq<Wide>)
    requires SktOk(g)
  {
    Legal(Config(g), t) && AllServed(g, Run(Config(g), t), fed)
  }

  /** Whatever has been fed, in whatever schedule, the kernel can go on to serve all of it exactly. */
  lemma {:induction false} SktServes(g: SktConfig, schedule: seq<Action>)
    requires SktOk(g) && g.R_AGMS > 0 && Legal(Config(g), schedule) && forall e :: 0 <= g.card(e) < TWO_32
    ensures exists rest ::
              NoFeed(rest) && Legal(Config(g), schedule + rest) && Served(g, schedule + rest, Fed(schedule))
  {
    CanFinish(Config(g), schedule);
    var rest :| NoFeed(rest) && Legal(Config(g), schedule + rest) && Idle(Config(g), Run(Config(g), schedule + rest));
    IdleIsServed(g, schedule + rest);
    NothingFed(schedule, rest);
  }

  lemma {:induction false} IdleServes(g: SktConfig, schedule: seq<Action>, acts: nat -> Action, n: nat)
    requires SktOk(g) && g.R_AGMS > 0 && Legal(Config(g), schedule) && forall e :: 0 <= g.card(e) < TWO_32
    requires Steady(Config(g), acts) && IsIdle(Config(g), Onwards(Config(g), schedule, acts)(n))
    ensures Served(g, schedule + Prefix(acts, n), Fed(schedule))
  {
    OnwardsLegal(Config(g), schedule, acts, n);
    IdleIsServed(g, schedule + Prefix(acts, n));
    NothingFed(schedule, Prefix(acts, n));
  }

  /** From the `k`-th of the following actions on all that the schedule has fed has been served. */
  ghost predicate ServedFrom(g: SktConfig, schedule: seq<Action>, acts: nat -> Action, k: nat)
    requires SktOk(g)
  {
    forall n: nat :: k <= n ==> Served(g, schedule + Prefix(acts, n), Fed(schedule))
  }

  /**
   Whatever has been fed, in whatever schedule: if after that every stage gets its turn again and
   again, there is a point from which on all of it has been served exactly.
   */
  lemma {:induction false} SktServesFairly(g: SktConfig, schedule: seq<Action>, acts: nat -> Action)
    requires SktOk(g) && g.R_AGMS > 0 && Legal(Config(g), schedule) && forall e :: 0 <= g.card(e) < TWO_32
    requires Steady(Config(g), acts) && Fair(Config(g), acts)
    ensures exists k: nat :: ServedFrom(g, schedule, acts, k)
  {
    FairlyIdle(Config(g), schedule, acts);
    var k: nat :| IdleFrom(Config(g), Onwards(Config(g), schedule, acts), k);
    forall n: nat | k <= n
      ensures Served(g, schedule + Prefix(acts, n), Fed(schedule))
    {
      IdleServes(g, schedule, acts, n);
    }
    assert ServedFrom(g, schedule, acts, k);
  }

  /** Whatever has been fed, in whatever schedule: letting the stages act in turn serves all of it. */
  lemma {:induction false} SktServesInTurn(g: SktConfig, schedule: seq<Action>)
    requires SktOk(g) && g.R_AGMS > 0 && Legal(Config(g), schedule) && forall e :: 0 <= g.card(e) < TWO_32
    ensures exists k: nat :: ServedFrom(g, schedule, RoundRobin.InTurn(Config(g)), k)
  {
    RoundRobin.InTurnFair(Config(g));
    SktServesFairly(g, schedule, RoundRobin.InTurn(Config(g)));
  }

  // The same job in software.

  /** The same rows, and counters of the software's width. */
  ghost predicate Alike(g: SktConfig, c: SktCollector) {
    && g.W_AGMS == g.W_CM == COUNTER_BITS
    && CutTo(g.hash, c.hash, g.H)
    && c.r_agms == g.R_AGMS && c.p_agms == g.P_AGMS && c.r_cm == g.R_CM && c.p_cm == g.P_CM
  }

  lemma {:induction false} VectorPermuted(hash: Word -> nat, spec: RowSpec, a: seq<Word>, b: seq<Word>)
    requires RowSpecOk(spec) && multiset(a) == multiset(b)
    ensures Vector(hash, spec, a) == Vector(hash, spec, b)
  {
    forall k | 0 <= k < spec.M
      ensures Cell(hash, spec, a, k) == Cell(hash, spec, b, k)
    {
      CellPermutation(hash, spec, a, b, k);
    }
  }

  lemma {:induction false} VectorsPermuted(hash: Word -> nat, specs: seq<RowSpec>, a: seq<Word>, b: seq<Word>)
    requires (forall j :: 0 <= j < |specs| ==> RowSpecOk(specs[j])) && multiset(a) == multiset(b)
    ensures VectorsOf(hash, specs, a) == VectorsOf(hash, specs, b)
    decreases |specs|
  {
    if specs != [] {
      VectorsPermuted(hash, specs[..|specs| - 1], a, b);
      VectorPermuted(hash, specs[|specs| - 1], a, b);
    }
  }

  lemma {:induction false} RowFits(g: SktConfig, r: nat)
    requires SktOk(g) && r < g.R_AGMS
    ensures (r + 1) * (g.P_AGMS + 1) <= g.H
  {
    BitSlices.MulMonotone(r + 1, g.R_AGMS, g.P_AGMS + 1);
  }

  lemma {:induction false} SumsLikeSoftware(g: SktConfig, c: SktCollector, words: seq<Word>)
    requires SktOk(g) && c.Valid() && Alike(g, c) && multiset(c.items) == multiset(words)
    ensures RowEnergies(g.hash, AgmsRows(g.R_AGMS, g.P_AGMS, g.W_AGMS), words)
            == TableEnergies(c.agms[..], g.R_AGMS, Pow2(g.P_AGMS))
  {
    AgmsRowsOk(g.R_AGMS, g.P_AGMS, g.W_AGMS);
    forall r | 0 <= r < g.R_AGMS
      ensures Vector(g.hash, AgmsRows(g.R_AGMS, g.P_AGMS, g.W_AGMS)[r], words) == RowOf(c.agms[..], r, Pow2(g.P_AGMS))
    {
      RowFits(g, r);
      AgmsRowAgrees(c, g.hash, g.H, r);
      VectorPermuted(g.hash, AgmsRows(g.R_AGMS, g.P_AGMS, g.W_AGMS)[r], c.items, words);
    }
  }

  /** The sums of squares of a table's rows. */
  function TableEnergies(t: seq<int>, R: nat, M: nat): (s: seq<int>)
    ensures |s| == R
  {
    seq(R, r requires 0 <= r < R => FoldOf(AddSquare(), 0, RowOf(t, r, M)))
  }

  /**
   A software collector that has seen the words of a job, in any order, holds the record's
   Count-Min cells, and its AGMS rows have the record's sums of squares.
   */
  lemma {:induction false} RecordLikeSoftware(g: SktConfig, c: SktCollector, flits: seq<seq<Word>>, cc: int)
    requires SktOk(g) && c.Valid() && Alike(g, c) && multiset(c.items) == multiset(Flatten(flits))
    ensures ExpectedRecord(Config(g), flits, cc) ==
              Record(TableEnergies(c.agms[..], g.R_AGMS, Pow2(g.P_AGMS)),
                     DumpWords(MetricsOf(g.N0, Summaries(SpareBits(g.N), flits)), 4),
                     EstimateOf(g, Flatten(flits)), cc, c.cm[..])
  {
    var words := Flatten(flits);
    RecordParts(g, flits, cc);
    SumsLikeSoftware(g, c, words);
    CmRowsOk(g.R_CM, g.P_CM, g.W_CM);
    CmTableAgrees(c, g.hash, g.H);
    VectorsPermuted(g.hash, CmRows(g.R_CM, g.P_CM, g.W_CM), c.items, words);
  }

  /** With hashes of equal width the buckets agree, too. */
  lemma {:induction false} BucketsLikeSoftware(g: SktConfig, c: SktCollector, words: seq<Word>)
    requires SktOk(g) && c.Valid() && Alike(g, c) && c.W == g.H && c.p_hll == g.P_HLL
    requires multiset(c.items) == multiset(words)
    ensures Vector(g.hash, HllRow(g.H, g.P_HLL), words) == c.hll[..]
  {
    var spec := c.HllSpec();
    HllRowOk(g.H, g.P_HLL);
    VectorPermuted(g.hash, spec, c.items, words);
    assert RowIs(c.hll[..], Pow2(g.P_HLL), 0, c.hash, [spec][0], c.items);
    forall k | 0 <= k < Pow2(g.P_HLL)
      ensures Cell(g.hash, spec, c.items, k) == c.hll[Idx(0, k, Pow2(g.P_HLL))]
    {
      forall w: Word
        ensures SameEntry(g.hash, spec, c.hash, spec, w)
      {
        BitSlices.MaskFits(c.hash(w), c.W);
      }
      CellsAgree(g.hash, spec, c.hash, spec, c.items, k);
    }
  }
}
