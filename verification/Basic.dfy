/**
 The basic metrics: count, minimum, maximum, sum and sum of squares of a job, kept in
 registers of limited width and dumped as four 64-bit words.
 */
module Basic {
  import opened Streams
  import opened Monoids
  import opened Lanes

  /** Summary of one flit; the sums have `c` spare bits. */
  datatype Summary = Summary(min: nat, max: nat, sum: nat, sumq: nat)

  /** The accumulators of a job. */
  datatype Metrics = Metrics(cnt: nat, min: nat, max: nat, sum: nat, sumq: nat)

  const ALL_ONES := 0xffff_ffff
  const TWO_96 := 0x1_0000_0000_0000_0000_0000_0000

  function Min(a: nat, b: nat): nat { if b < a then b else a }
  function Max(a: nat, b: nat): nat { if a < b then b else a }

  /** The low part of `a` that a register with `q` states keeps. */
  function Low(a: nat, q: nat): (r: nat)
    requires q > 0
    ensures r < q
    ensures a < q ==> r == a
  {
    a % q
  }

  // Flit summaries.

  function SummaryOf(c: nat, words: seq<Word>): Summary {
    if words == [] then Summary(ALL_ONES, 0, 0, 0)
    else
      var y, x := SummaryOf(c, words[..|words| - 1]), words[|words| - 1];
      Summary(Min(y.min, x), Max(y.max, x),
              Low(y.sum + x, TWO_32 * Pow2(c)), Low(y.sumq + Square(x), TWO_64 * Pow2(c)))
  }

  method Summarise(c: nat, words: seq<Word>) returns (y: Summary)
    ensures y == SummaryOf(c, words)
  {
    y := Summary(ALL_ONES, 0, 0, 0);
    for i := 0 to |words|
      invariant y == SummaryOf(c, words[..i])
    {
      var xx := words[i];
      assert words[..i + 1][..i] == words[..i];
      y := Summary(Min(y.min, xx), Max(y.max, xx),
                   Low(y.sum + xx, TWO_32 * Pow2(c)), Low(y.sumq + Square(xx), TWO_64 * Pow2(c)));
    }
    assert words[..|words|] == words;
  }

  // Accumulation and dump.

  const CLEAR := Metrics(0, ALL_ONES, 0, 0, 0)

  function Accumulate(N0: nat, m: Metrics, x: Summary): Metrics {
    Metrics(Low(m.cnt + N0, TWO_32), Min(m.min, x.min), Max(m.max, x.max),
            Low(m.sum + x.sum, TWO_64), Low(m.sumq + x.sumq, TWO_96))
  }

  function MetricsOf(N0: nat, job: seq<Summary>): Metrics {
    if job == [] then CLEAR else Accumulate(N0, MetricsOf(N0, job[..|job| - 1]), job[|job| - 1])
  }

  /** The `i`-th word of the dump. */
  function DumpWord(m: Metrics, i: nat): int {
    if i == 0 then m.sumq / TWO_64 * TWO_32 + m.cnt
    else if i == 1 then m.max * TWO_32 + m.min
    else if i == 2 then m.sum
    else m.sumq % TWO_64
  }

  function DumpWords(m: Metrics, n: nat): (r: seq<int>)
    ensures |r| == n
  {
    seq(n, i requires 0 <= i < n => DumpWord(m, i))
  }

  datatype BasicState = BasicState(m: Metrics, dump: bool, didx: nat)

  function BasicStep(N0: nat, s: BasicState, src: Fifo<Flit<Summary>>, dst: Fifo<Flit<int>>)
      : (r: (BasicState, Fifo<Flit<Summary>>, Fifo<Flit<int>>))
  {
    if !s.dump then
      if src.Empty() then (s, src, dst)
      else (BasicState(Accumulate(N0, s.m, src.Peek().val), src.Peek().last, s.didx), src.Read(), dst)
    else
      var olast := s.didx == 3;
      ( if olast then BasicState(CLEAR, false, 0) else BasicState(s.m, true, s.didx + 1),
        src,
        dst.Write(Flit(olast, DumpWord(s.m, s.didx))) )
  }

  /** Relation between the consumed jobs `js`, the open one `op`, and the dumped jobs `os` and words `ow`. */
  ghost predicate Accounted(N0: nat, s: BasicState, js: seq<seq<Summary>>, op: seq<Summary>, os: seq<seq<int>>,
        ow: seq<int>) {
    && s.didx < 4
    && |os| == (if s.dump then |js| - 1 else |js|)
    && (forall j :: 0 <= j < |os| ==> os[j] == DumpWords(MetricsOf(N0, js[j]), 4))
    && if s.dump then op == [] && s.m == MetricsOf(N0, js[|js| - 1]) && ow == DumpWords(s.m, s.didx)
       else s.m == MetricsOf(N0, op) && ow == [] && s.didx == 0
  }

  ghost predicate BasicInv(N0: nat, s: BasicState, c: seq<Flit<Summary>>, o: seq<Flit<int>>) {
    Accounted(N0, s, Jobs(c), Open(c), Jobs(o), Open(o))
  }

  lemma {:induction false} AccountConsume(N0: nat, s: BasicState, js: seq<seq<Summary>>, op: seq<Summary>,
        os: seq<seq<int>>, x: Flit<Summary>)
    requires Accounted(N0, s, js, op, os, []) && !s.dump
    ensures var s' := BasicState(Accumulate(N0, s.m, x.val), x.last, s.didx);
            if x.last then Accounted(N0, s', js + [op + [x.val]], [], os, [])
            else Accounted(N0, s', js, op + [x.val], os, [])
  {
    MetricsSnoc(N0, op, x.val);
    assert DumpWords(s.m, 0) == [];
  }

  lemma {:induction false} AccountDump(N0: nat, s: BasicState, js: seq<seq<Summary>>, os: seq<seq<int>>, ow: seq<int>)
    requires Accounted(N0, s, js, [], os, ow) && s.dump
    ensures var w := ow + [DumpWord(s.m, s.didx)];
            if s.didx == 3 then Accounted(N0, BasicState(CLEAR, false, 0), js, [], os + [w], [])
            else Accounted(N0, BasicState(s.m, true, s.didx + 1), js, [], os, w)
  {
    assert DumpWords(s.m, s.didx + 1) == DumpWords(s.m, s.didx) + [DumpWord(s.m, s.didx)];
  }

  /** Each job is dumped as its own four words; the accumulators start the next one cleared. */
  lemma {:induction false} BasicStepInv(N0: nat, s: BasicState, src: Fifo<Flit<Summary>>, dst: Fifo<Flit<int>>)
    requires BasicInv(N0, s, src.Consumed(), dst.log)
    ensures var (s', src', dst') := BasicStep(N0, s, src, dst);
            BasicInv(N0, s', src'.Consumed(), dst'.log)
  {
    var js, op := Jobs(src.Consumed()), Open(src.Consumed());
    if s.dump {
      AccountDump(N0, s, js, Jobs(dst.log), Open(dst.log));
      JobsSnoc(dst.log, Flit(s.didx == 3, DumpWord(s.m, s.didx)));
    } else if !src.Empty() {
      AccountConsume(N0, s, js, op, Jobs(dst.log), src.Peek());
      JobsSnoc(src.Consumed(), src.Peek());
    }
  }

  lemma {:induction false} MetricsSnoc(N0: nat, job: seq<Summary>, x: Summary)
    ensures MetricsOf(N0, job + [x]) == Accumulate(N0, MetricsOf(N0, job), x)
  {
    assert (job + [x])[..|job|] == job;
  }

  class BasicSketch {
    const N0: nat
    var cnt: nat
    var min: nat
    var max: nat
    var sum: nat
    var sumq: nat
    var dump: bool
    var didx: nat

    function View(): BasicState
      reads this
    {
      BasicState(Metrics(cnt, min, max, sum, sumq), dump, didx)
    }

    constructor (N0: nat)
      ensures this.N0 == N0 && View() == BasicState(CLEAR, false, 0)
    {
      this.N0 := N0;
      cnt, min, max, sum, sumq := 0, ALL_ONES, 0, 0, 0;
      dump, didx := false, 0;
    }

    method Step(src: Stream<Flit<Summary>>, dst: Stream<Flit<int>>)
      requires didx < 4 && (dump || didx == 0)
      modifies this, src, dst
      ensures var (s, i, o) := BasicStep(N0, old(View()), old(src.fifo), old(dst.fifo));
              View() == s && src.fifo == i && dst.fifo == o
    {
      if !dump {
        if !src.fifo.Empty() {
          var x := src.fifo.Peek();
          src.fifo := src.fifo.Read();
          cnt := Low(cnt + N0, TWO_32);
          min := Min(min, x.val.min);
          max := Max(max, x.val.max);
          sum := Low(sum + x.val.sum, TWO_64);
          sumq := Low(sumq + x.val.sumq, TWO_96);
          dump := x.last;
        }
      } else {
        var olast := didx == 3;
        var odat: int;
        match didx {
          case 0 => odat := sumq / TWO_64 * TWO_32 + cnt;
          case 1 => odat := max * TWO_32 + min;
          case 2 => odat := sum;
          case _ => odat := sumq % TWO_64;
        }
        dst.fifo := dst.fifo.Write(Flit(olast, odat));
        didx := (didx + 1) % 4;
        if olast {
          cnt, min, max, sum, sumq := 0, ALL_ONES, 0, 0, 0;
          dump := false;
        }
      }
    }
  }

  // Exactness.

  function Total(words: seq<Word>): nat {
    if words == [] then 0 else Total(words[..|words| - 1]) + words[|words| - 1]
  }

  function TotalSquares(words: seq<Word>): nat {
    if words == [] then 0
    else TotalSquares(words[..|words| - 1]) + Square(words[|words| - 1])
  }

  /** `lo` and `hi` are the extremes of `words`, or the register reset values if there are none. */
  predicate Extremes(words: seq<Word>, lo: nat, hi: nat) {
    && (forall i :: 0 <= i < |words| ==> lo <= words[i] <= hi)
    && (words == [] ==> lo == ALL_ONES && hi == 0)
    && (words != [] ==> lo in words && hi in words)
  }

  lemma {:induction false} TotalBounds(words: seq<Word>)
    ensures Total(words) <= |words| * ALL_ONES
    ensures TotalSquares(words) <= |words| * (ALL_ONES * ALL_ONES)
    decreases |words|
  {
    if words != [] {
      TotalBounds(words[..|words| - 1]);
      SquareBound(words[|words| - 1]);
    }
  }

  lemma {:induction false} SquareBound(x: Word)
    ensures Square(x) <= ALL_ONES * ALL_ONES
  {
    var d := ALL_ONES - x;
    assert ALL_ONES * ALL_ONES == Square(x) + 2 * x * d + d * d;
  }

  lemma {:induction false} TotalConcat(a: seq<Word>, b: seq<Word>)
    ensures Total(a + b) == Total(a) + Total(b)
    ensures TotalSquares(a + b) == TotalSquares(a) + TotalSquares(b)
    decreases |b|
  {
    if b == [] {
      assert a + b == a;
    } else {
      assert (a + b)[..|a + b| - 1] == a + b[..|b| - 1];
      TotalConcat(a, b[..|b| - 1]);
    }
  }

  lemma {:induction false} ExtremesConcat(a: seq<Word>, lo: nat, hi: nat, b: seq<Word>, lo': nat, hi': nat)
    requires Extremes(a, lo, hi) && Extremes(b, lo', hi')
    ensures Extremes(a + b, Min(lo, lo'), Max(hi, hi'))
  {
  }

  /** A flit's summary is exact when the spare bits cover its word count. */
  lemma {:induction false} SummaryExact(c: nat, words: seq<Word>)
    requires |words| <= Pow2(c)
    ensures var y := SummaryOf(c, words);
            y.sum == Total(words) && y.sumq == TotalSquares(words) && Extremes(words, y.min, y.max)
    decreases |words|
  {
    if words != [] {
      var p, x := words[..|words| - 1], words[|words| - 1];
      SummaryExact(c, p);
      TotalBounds(words);
      SpareBits(|words|, Pow2(c));
      assert words == p + [x];
      ExtremesConcat(p, SummaryOf(c, p).min, SummaryOf(c, p).max, [x], x, x);
    }
  }

  lemma {:induction false} SpareBits(n: nat, p: nat)
    requires 0 < n <= p
    ensures n * ALL_ONES < TWO_32 * p && n * (ALL_ONES * ALL_ONES) < TWO_64 * p
  {
  }

  function AllOnes(n: nat): (s: seq<Word>)
    ensures |s| == n
  {
    seq(n, _ => ALL_ONES)
  }

  lemma {:induction false} TotalAllOnes(n: nat)
    ensures Total(AllOnes(n)) == n * ALL_ONES
  {
    if n > 0 {
      TotalAllOnes(n - 1);
      assert AllOnes(n)[..n - 1] == AllOnes(n - 1);
    }
  }

  /** Flit sums are exact for every flit if and only if the spare bits cover the flit width. */
  lemma {:induction false} SumExactIff(c: nat, N0: nat)
    requires N0 < TWO_32
    ensures (forall words: seq<Word> :: |words| == N0 ==> SummaryOf(c, words).sum == Total(words)) <==> N0 <= Pow2(c)
  {
    if N0 <= Pow2(c) {
      forall words: seq<Word> | |words| == N0
        ensures SummaryOf(c, words).sum == Total(words)
      {
        SummaryExact(c, words);
      }
    } else {
      TotalAllOnes(N0);
      var p := Pow2(c);
      assert N0 * ALL_ONES >= (p + 1) * ALL_ONES == p * TWO_32 + ALL_ONES - p;
      SummarySumBelow(c, AllOnes(N0));
      assert SummaryOf(c, AllOnes(N0)).sum != Total(AllOnes(N0));
    }
  }

  lemma {:induction false} SummarySumBelow(c: nat, words: seq<Word>)
    ensures SummaryOf(c, words).sum < TWO_32 * Pow2(c)
  {
  }

  function Summaries(c: nat, flits: seq<seq<Word>>): (r: seq<Summary>)
    ensures |r| == |flits|
  {
    seq(|flits|, i requires 0 <= i < |flits| => SummaryOf(c, flits[i]))
  }

  ghost predicate ExactFor(m: Metrics, words: seq<Word>) {
    m.cnt == |words| && m.sum == Total(words) && m.sumq == TotalSquares(words) && Extremes(words, m.min, m.max)
  }

  lemma {:induction false} AccumulateExact(N0: nat, m: Metrics, p: seq<Word>, y: Summary, x: seq<Word>)
    requires ExactFor(m, p) && |x| == N0 && |p| + N0 < TWO_32
    requires y.sum == Total(x) && y.sumq == TotalSquares(x) && Extremes(x, y.min, y.max)
    ensures ExactFor(Accumulate(N0, m, y), p + x)
  {
    TotalConcat(p, x);
    TotalBounds(p + x);
    NoWrap(|p + x|);
    ExtremesConcat(p, m.min, m.max, x, y.min, y.max);
  }

  /** No accumulator wraps while the padded item count stays below 2^32. */
  lemma {:induction false} MetricsExact(c: nat, N0: nat, flits: seq<seq<Word>>)
    requires 0 < N0 <= Pow2(c)
    requires forall i :: 0 <= i < |flits| ==> |flits[i]| == N0
    requires |flits| * N0 < TWO_32
    ensures ExactFor(MetricsOf(N0, Summaries(c, flits)), Flatten(flits))
    ensures |Flatten(flits)| == |flits| * N0
    decreases |flits|
  {
    if flits != [] {
      var p, x := flits[..|flits| - 1], flits[|flits| - 1];
      NextMultiple(|p|, N0);
      MetricsExact(c, N0, p);
      FlitExact(c, N0, p, x);
      assert flits == p + [x];
    }
  }

  lemma {:induction false} FlitExact(c: nat, N0: nat, p: seq<seq<Word>>, x: seq<Word>)
    requires 0 < N0 <= Pow2(c) && |x| == N0 && |Flatten(p)| + N0 < TWO_32
    requires ExactFor(MetricsOf(N0, Summaries(c, p)), Flatten(p))
    ensures ExactFor(MetricsOf(N0, Summaries(c, p + [x])), Flatten(p + [x])) && |Flatten(p + [x])| == |Flatten(p)| + N0
  {
    FlattenSnoc(p, x);
    assert Summaries(c, p + [x])[..|p|] == Summaries(c, p);
    SummaryExact(c, x);
    AccumulateExact(N0, MetricsOf(N0, Summaries(c, p)), Flatten(p), SummaryOf(c, x), x);
  }

  lemma {:induction false} NoWrap(n: nat)
    requires n < TWO_32
    ensures n * ALL_ONES < TWO_64 && n * (ALL_ONES * ALL_ONES) < TWO_96
  {
  }
}
