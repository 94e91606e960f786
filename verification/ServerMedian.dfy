/**
 The median the server takes of the row sums of its merged collector. The column it puts them
 into may have more rows than the collector; the rows beyond are zero and are sorted in.
 */
module ServerMedian {
  import opened Streams
  import opened Monoids
  import opened Lanes
  import opened Sketches
  import opened Reassembly
  import opened SoftwareCollector
  import opened SecondMoment
  import opened Drivers
  import opened Connections
  import opened ServerSchedules
  import opened ServerResult
  import HllEstimation
  import Medians
  import MergeCondition

  /** The row sums of the sketch of `words`. */
  function Moments(g: Settings, words: seq<Word>): (r: seq<int>)
    ensures |r| == g.ar
  {
    seq(g.ar, i requires 0 <= i < g.ar => Register(Pairs(g.hash, g.ap, i, words, words)))
  }

  /** The first `n` of the sums, with zeros where there are not so many. */
  function Padded(sums: seq<int>, n: nat): (r: seq<int>)
    ensures |r| == n
  {
    seq(n, i requires 0 <= i < n => if i < |sums| then sums[i] else 0)
  }

  lemma {:induction false} RowSum(c: SktCollector, words: seq<Word>, i: nat)
    requires Sketch(c, words) && i < c.r_agms
    ensures AddSquares(0, RowOf(c.agms[..], i, Pow2(c.p_agms))) == Register(Pairs(c.hash, c.p_agms, i, words, words))
  {
    assert RowIs(c.agms[..], Pow2(c.p_agms), i, c.hash, c.AgmsSpecs()[i], words);
    SoftwareMoment(c.agms[..], c.p_agms, i, c.hash, words);
  }

  /** Twice the median of a column with `rows` rows that the collector has been merged into. */
  method ColumnMedian(c: SktCollector, rows: nat, ghost g: Settings, ghost words: seq<Word>) returns (twice: int)
    requires SettingsOk(g) && Made(c, g) && Sketch(c, words) && 0 < rows && g.ar <= 2 * rows
    ensures twice == TwiceMedian(Padded(Moments(g, words), rows))
  {
    ghost var sums := Moments(g, words);
    var cols := new SktCollector(c.W, c.hash, 0, rows, 1, 0, 0);
    assert Pow2(1) == 2;
    AllZero(cols);
    cols.MergeColumns(c);
    forall i | 0 <= i < g.ar
      ensures cols.agms[i] == sums[i]
    {
      RowSum(c, words, i);
    }
    assert cols.agms[..rows] == Padded(sums, rows);
    twice := cols.GetMedian();
  }

  /** The server to its end: the merged collector, the number of items, and twice the median. */
  method ServeWithMedian(streams: seq<seq<Byte>>, M: nat, schedule: seq<(nat, Move)>, g: Settings, rows: nat)
    returns (first: Option<SktCollector>, items: nat, twice: int)
    requires M > 0 && |streams| > 0 && SettingsOk(g) && 0 < rows && g.ar <= 2 * rows
    ensures first.Some? <==> AllFinal(M, AllAfter(M, streams, schedule))
    ensures first.Some? ==> Sketch(first.value, AllWords(streams)) && items == |AllWords(streams)|
    ensures first.Some? ==> twice == TwiceMedian(Padded(Moments(g, AllWords(streams)), rows))
  {
    first, items := Serve(streams, M, schedule, g);
    twice := 0;
    if first.Some? {
      twice := ColumnMedian(first.value, rows, g, AllWords(streams));
    }
  }

  // When that is the median of the row sums.

  lemma {:induction false} SameRows(g: Settings, words: seq<Word>)
    ensures Padded(Moments(g, words), g.ar) == Moments(g, words)
  {
  }

  lemma {:induction false} InRange(x: int)
    ensures 0 - Pow2(COUNTER_BITS - 1) <= Register(x) < Pow2(COUNTER_BITS - 1)
  {
    Pow2Halves(COUNTER_BITS);
  }

  lemma {:induction false} WrapDiffers(a: int, b: int, c: int, q: nat, low: int)
    requires q >= 1 && low <= b < low + q && low <= c < low + q
    ensures Wrap(a + b, q, low) == Wrap(a + c, q, low) <==> b == c
  {
    if Wrap(a + b, q, low) == Wrap(a + c, q, low) {
      var r := Wrap(a + b, q, low);
      SmallDifference(r - (a + b), r - (a + c), q);
    }
  }

  /** Different values added to the same one in 32 bits give different sums. */
  lemma {:induction false} SumsDiffer(a: int, b: int, c: int)
    requires 0 - Pow2(COUNTER_BITS - 1) <= b < Pow2(COUNTER_BITS - 1)
    requires 0 - Pow2(COUNTER_BITS - 1) <= c < Pow2(COUNTER_BITS - 1)
    ensures AddSigned(a, b) == AddSigned(a, c) <==> b == c
  {
    Pow2Halves(COUNTER_BITS);
    WrapDiffers(a, b, c, Pow2(COUNTER_BITS), 0 - Pow2(COUNTER_BITS - 1));
  }

  /** A register pair adds up to the same as twice one of them if and only if they are equal. */
  lemma {:induction false} TwiceOne(a: int, b: int)
    requires 0 - Pow2(COUNTER_BITS - 1) <= a < Pow2(COUNTER_BITS - 1)
    requires 0 - Pow2(COUNTER_BITS - 1) <= b < Pow2(COUNTER_BITS - 1)
    ensures (AddSigned(a, b) == AddSigned(a, a) <==> b == a) && AddSigned(b, a) == AddSigned(a, b)
  {
    SumsDiffer(a, b, a);
  }

  ghost predicate Registers(s: seq<int>) {
    forall i :: 0 <= i < |s| ==> 0 - Pow2(COUNTER_BITS - 1) <= s[i] < Pow2(COUNTER_BITS - 1)
  }

  lemma {:induction false} MomentsFit(g: Settings, words: seq<Word>)
    ensures Registers(Moments(g, words))
  {
    forall i | 0 <= i < g.ar
      ensures 0 - Pow2(COUNTER_BITS - 1) <= Moments(g, words)[i] < Pow2(COUNTER_BITS - 1)
    {
      InRange(Pairs(g.hash, g.ap, i, words, words));
    }
  }

  lemma {:induction false} SortedFit(s: seq<int>)
    requires Registers(s)
    ensures Registers(Medians.Sorted(s))
  {
    var b := Medians.Sorted(s);
    Medians.SortedSorts(s);
    forall i | 0 <= i < |b|
      ensures 0 - Pow2(COUNTER_BITS - 1) <= b[i] < Pow2(COUNTER_BITS - 1)
    {
      assert b[i] in multiset(b);
      assert b[i] in s;
    }
  }

  lemma {:induction false} PaddedByOne(sums: seq<int>)
    ensures Padded(sums, |sums| + 1) == sums + [0]
  {
  }

  /**
   With an odd number of row sums and one row more the median taken is the median of the sums
   if and only if that is the value closest to zero between its neighbours.
   */
  lemma {:induction false} OneRowMoreIff(sums: seq<int>, m: nat)
    requires |sums| == 2 * m + 1 && m > 0 && Registers(sums)
    ensures var b := Medians.Sorted(sums);
            TwiceMedian(Padded(sums, |sums| + 1)) == TwiceMedian(sums) <==> b[m] == Medians.Clamp(0, b[m - 1], b[m + 1])
  {
    var b := Medians.Sorted(sums);
    PaddedByOne(sums);
    SortedFit(sums);
    Medians.OneValueMore(sums, 0, m);
    TwiceOne(b[m], Medians.Clamp(0, b[m - 1], b[m + 1]));
  }

  /**
   The server, with five rows and a column of six: it takes the median of its row sums if and
   only if the third of them, sorted, is the value closest to zero between the second and the
   fourth; as long as all of them fit, if and only if the third and the second are equal.
   */
  lemma {:induction false} ServerMedianIff(g: Settings, words: seq<Word>)
    requires g.ar == 5
    ensures var sums, b := Moments(g, words), Medians.Sorted(Moments(g, words));
            && (TwiceMedian(Padded(sums, 6)) == TwiceMedian(sums) <==> b[2] == Medians.Clamp(0, b[1], b[3]))
            && ((forall i :: 0 <= i < 5 ==> Pairs(g.hash, g.ap, i, words, words) < 0x8000_0000) ==>
                  (TwiceMedian(Padded(sums, 6)) == TwiceMedian(sums) <==> b[2] == b[1]))
  {
    var sums, b := Moments(g, words), Medians.Sorted(Moments(g, words));
    MomentsFit(g, words);
    OneRowMoreIff(sums, 2);
    if forall i :: 0 <= i < 5 ==> Pairs(g.hash, g.ap, i, words, words) < 0x8000_0000 {
      forall i | 0 <= i < 5
        ensures sums[i] >= 0
      {
        SumNatural(g.hash, g.ap, i, words);
      }
      Medians.SortedSorts(sums);
      assert b[1] in multiset(b) && b[1] in sums;
    }
  }

  lemma {:induction false} SumNatural(hash: Word -> nat, P: nat, i: nat, words: seq<Word>)
    requires Pairs(hash, P, i, words, words) < 0x8000_0000
    ensures Register(Pairs(hash, P, i, words, words)) >= 0
  {
    MomentFitsIff(hash, P, i, words);
    RowIsPairs(hash, P, i, words);
    SumSquaresNatural(ExactRow(hash, P, i, words));
  }

  // An input for which it is not.

  lemma {:induction false} TwoItems(hash: Word -> nat, P: nat, j: nat, a: Word, b: Word)
    ensures var e, f := SlotOf(hash, P, j, a), SlotOf(hash, P, j, b);
            Pairs(hash, P, j, [a, b], [a, b]) == Match(e, e) + Match(e, f) + Match(f, e) + Match(f, f)
  {
    var s := [a, b];
    assert s[..1] == [a] && [a][..0] == [];
    assert Against(hash, P, j, a, [a]) == Match(SlotOf(hash, P, j, a), SlotOf(hash, P, j, a));
    assert Against(hash, P, j, b, [a]) == Match(SlotOf(hash, P, j, b), SlotOf(hash, P, j, a));
    assert Pairs(hash, P, j, [a], s) == Against(hash, P, j, a, s);
  }

  lemma {:induction false} NoBits(h: nat, lo: nat, len: nat)
    requires h < Pow2(lo)
    ensures Slice(h, lo, len) == 0
  {
    DivModUnique(0, h, Pow2(lo));
    DivModUnique(0, 0, Pow2(len));
  }

  lemma {:induction false} NoWord(j: nat, w: Word)
    requires w == 0
    ensures SlotOf(MergeCondition.Ident(), 13, j, w) == Slot(0, -1)
  {
    NoBits(w, j * 14, 13);
    NoBits(w, j * 14 + 13, 1);
  }

  /** The slice of a number whose upper part is `t`, whose slice is `v`, and whose lower part is `r`. */
  lemma {:induction false} SliceIs(h: nat, lo: nat, len: nat, t: nat, v: nat, r: nat, A: nat, B: nat)
    requires Pow2(lo) == A && Pow2(len) == B && v < B && r < A && h == (t * B + v) * A + r
    ensures Slice(h, lo, len) == v
  {
    DivModUnique(t * B + v, r, A);
    DivModUnique(t, v, B);
  }

  lemma {:induction false} LowPowers()
    ensures Pow2(0) == 1 && Pow2(1) == 2 && Pow2(13) == 0x2000 && Pow2(14) == 0x4000 && Pow2(15) == 0x8000
  {
  }

  /** Bits 0 and 14 of a word are set: the lowest bits of its cells in rows 0 and 1. */
  lemma {:induction false} FirstRows(w: nat)
    requires w == 0x4001
    ensures Slice(w, 0, 13) == 1 && Slice(w, 13, 1) == 0 && Slice(w, 14, 13) == 1
  {
    LowPowers();
    SliceIs(w, 0, 13, 2, 1, 0, 1, 0x2000);
    SliceIs(w, 13, 1, 1, 0, 1, 0x2000, 2);
    SliceIs(w, 14, 13, 0, 1, 1, 0x4000, 0x2000);
  }

  lemma {:induction false} NoMoreBits(w: nat, lo: nat, len: nat)
    requires w < 0x8000 && lo >= 15
    ensures Slice(w, lo, len) == 0
  {
    LowPowers();
    HllEstimation.Pow2Monotone(15, lo);
    NoBits(w, lo, len);
  }

  lemma {:induction false} TwoBits(j: nat, w: Word)
    requires w == 0x4001
    ensures SlotOf(MergeCondition.Ident(), 13, j, w) == Slot(if j < 2 then 1 else 0, -1)
  {
    if j < 2 {
      FirstRows(w);
    } else {
      NoMoreBits(w, j * 14, 13);
    }
    if j > 0 {
      NoMoreBits(w, j * 14 + 13, 1);
    }
  }

  lemma {:induction false} FiveSums(g: Settings, a: Word, b: Word)
    requires g.hash == MergeCondition.Ident() && g.ar == 5 && g.ap == 13 && a == 0 && b == 0x4001
    ensures Moments(g, [a, b]) == [2, 2, 4, 4, 4]
  {
    forall j | 0 <= j < 5
      ensures Moments(g, [a, b])[j] == if j < 2 then 2 else 4
    {
      NoWord(j, a);
      TwoBits(j, b);
      TwoItems(g.hash, 13, j, a, b);
      CounterWidth();
      RegisterHolds(2);
      RegisterHolds(4);
    }
  }

  lemma {:induction false} SmallSums(x: int, y: int)
    requires 0 <= x <= 4 && 0 <= y <= 4
    ensures AddSigned(x, y) == x + y
  {
    CounterWidth();
    RegisterHolds(x + y);
  }

  lemma {:induction false} MiddleOfFive(sums: seq<int>)
    requires sums == [2, 2, 4, 4, 4]
    ensures Medians.Middle(Medians.Sorted(sums)) == (4, 4) && Medians.Middle(Medians.Sorted(sums + [0])) == (2, 4)
  {
    Medians.AscendingSorted(sums);
    Medians.OneValueMore(sums, 0, 2);
  }

  /** For the words 0 and 0x4001 and IDENT the server takes a median of 3, while that of its row sums is 4. */
  lemma {:induction false} MedianMissed(g: Settings, a: Word, b: Word)
    requires g.hash == MergeCondition.Ident() && g.ar == 5 && g.ap == 13 && a == 0 && b == 0x4001
    ensures TwiceMedian(Padded(Moments(g, [a, b]), 6)) == 6 && TwiceMedian(Moments(g, [a, b])) == 8
  {
    var sums := Moments(g, [a, b]);
    FiveSums(g, a, b);
    MiddleOfFive(sums);
    PaddedByOne(sums);
    SmallSums(2, 4);
    SmallSums(4, 4);
  }
}
