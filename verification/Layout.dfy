/**
 The host's view of a record: 64-bit words stored little-endian and read through a
 structure of 64-bit and 32-bit members.
 */
module Layout {
  import opened Lanes
  import opened Basic
  import opened Compose
  import opened Records

  datatype Output = Output(
    agms: seq<int>,
    cnt: int, sumq_hi: int, min: int, max: int,
    sum: int, sumq: int,
    cardest: int, cycs: int,
    cm: seq<int>)

  /** The 32-bit halves of the words in memory order. */
  function Halves(words: seq<int>): (r: seq<int>)
    ensures |r| == 2 * |words|
  {
    seq(2 * |words|, i requires 0 <= i < 2 * |words| =>
      if i % 2 == 0 then words[i / 2] % TWO_32 else words[i / 2] / TWO_32)
  }

  function Wide64(h: seq<int>, i: nat): int
    requires i + 1 < |h|
  {
    h[i] + h[i + 1] * TWO_32
  }

  /** Read a record of `R` row sums through the host's structure. */
  function Decode(R: nat, words: seq<int>): Output
    requires |words| >= R + 5
  {
    var h := Halves(words);
    Output(seq(R, r requires 0 <= r < R => Wide64(h, 2 * r)),
           h[2 * R], h[2 * R + 1], h[2 * R + 2], h[2 * R + 3],
           Wide64(h, 2 * R + 4), Wide64(h, 2 * R + 6),
           h[2 * R + 8], h[2 * R + 9],
           h[2 * R + 10..])
  }

  predicate All32(s: seq<int>) {
    forall i :: 0 <= i < |s| ==> 0 <= s[i] < TWO_32
  }

  predicate MetricsFit(m: Metrics) {
    m.cnt < TWO_32 && m.min < TWO_32 && m.max < TWO_32 && m.sum < TWO_64 && m.sumq < TWO_96
  }

  lemma {:induction false} Unpack(lo: int, hi: int)
    requires 0 <= lo < TWO_32
    ensures Pack(lo, hi) % TWO_32 == lo && Pack(lo, hi) / TWO_32 == hi
  {
  }

  lemma {:induction false} SquareWords(sumq: nat)
    requires sumq < TWO_96
    ensures sumq / TWO_64 < TWO_32 && 0 <= sumq % TWO_64 < TWO_64
  {
  }

  /** Each record has the fixed number of words. */
  lemma {:induction false} RecordLength(sums: seq<int>, m: Metrics, estimate: int, cc: int, cells: seq<int>)
    ensures |Record(sums, DumpWords(m, 4), estimate, cc, cells)| == |sums| + 4 + 1 + |cells| / 2
  {
  }

  lemma {:induction false} RecordWords(sums: seq<int>, m: Metrics, estimate: int, cc: int, cells: seq<int>, i: nat)
    requires i < |sums| + 5 + |cells| / 2
    ensures var R := |sums|;
            Record(sums, DumpWords(m, 4), estimate, cc, cells)[i] ==
              if i < R then sums[i]
              else if i < R + 4 then DumpWord(m, i - R)
              else if i == R + 4 then Pack(estimate, cc)
              else Pack(cells[2 * (i - R - 5)], cells[2 * (i - R - 5) + 1])
  {
  }

  lemma {:induction false} HalvesAt(words: seq<int>, i: nat)
    requires i < |words|
    ensures Halves(words)[2 * i] == words[i] % TWO_32
    ensures Halves(words)[2 * i + 1] == words[i] / TWO_32
  {
    assert (2 * i) / 2 == i && (2 * i + 1) / 2 == i && (2 * i) % 2 == 0 && (2 * i + 1) % 2 == 1;
  }

  lemma {:induction false} Wide64At(words: seq<int>, i: nat)
    requires i < |words|
    ensures Wide64(Halves(words), 2 * i) == words[i]
  {
    HalvesAt(words, i);
  }

  lemma {:induction false} CellHalf(words: seq<int>, cells: seq<int>, R: nat, k: nat)
    requires All32(cells) && |cells| % 2 == 0 && k < |cells| && |words| == R + 5 + |cells| / 2
    requires words[R + 5 + k / 2] == Pack(cells[2 * (k / 2)], cells[2 * (k / 2) + 1])
    ensures Halves(words)[2 * R + 10 + k] == cells[k]
  {
    var t := k / 2;
    HalvesAt(words, R + 5 + t);
    Unpack(cells[2 * t], cells[2 * t + 1]);
  }

  lemma {:induction false} DecodeCells(sums: seq<int>, m: Metrics, estimate: int, cc: int, cells: seq<int>)
    requires All32(cells) && |cells| % 2 == 0
    ensures Halves(Record(sums, DumpWords(m, 4), estimate, cc, cells))[2 * |sums| + 10..] == cells
  {
    var R, words := |sums|, Record(sums, DumpWords(m, 4), estimate, cc, cells);
    RecordLength(sums, m, estimate, cc, cells);
    forall k | 0 <= k < |cells|
      ensures Halves(words)[2 * R + 10 + k] == cells[k]
    {
      RecordWords(sums, m, estimate, cc, cells, R + 5 + k / 2);
      CellHalf(words, cells, R, k);
    }
  }

  lemma {:induction false} DecodeSums(sums: seq<int>, m: Metrics, estimate: int, cc: int, cells: seq<int>)
    ensures var h := Halves(Record(sums, DumpWords(m, 4), estimate, cc, cells));
            && |h| >= 2 * |sums| + 10
            && forall r :: 0 <= r < |sums| ==> Wide64(h, 2 * r) == sums[r]
  {
    var words := Record(sums, DumpWords(m, 4), estimate, cc, cells);
    RecordLength(sums, m, estimate, cc, cells);
    forall r | 0 <= r < |sums|
      ensures Wide64(Halves(words), 2 * r) == sums[r]
    {
      RecordWords(sums, m, estimate, cc, cells, r);
      Wide64At(words, r);
    }
  }

  lemma {:induction false} DumpHalves(m: Metrics, words: seq<int>, R: nat)
    requires MetricsFit(m) && |words| >= R + 4 && forall i :: 0 <= i < 4 ==> words[R + i] == DumpWord(m, i)
    ensures var h := Halves(words);
            && h[2 * R] == m.cnt && h[2 * R + 1] == m.sumq / TWO_64
            && h[2 * R + 2] == m.min && h[2 * R + 3] == m.max
            && Wide64(h, 2 * R + 4) == m.sum && Wide64(h, 2 * R + 6) == m.sumq % TWO_64
  {
    assert words[R + 0] == DumpWord(m, 0) && words[R + 1] == DumpWord(m, 1);
    assert words[R + 2] == DumpWord(m, 2) && words[R + 3] == DumpWord(m, 3);
    SquareWords(m.sumq);
    HalvesAt(words, R);
    Unpack(m.cnt, m.sumq / TWO_64);
    HalvesAt(words, R + 1);
    Unpack(m.min, m.max);
    Wide64At(words, R + 2);
    Wide64At(words, R + 3);
  }

  lemma {:induction false} DumpedWords(sums: seq<int>, m: Metrics, estimate: int, cc: int, cells: seq<int>)
    ensures var words := Record(sums, DumpWords(m, 4), estimate, cc, cells);
            |words| >= |sums| + 4 && forall i :: 0 <= i < 4 ==> words[|sums| + i] == DumpWord(m, i)
  {
    RecordLength(sums, m, estimate, cc, cells);
    forall i | 0 <= i < 4
      ensures Record(sums, DumpWords(m, 4), estimate, cc, cells)[|sums| + i] == DumpWord(m, i)
    {
      RecordWords(sums, m, estimate, cc, cells, |sums| + i);
    }
  }

  lemma {:induction false} DecodeMetrics(sums: seq<int>, m: Metrics, estimate: int, cc: int, cells: seq<int>)
    requires MetricsFit(m)
    ensures var R, h := |sums|, Halves(Record(sums, DumpWords(m, 4), estimate, cc, cells));
            && |h| >= 2 * R + 10
            && h[2 * R] == m.cnt && h[2 * R + 1] == m.sumq / TWO_64
            && h[2 * R + 2] == m.min && h[2 * R + 3] == m.max
            && Wide64(h, 2 * R + 4) == m.sum && Wide64(h, 2 * R + 6) == m.sumq % TWO_64
  {
    var R, words := |sums|, Record(sums, DumpWords(m, 4), estimate, cc, cells);
    RecordLength(sums, m, estimate, cc, cells);
    DumpedWords(sums, m, estimate, cc, cells);
    DumpHalves(m, words, R);
  }

  lemma {:induction false} DecodeEstimate(sums: seq<int>, m: Metrics, estimate: int, cc: int, cells: seq<int>)
    requires 0 <= estimate < TWO_32
    ensures var R, h := |sums|, Halves(Record(sums, DumpWords(m, 4), estimate, cc, cells));
            |h| >= 2 * R + 10 && h[2 * R + 8] == estimate && h[2 * R + 9] == cc
  {
    var R, words := |sums|, Record(sums, DumpWords(m, 4), estimate, cc, cells);
    RecordLength(sums, m, estimate, cc, cells);
    RecordWords(sums, m, estimate, cc, cells, R + 4);
    HalvesAt(words, R + 4);
    Unpack(estimate, cc);
  }

  /** The words of a record: which value is in which bits of which word. */
  lemma {:induction false} RecordInMemory(sums: seq<int>, m: Metrics, estimate: int, cc: int, cells: seq<int>)
    ensures var R, words := |sums|, Record(sums, DumpWords(m, 4), estimate, cc, cells);
            && |words| == R + 5 + |cells| / 2
            && (forall r :: 0 <= r < R ==> words[r] == sums[r])
            && words[R] == m.cnt + 0x1_0000_0000 * (m.sumq / 0x1_0000_0000_0000_0000)
            && words[R + 1] == m.min + 0x1_0000_0000 * m.max
            && words[R + 2] == m.sum && words[R + 3] == m.sumq % 0x1_0000_0000_0000_0000
            && words[R + 4] == estimate + 0x1_0000_0000 * cc
            && forall i :: 0 <= i < |cells| / 2 ==>
                 words[R + 5 + i] == cells[2 * i] + 0x1_0000_0000 * cells[2 * i + 1]
  {
    var R, words := |sums|, Record(sums, DumpWords(m, 4), estimate, cc, cells);
    RecordLength(sums, m, estimate, cc, cells);
    DumpedWords(sums, m, estimate, cc, cells);
    assert words[R + 0] == DumpWord(m, 0) && words[R + 1] == DumpWord(m, 1);
    assert words[R + 2] == DumpWord(m, 2) && words[R + 3] == DumpWord(m, 3);
    RecordWords(sums, m, estimate, cc, cells, R + 4);
    forall r | 0 <= r < R
      ensures words[r] == sums[r]
    {
      RecordWords(sums, m, estimate, cc, cells, r);
    }
    forall i | 0 <= i < |cells| / 2
      ensures words[R + 5 + i] == cells[2 * i] + 0x1_0000_0000 * cells[2 * i + 1]
    {
      RecordWords(sums, m, estimate, cc, cells, R + 5 + i);
    }
  }

  /** The host reads back exactly what went into the record. */
  lemma {:induction false} DecodeRecord(sums: seq<int>, m: Metrics, estimate: int, cc: int, cells: seq<int>)
    requires MetricsFit(m) && 0 <= estimate < TWO_32 && All32(cells) && |cells| % 2 == 0
    ensures |Record(sums, DumpWords(m, 4), estimate, cc, cells)| >= |sums| + 5
    ensures Decode(|sums|, Record(sums, DumpWords(m, 4), estimate, cc, cells))
         == Output(sums, m.cnt, m.sumq / TWO_64, m.min, m.max, m.sum, m.sumq % TWO_64, estimate, cc, cells)
  {
    RecordLength(sums, m, estimate, cc, cells);
    DecodeSums(sums, m, estimate, cc, cells);
    DecodeMetrics(sums, m, estimate, cc, cells);
    DecodeEstimate(sums, m, estimate, cc, cells);
    DecodeCells(sums, m, estimate, cc, cells);
    var words := Record(sums, DumpWords(m, 4), estimate, cc, cells);
    assert Decode(|sums|, words).agms == sums;
  }
}
