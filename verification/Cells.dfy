/**
 What the cells of the three sketches hold, said from the bits of the items' hashes alone.
 */
module CellValues {
  import opened Monoids
  import opened Lanes
  import opened Network
  import opened Sketches
  import opened SoftwareCollector
  import opened SecondMoment
  import BitSlices
  import HllEstimation

  /** The `len` bits of a hash from bit `lo` on are the number `v`. */
  predicate Bits(h: nat, lo: nat, len: nat, v: nat) {
    (h / Pow2(lo)) % Pow2(len) == v
  }

  // HyperLogLog: the largest rank.

  /** The first set bit among the low `n` bits, counted from the top and from 1, or n + 1 if none is set. */
  predicate RankIs(h: nat, n: nat, rank: int) {
    var low := h % Pow2(n);
    1 <= rank <= n + 1 && if rank == n + 1 then low == 0 else Pow2(n - rank) <= low < 2 * Pow2(n - rank)
  }

  /** A word with bucket `k` and the rank `rank`, by a hash of `H` bits of which the top `P` select the bucket. */
  predicate Ranked(h: nat, H: nat, P: nat, k: nat, rank: int)
    requires P <= H
  {
    Bits(h, H - P, P, k) && RankIs(h, H - P, rank)
  }

  /** `c` is the largest rank of the words with bucket `k`, and 0 if there are none. */
  ghost predicate LargestRank(hash: Word -> nat, H: nat, P: nat, words: seq<Word>, k: nat, c: int)
    requires P <= H
  {
    && (forall i, rank :: 0 <= i < |words| && Ranked(hash(words[i]), H, P, k, rank) ==> rank <= c)
    && if exists i :: 0 <= i < |words| && Bits(hash(words[i]), H - P, P, k)
       then exists i :: 0 <= i < |words| && Ranked(hash(words[i]), H, P, k, c)
       else c == 0
  }

  lemma {:induction false} ClzPosition(x: nat, n: nat)
    requires x < Pow2(n)
    ensures var c := Clz(x, n);
            if c == n then x == 0 else c < n && Pow2(n - 1 - c) <= x < 2 * Pow2(n - 1 - c)
    decreases n
  {
    if n > 0 && x < Pow2(n - 1) {
      ClzPosition(x, n - 1);
    }
  }

  lemma {:induction false} RankUnique(h: nat, n: nat, a: int, b: int)
    requires RankIs(h, n, a) && RankIs(h, n, b)
    ensures a <= b
  {
    if b < a {
      if a <= n {
        Pow2Halves(n - b);
        HllEstimation.Pow2Monotone(n - a, n - b - 1);
      }
    }
  }

  /** Bucket and rank of a hash. */
  lemma {:induction false} KeyRanked(h: nat, H: nat, P: nat, k: nat)
    requires P <= H
    ensures HllKey(H, P)(h).key == k <==> Bits(h, H - P, P, k)
    ensures RankIs(h, H - P, HllKey(H, P)(h).inc)
    ensures forall rank :: Ranked(h, H, P, k, rank) ==> rank == HllKey(H, P)(h).inc
  {
    var n := H - P;
    assert Slice(h, 0, n) == h % Pow2(n) by {
      assert Pow2(0) == 1 && h / 1 == h;
    }
    ClzPosition(h % Pow2(n), n);
    forall rank | Ranked(h, H, P, k, rank)
      ensures rank == HllKey(H, P)(h).inc
    {
      RankUnique(h, n, rank, HllKey(H, P)(h).inc);
      RankUnique(h, n, HllKey(H, P)(h).inc, rank);
    }
  }

  /** One more word, in terms of its rank. */
  lemma {:induction false} NextBucket(hash: Word -> nat, H: nat, P: nat, p: seq<Word>, x: Word, k: nat)
    requires P <= H
    ensures var row, rank := HllRow(H, P), HllKey(H, P)(hash(x)).inc;
            && Cell(hash, row, p, k) >= 0
            && Cell(hash, row, p + [x], k) ==
                 if Bits(hash(x), H - P, P, k) && Cell(hash, row, p, k) < rank then rank else Cell(hash, row, p, k)
  {
    HllRowOk(H, P);
    CellAppend(hash, HllRow(H, P), p, x, k);
    KeyRanked(hash(x), H, P, k);
    var rank := HllKey(H, P)(hash(x)).inc;
    assert HllRow(H, P).g(rank) == rank;
  }

  lemma {:induction false} OneWordMore(hash: Word -> nat, H: nat, P: nat, p: seq<Word>, x: Word, k: nat,
        c: int, c': int)
    requires P <= H && LargestRank(hash, H, P, p, k, c) && 0 <= c
    requires c' == if Bits(hash(x), H - P, P, k) && c < HllKey(H, P)(hash(x)).inc then HllKey(H, P)(hash(x)).inc else c
    ensures LargestRank(hash, H, P, p + [x], k, c')
  {
    var s, n := p + [x], |p|;
    KeyRanked(hash(x), H, P, k);
    assert s[n] == x && forall i :: 0 <= i < n ==> s[i] == p[i];
    forall i, rank | 0 <= i < |s| && Ranked(hash(s[i]), H, P, k, rank)
      ensures rank <= c'
    {
      assert i < n ==> Ranked(hash(p[i]), H, P, k, rank);
    }
    if c' != c {
      assert Ranked(hash(s[n]), H, P, k, c');
    } else if i :| 0 <= i < |p| && Ranked(hash(p[i]), H, P, k, c) {
      assert Ranked(hash(s[i]), H, P, k, c);
    } else if Bits(hash(x), H - P, P, k) {
      assert false;
    } else {
      assert forall i :: 0 <= i < |s| ==> !Bits(hash(s[i]), H - P, P, k);
    }
  }

  /** A bucket holds the largest rank of the words that fall into it. */
  lemma {:induction false} BucketIsLargest(hash: Word -> nat, H: nat, P: nat, words: seq<Word>, k: nat)
    requires P <= H
    ensures LargestRank(hash, H, P, words, k, Cell(hash, HllRow(H, P), words, k))
    decreases |words|
  {
    if words != [] {
      var p, x := words[..|words| - 1], words[|words| - 1];
      BucketIsLargest(hash, H, P, p, k);
      NextBucket(hash, H, P, p, x, k);
      assert words == p + [x];
      OneWordMore(hash, H, P, p, x, k, Cell(hash, HllRow(H, P), p, k), Cell(hash, HllRow(H, P), words, k));
    }
  }

  /** The software's buckets do, too. */
  lemma {:induction false} BucketsAreLargest(c: SktCollector)
    requires c.Valid()
    ensures forall k :: 0 <= k < c.hll.Length ==> LargestRank(c.hash, c.W, c.p_hll, c.items, k, c.hll[k])
  {
    forall k | 0 <= k < c.hll.Length
      ensures LargestRank(c.hash, c.W, c.p_hll, c.items, k, c.hll[k])
    {
      assert RowIs(c.hll[..], Pow2(c.p_hll), 0, c.hash, [c.HllSpec()][0], c.items);
      assert c.hll[..][Idx(0, k, Pow2(c.p_hll))] == c.hll[k];
      BucketIsLargest(c.hash, c.W, c.p_hll, c.items, k);
    }
  }

  // Fast-AGMS: set sign bits less clear ones.

  /** How many words select cell `k` of row `j` with the sign bit `bit`. */
  function Signed(hash: Word -> nat, P: nat, j: nat, words: seq<Word>, k: nat, bit: nat): (n: nat)
    ensures n <= |words|
  {
    if words == [] then 0
    else
      var h := hash(words[|words| - 1]);
      Signed(hash, P, j, words[..|words| - 1], k, bit) +
      if Bits(h, j * (P + 1), P, k) && Bits(h, j * (P + 1) + P, 1, bit) then 1 else 0
  }

  /** The words that select the cell with their sign bit set, less those that do so with it clear. */
  function Balance(hash: Word -> nat, P: nat, j: nat, words: seq<Word>, k: nat): int {
    Signed(hash, P, j, words, k, 1) - Signed(hash, P, j, words, k, 0)
  }

  lemma {:induction false} ExactIsBalance(hash: Word -> nat, P: nat, j: nat, words: seq<Word>, k: nat)
    ensures Exact(hash, P, j, words, k) == Balance(hash, P, j, words, k)
    decreases |words|
  {
    if words != [] {
      var p, h := words[..|words| - 1], hash(words[|words| - 1]);
      ExactIsBalance(hash, P, j, p, k);
      assert Pow2(1) == 2;
      assert Bits(h, j * (P + 1) + P, 1, 1) <==> !Bits(h, j * (P + 1) + P, 1, 0);
    }
  }

  /** A cell of an AGMS row is this balance if and only if it can represent it. */
  lemma {:induction false} CellIsBalance(hash: Word -> nat, P: nat, W: nat, j: nat, words: seq<Word>, k: nat)
    requires W >= 2
    ensures var b := Balance(hash, P, j, words, k);
            Cell(hash, AgmsRow(P, W, j), words, k) == b <==> 0 - Pow2(W - 1) <= b < Pow2(W - 1)
  {
    ExactIsBalance(hash, P, j, words, k);
    CellIsWrapped(hash, P, W, j, words, k);
    Pow2Halves(W);
    var b := Balance(hash, P, j, words, k);
    if 0 - Pow2(W - 1) <= b < Pow2(W - 1) {
      WrapFix(b, Pow2(W), 0 - Pow2(W - 1));
    }
  }

  lemma {:induction false} AgainstTwo(hash: Word -> nat, P: nat, j: nat, x: Word, v: Word, w: Word)
    ensures Against(hash, P, j, x, [v, w])
         == Match(SlotOf(hash, P, j, x), SlotOf(hash, P, j, v)) + Match(SlotOf(hash, P, j, x), SlotOf(hash, P, j, w))
  {
    assert [v, w][..1] == [v] && [v][..0] == [];
    assert Against(hash, P, j, x, [v]) == Match(SlotOf(hash, P, j, x), SlotOf(hash, P, j, v));
  }

  lemma {:induction false} OppositePairs(hash: Word -> nat, P: nat, j: nat, v: Word, w: Word, k: nat)
    requires SlotOf(hash, P, j, v) == Slot(k, 1) && SlotOf(hash, P, j, w) == Slot(k, -1)
    ensures Pairs(hash, P, j, [v, w], [v, w]) == 0
  {
    AgainstTwo(hash, P, j, v, v, w);
    AgainstTwo(hash, P, j, w, v, w);
    assert [v, w][..1] == [v] && [v][..0] == [];
    assert Pairs(hash, P, j, [v], [v, w]) == Against(hash, P, j, v, [v, w]);
  }

  /** A cell that has received one word. */
  lemma {:induction false} OneBalance(hash: Word -> nat, P: nat, j: nat, w: Word, k: nat, bit: nat)
    requires Bits(hash(w), j * (P + 1), P, k) && Bits(hash(w), j * (P + 1) + P, 1, bit)
    ensures SlotOf(hash, P, j, w) == Slot(k, if bit == 1 then 1 else -1)
    ensures Balance(hash, P, j, [w], k) == if bit == 1 then 1 else -1
  {
    assert Pow2(1) == 2;
    assert [w][..0] == [];
    ExactIsBalance(hash, P, j, [w], k);
  }

  lemma {:induction false} BalanceOfTwo(hash: Word -> nat, P: nat, j: nat, v: Word, w: Word, k: nat)
    ensures Balance(hash, P, j, [v, w], k) == Balance(hash, P, j, [v], k) + Balance(hash, P, j, [w], k)
  {
    assert [v, w][..1] == [v] && [w][..0] == [];
  }

  /** Two words that select the same cell with different sign bits leave nothing in it, and a row sum of zero. */
  lemma {:induction false} OppositeWordsCancel(hash: Word -> nat, P: nat, W: nat, j: nat, v: Word, w: Word, k: nat)
    requires W >= 2
    requires Bits(hash(v), j * (P + 1), P, k) && Bits(hash(w), j * (P + 1), P, k)
    requires Bits(hash(v), j * (P + 1) + P, 1, 1) && Bits(hash(w), j * (P + 1) + P, 1, 0)
    ensures Cell(hash, AgmsRow(P, W, j), [v, w], k) == 0
    ensures Cell(hash, AgmsRow(P, W, j), [v], k) == 1 && Cell(hash, AgmsRow(P, W, j), [w], k) == -1
    ensures Pairs(hash, P, j, [v, w], [v, w]) == 0
  {
    OneBalance(hash, P, j, v, k, 1);
    OneBalance(hash, P, j, w, k, 0);
    BalanceOfTwo(hash, P, j, v, w, k);
    OppositePairs(hash, P, j, v, w, k);
    Pow2Halves(W - 1);
    CellIsBalance(hash, P, W, j, [v, w], k);
    CellIsBalance(hash, P, W, j, [v], k);
    CellIsBalance(hash, P, W, j, [w], k);
  }

  /** With 13 bucket bits, words 0 and 0x2000, each its own hash, are such a pair in row 0. */
  lemma {:induction false} ZeroAndBit13(hash: Word -> nat, W: nat)
    requires W >= 2 && hash(0) == 0 && hash(0x2000) == 0x2000
    ensures Cell(hash, AgmsRow(13, W, 0), [0x2000], 0) == 1 && Cell(hash, AgmsRow(13, W, 0), [0], 0) == -1
    ensures Cell(hash, AgmsRow(13, W, 0), [0x2000, 0], 0) == 0 == Pairs(hash, 13, 0, [0x2000, 0], [0x2000, 0])
  {
    assert Pow2(13) == 0x2000 && Pow2(1) == 2 && Pow2(0) == 1;
    OppositeWordsCancel(hash, 13, W, 0, 0x2000, 0, 0);
  }

  /** The squares of the first `n` cells' balances, added up. */
  function BalanceSquares(hash: Word -> nat, P: nat, j: nat, words: seq<Word>, n: nat): int {
    if n == 0 then 0
    else BalanceSquares(hash, P, j, words, n - 1) + Square(Balance(hash, P, j, words, n - 1))
  }

  lemma {:induction false} SquaresOfBalances(hash: Word -> nat, P: nat, j: nat, words: seq<Word>, n: nat)
    requires n <= Pow2(P)
    ensures SumSquares(ExactRow(hash, P, j, words)[..n]) == BalanceSquares(hash, P, j, words, n)
    decreases n
  {
    if n > 0 {
      var row := ExactRow(hash, P, j, words);
      SquaresOfBalances(hash, P, j, words, n - 1);
      assert row[..n][..n - 1] == row[..n - 1];
      ExactIsBalance(hash, P, j, words, n - 1);
    }
  }

  /** All items that share a cell paired with each other, signs multiplied, are the squares of the balances. */
  lemma {:induction false} PairsAreBalances(hash: Word -> nat, P: nat, j: nat, words: seq<Word>)
    ensures Pairs(hash, P, j, words, words) == BalanceSquares(hash, P, j, words, Pow2(P))
  {
    var row := ExactRow(hash, P, j, words);
    RowIsPairs(hash, P, j, words);
    SquaresOfBalances(hash, P, j, words, Pow2(P));
    assert row[..Pow2(P)] == row;
  }

  /** Place `j * M + k` of the software's table has the balance of cell `k` of row `j`, if 32 bits can represent it. */
  lemma {:induction false} CountersAreBalances(c: SktCollector, j: nat, k: nat)
    requires c.Valid() && j < c.r_agms && k < Pow2(c.p_agms)
    ensures var i, b := j * Pow2(c.p_agms) + k, Balance(c.hash, c.p_agms, j, c.items, k);
            && 0 <= i < c.agms.Length
            && (c.agms[i] == b <==> -0x8000_0000 <= b < 0x8000_0000)
  {
    assert RowIs(c.agms[..], Pow2(c.p_agms), j, c.hash, c.AgmsSpecs()[j], c.items);
    IdxValue(j, k, Pow2(c.p_agms));
    CellIsBalance(c.hash, c.p_agms, COUNTER_BITS, j, c.items, k);
    CounterWidth();
  }

  // Count-Min: occurrences.

  /** How many words select cell `k` of row `j`. */
  function Occurrences(hash: Word -> nat, P: nat, j: nat, words: seq<Word>, k: nat): (n: nat)
    ensures n <= |words|
  {
    if words == [] then 0
    else
      Occurrences(hash, P, j, words[..|words| - 1], k) +
      if Bits(hash(words[|words| - 1]), P * j, P, k) then 1 else 0
  }

  /** A cell of a Count-Min row counts, modulo 2^W, the words that select it. */
  lemma {:induction false} CellIsCount(hash: Word -> nat, P: nat, W: nat, j: nat, words: seq<Word>, k: nat)
    requires W >= 1
    ensures Cell(hash, CmRow(P, W, j), words, k) == Occurrences(hash, P, j, words, k) % Pow2(W)
    decreases |words|
  {
    if words == [] {
      BitSlices.MaskFits(0, W);
    } else {
      var p, x := words[..|words| - 1], words[|words| - 1];
      CellIsCount(hash, P, W, j, p, k);
      CmRowOk(P, W, j);
      CellAppend(hash, CmRow(P, W, j), p, x, k);
      assert words == p + [x];
      BitSlices.MaskFits(1, W);
      ModPlusLeft(Occurrences(hash, P, j, p, k), 1, Pow2(W));
    }
  }

  /** Place `j * M + k` of the software's table counts the items that select cell `k` of row `j`, modulo 2^32. */
  lemma {:induction false} CountersAreCounts(c: SktCollector, j: nat, k: nat)
    requires c.Valid() && j < c.r_cm && k < Pow2(c.p_cm)
    ensures var i := j * Pow2(c.p_cm) + k;
            0 <= i < c.cm.Length && c.cm[i] == Occurrences(c.hash, c.p_cm, j, c.items, k) % TWO_32
  {
    assert RowIs(c.cm[..], Pow2(c.p_cm), j, c.hash, c.CmSpecs()[j], c.items);
    IdxValue(j, k, Pow2(c.p_cm));
    CellIsCount(c.hash, c.p_cm, COUNTER_BITS, j, c.items, k);
    CounterWidth();
  }
}
