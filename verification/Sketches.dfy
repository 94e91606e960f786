/**
 The rows of the three sketches as the kernel configures them: which bits of a hash
 select the cell, and what the cell collects.
 */
module Sketches {
  import opened Monoids
  import opened Collecting
  import opened Network

  /** Bits `lo` to `lo + len - 1`. */
  function Slice(h: nat, lo: nat, len: nat): (r: nat)
    ensures r < Pow2(len)
  {
    (h / Pow2(lo)) % Pow2(len)
  }

  /** Leading zeros of `x` as a number of `w` bits. */
  function Clz(x: nat, w: nat): (r: nat)
    ensures r <= w
  {
    if w == 0 || x >= Pow2(w - 1) then 0 else 1 + Clz(x, w - 1)
  }

  /** HyperLogLog: the top `P` of `H` bits select the bucket, the rest gives the rank. */
  function HllKey(H: nat, P: nat): nat -> KV
    requires P <= H
  {
    (h: nat) => KV(Slice(h, H - P, P), 1 + Clz(Slice(h, 0, H - P), H - P))
  }

  function HllRow(H: nat, P: nat): RowSpec
    requires P <= H
  {
    RowSpec(Pow2(P), MAX, HllKey(H, P), (rank: nat) => rank as int)
  }

  /** Fast-AGMS row `j`: `P` bits select the cell, the next one the sign. */
  function AgmsKey(P: nat, j: nat): nat -> KV {
    (h: nat) => KV(Slice(h, j * (P + 1), P), Slice(h, j * (P + 1) + P, 1))
  }

  function Sign(b: nat): int {
    if b != 0 then 1 else -1
  }

  /** Counters of `W` bits in two's complement. */
  function SignedAdd(W: nat): Monoid
    requires W >= 2
  {
    AddWrap(Pow2(W), 0 - Pow2(W - 1))
  }

  function AgmsRow(P: nat, W: nat, j: nat): RowSpec
    requires W >= 2
  {
    RowSpec(Pow2(P), SignedAdd(W), AgmsKey(P, j), Sign)
  }

  /** Count-Min row `j`: `P` bits select the cell, which counts modulo 2^W. */
  function CmKey(P: nat, j: nat): nat -> KV {
    (h: nat) => KV(Slice(h, P * j, P), 1)
  }

  function CmRow(P: nat, W: nat, j: nat): RowSpec
    requires W >= 1
  {
    RowSpec(Pow2(P), AddWrap(Pow2(W), 0), CmKey(P, j), (inc: nat) => (inc % Pow2(W)) as int)
  }

  lemma {:induction false} HllRowOk(H: nat, P: nat)
    requires P <= H
    ensures RowSpecOk(HllRow(H, P))
  {
    MaxLawful();
    var row := HllRow(H, P);
    assert forall i: nat :: row.g(i) == i;
  }

  lemma {:induction false} Pow2Halves(W: nat)
    requires W >= 1
    ensures Pow2(W) == 2 * Pow2(W - 1)
    ensures Pow2(W) >= 2
  {
  }

  lemma {:induction false} AgmsRowOk(P: nat, W: nat, j: nat)
    requires W >= 2
    ensures RowSpecOk(AgmsRow(P, W, j))
  {
    Pow2Halves(W);
    Pow2Halves(W - 1);
    AddWrapLawful(Pow2(W), 0 - Pow2(W - 1));
    var row := AgmsRow(P, W, j);
    assert forall i: nat :: row.g(i) == Sign(i);
  }

  lemma {:induction false} CmRowOk(P: nat, W: nat, j: nat)
    requires W >= 1
    ensures RowSpecOk(CmRow(P, W, j))
  {
    AddWrapLawful(Pow2(W), 0);
    var row := CmRow(P, W, j);
    assert forall i: nat :: row.g(i) == i % Pow2(W);
  }

  // All rows of a sketch.

  function AgmsRows(R: nat, P: nat, W: nat): (s: seq<RowSpec>)
    requires W >= 2
    ensures |s| == R
  {
    seq(R, j requires 0 <= j < R => AgmsRow(P, W, j))
  }

  function CmRows(R: nat, P: nat, W: nat): (s: seq<RowSpec>)
    requires W >= 1
    ensures |s| == R
  {
    seq(R, j requires 0 <= j < R => CmRow(P, W, j))
  }

  lemma {:induction false} AgmsRowsOk(R: nat, P: nat, W: nat)
    requires W >= 2
    ensures forall j :: 0 <= j < R ==> RowSpecOk(AgmsRows(R, P, W)[j]) && AgmsRows(R, P, W)[j].M == Pow2(P)
  {
    forall j | 0 <= j < R
      ensures RowSpecOk(AgmsRows(R, P, W)[j])
    {
      AgmsRowOk(P, W, j);
    }
  }

  lemma {:induction false} CmRowsOk(R: nat, P: nat, W: nat)
    requires W >= 1
    ensures forall j :: 0 <= j < R ==> RowSpecOk(CmRows(R, P, W)[j]) && CmRows(R, P, W)[j].M == Pow2(P)
  {
    forall j | 0 <= j < R
      ensures RowSpecOk(CmRows(R, P, W)[j])
    {
      CmRowOk(P, W, j);
    }
  }
}
