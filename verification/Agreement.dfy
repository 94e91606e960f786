/**
 Hardware and software agree: from the same hash, cut to the hardware's width, both fill
 the same cells with the same values. HyperLogLog is the exception when the widths differ.
 */
module Agreement {
  import opened Streams
  import opened Monoids
  import opened Lanes
  import opened Network
  import opened Joined
  import opened Sketches
  import opened BitSlices
  import opened SoftwareCollector
  import opened KernelResults
  import opened Murmur
  import opened WordZero
  import HllEstimation

  // Keys.

  /** A Fast-AGMS row whose slice lies within the hardware's hash has the same cell and sign. */
  lemma {:induction false} AgmsKeysAgree(h: nat, H: nat, P: nat, j: nat)
    requires (j + 1) * (P + 1) <= H
    ensures AgmsKey(P, j)(h % Pow2(H)) == AgmsKey(P, j)(h)
  {
    NextMultiple(j, P + 1);
    SliceOfLow(h, H, j * (P + 1), P);
    SliceOfLow(h, H, j * (P + 1) + P, 1);
  }

  lemma {:induction false} CmKeysAgree(h: nat, H: nat, P: nat, j: nat)
    requires (j + 1) * P <= H
    ensures CmKey(P, j)(h % Pow2(H)) == CmKey(P, j)(h)
  {
    NextMultiple(j, P);
    assert P * j == j * P;
    SliceOfLow(h, H, P * j, P);
  }

  /** The software takes its bucket from the top of the full hash, the hardware from the top of the cut one. */
  lemma {:induction false} HllKeysAgreeIff(W: nat, H: nat, P: nat)
    requires 0 < P <= H <= W
    ensures (forall h: nat :: h < Pow2(W) ==> HllKey(H, P)(h % Pow2(H)) == HllKey(W, P)(h)) <==> H == W
  {
    if H == W {
      forall h: nat | h < Pow2(W)
        ensures HllKey(H, P)(h % Pow2(H)) == HllKey(W, P)(h)
      {
        MaskFits(h, W);
      }
    } else {
      TopBitDiffers(W, H, P);
      var h: nat := Pow2(W - 1);
      assert HllKey(H, P)(h % Pow2(H)).key != HllKey(W, P)(h).key;
    }
  }

  /** A hash with only the top bit set: the hardware no longer sees it. */
  lemma {:induction false} TopBitDiffers(W: nat, H: nat, P: nat)
    requires 0 < P <= H < W
    ensures Pow2(W - 1) < Pow2(W)
    ensures HllKey(H, P)(Pow2(W - 1) % Pow2(H)).key == 0
    ensures HllKey(W, P)(Pow2(W - 1)).key == Pow2(P - 1) > 0
  {
    Pow2Halves(W);
    HllEstimation.Pow2Add(W - 1 - H, H);
    DivModUnique(Pow2(W - 1 - H), 0, Pow2(H));
    DivModUnique(0, 0, Pow2(H - P));
    DivModUnique(0, 0, Pow2(P));
    HllEstimation.Pow2Add(P - 1, W - P);
    TopSlice(Pow2(W - 1), W, P);
    DivModUnique(Pow2(P - 1), 0, Pow2(W - P));
  }

  // Cells.

  /** The hardware's hash is the software's, cut to `H` bits. */
  ghost predicate CutTo(hw: Word -> nat, sw: Word -> nat, H: nat) {
    forall w: Word :: hw(w) == sw(w) % Pow2(H)
  }

  /** What the hardware joins for a Fast-AGMS row is the software's table row. */
  lemma {:induction false} AgmsRowAgrees(c: SktCollector, hw: Word -> nat, H: nat, j: nat)
    requires c.Valid() && CutTo(hw, c.hash, H) && j < c.r_agms && (j + 1) * (c.p_agms + 1) <= H
    ensures Vector(hw, AgmsRow(c.p_agms, COUNTER_BITS, j), c.items) == RowOf(c.agms[..], j, Pow2(c.p_agms))
  {
    var spec := c.AgmsSpecs()[j];
    assert RowIs(c.agms[..], Pow2(c.p_agms), j, c.hash, spec, c.items);
    forall k | 0 <= k < Pow2(c.p_agms)
      ensures Cell(hw, spec, c.items, k) == c.agms[Idx(j, k, Pow2(c.p_agms))]
    {
      forall w: Word
        ensures SameEntry(hw, spec, c.hash, spec, w)
      {
        AgmsKeysAgree(c.hash(w), H, c.p_agms, j);
      }
      CellsAgree(hw, spec, c.hash, spec, c.items, k);
    }
  }

  lemma {:induction false} CmRowAgrees(c: SktCollector, hw: Word -> nat, H: nat, j: nat)
    requires c.Valid() && CutTo(hw, c.hash, H) && j < c.r_cm && (j + 1) * c.p_cm <= H
    ensures Vector(hw, CmRow(c.p_cm, COUNTER_BITS, j), c.items) == RowOf(c.cm[..], j, Pow2(c.p_cm))
  {
    var spec := c.CmSpecs()[j];
    assert RowIs(c.cm[..], Pow2(c.p_cm), j, c.hash, spec, c.items);
    forall k | 0 <= k < Pow2(c.p_cm)
      ensures Cell(hw, spec, c.items, k) == c.cm[Idx(j, k, Pow2(c.p_cm))]
    {
      forall w: Word
        ensures SameEntry(hw, spec, c.hash, spec, w)
      {
        CmKeysAgree(c.hash(w), H, c.p_cm, j);
      }
      CellsAgree(hw, spec, c.hash, spec, c.items, k);
    }
  }

  lemma {:induction false} RowsConcat(t: seq<int>, M: nat, n: nat)
    requires M * n <= |t|
    ensures Rows(t, M, n) == t[..M * n]
    decreases n
  {
    if n > 0 {
      NextMultiple(n - 1, M);
      assert M * n == M * (n - 1) + M && M * (n - 1) == (n - 1) * M;
      RowsConcat(t, M, n - 1);
      var row := t[M * (n - 1)..M * n];
      forall k | 0 <= k < M
        ensures RowOf(t, n - 1, M)[k] == row[k]
      {
        IdxValue(n - 1, k, M);
      }
      assert RowOf(t, n - 1, M) == row;
    }
  }

  function Rows(t: seq<int>, M: nat, n: nat): seq<int> {
    if n == 0 then [] else Rows(t, M, n - 1) + RowOf(t, n - 1, M)
  }

  lemma {:induction false} CmVectors(c: SktCollector, hw: Word -> nat, H: nat, n: nat)
    requires c.Valid() && CutTo(hw, c.hash, H) && n <= c.r_cm && c.r_cm * c.p_cm <= H
    ensures VectorsOf(hw, CmRows(c.r_cm, c.p_cm, COUNTER_BITS)[..n], c.items) == Rows(c.cm[..], Pow2(c.p_cm), n)
    decreases n
  {
    if n > 0 {
      CmVectors(c, hw, H, n - 1);
      MulMonotone(n, c.r_cm, c.p_cm);
      CmRowAgrees(c, hw, H, n - 1);
      assert CmRows(c.r_cm, c.p_cm, COUNTER_BITS)[..n][..n - 1] == CmRows(c.r_cm, c.p_cm, COUNTER_BITS)[..n - 1];
    }
  }

  /** The Count-Min cells of a hardware record are, in order, the software's table for the same items. */
  lemma {:induction false} CmTableAgrees(c: SktCollector, hw: Word -> nat, H: nat)
    requires c.Valid() && CutTo(hw, c.hash, H) && c.r_cm * c.p_cm <= H
    ensures VectorsOf(hw, CmRows(c.r_cm, c.p_cm, COUNTER_BITS), c.items) == c.cm[..]
  {
    CmVectors(c, hw, H, c.r_cm);
    RowsConcat(c.cm[..], Pow2(c.p_cm), c.r_cm);
    assert CmRows(c.r_cm, c.p_cm, COUNTER_BITS)[..c.r_cm] == CmRows(c.r_cm, c.p_cm, COUNTER_BITS);
  }

  // Order independence.

  lemma {:induction false} RowsDetermine(t: seq<int>, t': seq<int>, M: nat, specs: seq<RowSpec>,
        hash: Word -> nat, a: seq<Word>, b: seq<Word>)
    requires |t| == |t'| == M * |specs| && M > 0
    requires forall j :: 0 <= j < |specs| ==> RowSpecOk(specs[j])
    requires RowsHold(t, M, specs, hash, a) && RowsHold(t', M, specs, hash, b) && multiset(a) == multiset(b)
    ensures t == t'
  {
    forall i | 0 <= i < |t|
      ensures t[i] == t'[i]
    {
      var (j, k) := RowMajor(i, |specs|, M);
      assert RowIs(t, M, j, hash, specs[j], a) && RowIs(t', M, j, hash, specs[j], b);
      assert t[Idx(j, k, M)] == Cell(hash, specs[j], a, k) && t'[Idx(j, k, M)] == Cell(hash, specs[j], b, k);
      CellPermutation(hash, specs[j], a, b, k);
    }
  }

  /** Collectors of one configuration that have seen the same items, in any order, have the same tables. */
  lemma {:induction false} TablesAgree(c: SktCollector, d: SktCollector)
    requires c.Valid() && d.Valid() && c.W == d.W && c.hash == d.hash && c.SameShape(d)
    requires multiset(c.items) == multiset(d.items)
    ensures c.hll[..] == d.hll[..] && c.agms[..] == d.agms[..] && c.cm[..] == d.cm[..]
  {
    HllRowOk(c.W, c.p_hll);
    RowsDetermine(c.hll[..], d.hll[..], Pow2(c.p_hll), [c.HllSpec()], c.hash, c.items, d.items);
    AgmsRowsOk(c.r_agms, c.p_agms, COUNTER_BITS);
    RowsDetermine(c.agms[..], d.agms[..], Pow2(c.p_agms), c.AgmsSpecs(), c.hash, c.items, d.items);
    CmRowsOk(c.r_cm, c.p_cm, COUNTER_BITS);
    RowsDetermine(c.cm[..], d.cm[..], Pow2(c.p_cm), c.CmSpecs(), c.hash, c.items, d.items);
  }

  // The shipped hash.

  /** The hardware's 128-bit Murmur hash is the software's, cut to `H` bits. */
  lemma {:induction false} MurmurAgrees(H: nat)
    ensures CutTo(HardwareHash(H), SoftwareHash(), H)
    ensures forall w: Word :: SoftwareHash()(w) < Pow2(128)
  {
    forall w: Word
      ensures SoftwareHash()(w) < Pow2(128)
    {
      Hash128Injective(w, w);
    }
    forall w: Word
      ensures HardwareHash(H)(w) == SoftwareHash()(w) % Pow2(H)
    {
      Straight128Agrees(H, w);
    }
  }

  /** For a single item two tables are the same exactly if both hashes enter it in the same cell. */
  lemma {:induction false} OneItemTables(hash: Word -> nat, spec: RowSpec, hash': Word -> nat, spec': RowSpec, w: Word)
    requires RowSpecOk(spec) && RowSpecOk(spec') && spec.M == spec'.M && spec.g(spec.kv(hash(w)).inc) != 0
    ensures Vector(hash, spec, [w]) == Vector(hash', spec', [w]) <==> SameEntry(hash, spec, hash', spec', w)
  {
    forall k | 0 <= k < spec.M
      ensures Vector(hash, spec, [w])[k] == if spec.kv(hash(w)).key == k then spec.g(spec.kv(hash(w)).inc) else 0
      ensures Vector(hash', spec', [w])[k] == if spec'.kv(hash'(w)).key == k then spec'.g(spec'.kv(hash'(w)).inc) else 0
    {
      OneItemCell(hash, spec, w, k);
      OneItemCell(hash', spec', w, k);
    }
    if Vector(hash, spec, [w]) == Vector(hash', spec', [w]) {
      var k := spec.kv(hash(w)).key;
      assert Vector(hash, spec, [w])[k] == Vector(hash', spec', [w])[k];
    }
  }

  /** Where the shipped hashes of 128 and 84 bits put word 0, among 2^16 buckets. */
  lemma {:induction false} ShippedBuckets(w: Word)
    requires w == 0
    ensures HllKey(128, 16)(SoftwareHash()(w)).key == 0x180a
    ensures HllKey(84, 16)(HardwareHash(84)(w)).key == 0xa166
  {
    MurmurAgrees(84);
    ZeroHashed(w);
    ZeroBuckets(Hash128(w));
    SliceOfLow(Hash128(w), 84, 68, 16);
  }

  /** Already the job that consists of word 0 has different bucket tables in software and in hardware. */
  lemma {:induction false} ShippedTablesDiffer(w: Word)
    requires w == 0
    ensures Vector(HardwareHash(84), HllRow(84, 16), [w]) != Vector(SoftwareHash(), HllRow(128, 16), [w])
  {
    ShippedBuckets(w);
    HllRowOk(84, 16);
    HllRowOk(128, 16);
    OneItemTables(HardwareHash(84), HllRow(84, 16), SoftwareHash(), HllRow(128, 16), w);
  }
}
