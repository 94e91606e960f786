/**
 When merging is right. The shape checks of a merge do not include the hash, so that a
 merge may be accepted although both sides enter the same word in different cells.
 */
module MergeCondition {
  import opened Streams
  import opened Monoids
  import opened Lanes
  import opened Network
  import opened Sketches
  import opened SoftwareCollector
  import opened Murmur
  import BitSlices
  import WordZero

  /** Cell `k` of two rows, combined, is the cell of both inputs together. */
  ghost predicate CellMerges(hash: Word -> nat, spec: RowSpec, hash': Word -> nat, spec': RowSpec, a: seq<Word>,
        b: seq<Word>, k: nat) {
    spec.m.op(Cell(hash, spec, a, k), Cell(hash', spec', b, k)) == Cell(hash, spec, a + b, k)
  }

  ghost predicate RowMerges(hash: Word -> nat, spec: RowSpec, hash': Word -> nat, spec': RowSpec, a: seq<Word>,
        b: seq<Word>) {
    forall k :: 0 <= k < spec.M ==> CellMerges(hash, spec, hash', spec', a, b, k)
  }

  ghost predicate Mergeable(hash: Word -> nat, spec: RowSpec, hash': Word -> nat, spec': RowSpec) {
    && RowSpecOk(spec) && RowSpecOk(spec') && spec.m == spec'.m && spec.M == spec'.M
    && forall w: Word :: spec.g(spec.kv(hash(w)).inc) != 0 && spec'.g(spec'.kv(hash'(w)).inc) != 0
  }

  /** Merging with a row that has seen one word shows where that row has put it. */
  lemma {:induction false} OneWordMerges(hash: Word -> nat, spec: RowSpec, hash': Word -> nat, spec': RowSpec, w: Word)
    requires Mergeable(hash, spec, hash', spec')
    ensures RowMerges(hash, spec, hash', spec', [], [w]) <==> SameEntry(hash, spec, hash', spec', w)
  {
    var e, e' := spec.kv(hash(w)), spec'.kv(hash'(w));
    assert [] + [w] == [w];
    forall k | 0 <= k < spec.M
      ensures CellMerges(hash, spec, hash', spec', [], [w], k) <==>
                (if e'.key == k then spec'.g(e'.inc) else 0) == if e.key == k then spec.g(e.inc) else 0
    {
      OneItemCell(hash, spec, w, k);
      OneItemCell(hash', spec', w, k);
      var v := Cell(hash', spec', [w], k);
      assert spec.m.op(0, v) == v by {
        CellAppend(hash', spec', [w], w, k);
        assert spec'.m.dom(v) && Pair(v, 0);
      }
      assert Cell(hash, spec, [], k) == 0;
    }
    if RowMerges(hash, spec, hash', spec', [], [w]) {
      assert CellMerges(hash, spec, hash', spec', [], [w], e'.key);
    }
  }

  /** Merged rows are right for all inputs if and only if every word has the same entry on both sides. */
  lemma {:induction false} RowMergeIff(hash: Word -> nat, spec: RowSpec, hash': Word -> nat, spec': RowSpec)
    requires Mergeable(hash, spec, hash', spec')
    ensures (forall a, b :: RowMerges(hash, spec, hash', spec', a, b)) <==> SameEntries(hash, spec, hash', spec')
  {
    if SameEntries(hash, spec, hash', spec') {
      forall a, b, k | 0 <= k < spec.M
        ensures CellMerges(hash, spec, hash', spec', a, b, k)
      {
        CellsAgree(hash, spec, hash', spec', b, k);
        CellConcat(hash, spec, a, b, k);
      }
    } else {
      var w: Word :| !SameEntry(hash, spec, hash', spec', w);
      OneWordMerges(hash, spec, hash', spec', w);
    }
  }

  // The three tables.

  lemma {:induction false} HllMergeable(hash: Word -> nat, W: nat, hash': Word -> nat, W': nat, P: nat)
    requires P <= W && P <= W'
    ensures Mergeable(hash, HllRow(W, P), hash', HllRow(W', P))
  {
    HllRowOk(W, P);
    HllRowOk(W', P);
  }

  lemma {:induction false} AgmsMergeable(hash: Word -> nat, hash': Word -> nat, P: nat, j: nat)
    ensures Mergeable(hash, AgmsRow(P, COUNTER_BITS, j), hash', AgmsRow(P, COUNTER_BITS, j))
  {
    AgmsRowOk(P, COUNTER_BITS, j);
  }

  lemma {:induction false} CmMergeable(hash: Word -> nat, hash': Word -> nat, P: nat, j: nat)
    ensures Mergeable(hash, CmRow(P, COUNTER_BITS, j), hash', CmRow(P, COUNTER_BITS, j))
  {
    CmRowOk(P, COUNTER_BITS, j);
    BitSlices.MaskFits(1, COUNTER_BITS);
  }

  ghost predicate HllMerges(c: SktCollector, o: SktCollector, a: seq<Word>, b: seq<Word>)
    requires c.p_hll <= c.W && o.p_hll <= o.W
  {
    RowMerges(c.hash, c.HllSpec(), o.hash, o.HllSpec(), a, b)
  }

  ghost predicate AgmsMerges(c: SktCollector, o: SktCollector, a: seq<Word>, b: seq<Word>) {
    forall j :: 0 <= j < c.r_agms ==>
      RowMerges(c.hash, AgmsRow(c.p_agms, COUNTER_BITS, j), o.hash, AgmsRow(c.p_agms, COUNTER_BITS, j), a, b)
  }

  ghost predicate CmMerges(c: SktCollector, o: SktCollector, a: seq<Word>, b: seq<Word>) {
    forall j :: 0 <= j < c.r_cm ==>
      RowMerges(c.hash, CmRow(c.p_cm, COUNTER_BITS, j), o.hash, CmRow(c.p_cm, COUNTER_BITS, j), a, b)
  }

  /** What `c` makes of items `a` combined with what `o` makes of `b` is what `c` makes of both. */
  ghost predicate MergeIsSketch(c: SktCollector, o: SktCollector, a: seq<Word>, b: seq<Word>)
    requires c.p_hll <= c.W && o.p_hll <= o.W
  {
    HllMerges(c, o, a, b) && AgmsMerges(c, o, a, b) && CmMerges(c, o, a, b)
  }

  lemma {:induction false} AgreeingMerge(c: SktCollector, o: SktCollector, a: seq<Word>, b: seq<Word>)
    requires c.p_hll <= c.W && o.p_hll <= o.W && c.SameShape(o) && c.Agrees(o)
    ensures MergeIsSketch(c, o, a, b)
  {
    HllMergeable(c.hash, c.W, o.hash, o.W, c.p_hll);
    RowMergeIff(c.hash, c.HllSpec(), o.hash, o.HllSpec());
    forall j | 0 <= j < c.r_agms
      ensures RowMerges(c.hash, AgmsRow(c.p_agms, COUNTER_BITS, j), o.hash, AgmsRow(c.p_agms, COUNTER_BITS, j), a, b)
    {
      var spec := c.AgmsSpecs()[j];
      AgmsMergeable(c.hash, o.hash, c.p_agms, j);
      RowMergeIff(c.hash, spec, o.hash, spec);
    }
    forall j | 0 <= j < c.r_cm
      ensures RowMerges(c.hash, CmRow(c.p_cm, COUNTER_BITS, j), o.hash, CmRow(c.p_cm, COUNTER_BITS, j), a, b)
    {
      var spec := c.CmSpecs()[j];
      CmMergeable(c.hash, o.hash, c.p_cm, j);
      RowMergeIff(c.hash, spec, o.hash, spec);
    }
  }

  lemma {:induction false} MergeAgrees(c: SktCollector, o: SktCollector)
    requires c.p_hll <= c.W && o.p_hll <= o.W && c.SameShape(o)
    requires forall a, b :: MergeIsSketch(c, o, a, b)
    ensures c.Agrees(o)
  {
    forall a, b
      ensures RowMerges(c.hash, c.HllSpec(), o.hash, o.HllSpec(), a, b)
      ensures AgmsMerges(c, o, a, b) && CmMerges(c, o, a, b)
    {
      assert MergeIsSketch(c, o, a, b);
    }
    HllMergeable(c.hash, c.W, o.hash, o.W, c.p_hll);
    RowMergeIff(c.hash, c.HllSpec(), o.hash, o.HllSpec());
    forall j | 0 <= j < c.r_agms
      ensures SameEntries(c.hash, c.AgmsSpecs()[j], o.hash, c.AgmsSpecs()[j])
    {
      var spec := AgmsRow(c.p_agms, COUNTER_BITS, j);
      AgmsMergeable(c.hash, o.hash, c.p_agms, j);
      forall a, b
        ensures RowMerges(c.hash, spec, o.hash, spec, a, b)
      {
        assert AgmsMerges(c, o, a, b);
      }
      RowMergeIff(c.hash, spec, o.hash, spec);
    }
    forall j | 0 <= j < c.r_cm
      ensures SameEntries(c.hash, c.CmSpecs()[j], o.hash, c.CmSpecs()[j])
    {
      var spec := CmRow(c.p_cm, COUNTER_BITS, j);
      CmMergeable(c.hash, o.hash, c.p_cm, j);
      forall a, b
        ensures RowMerges(c.hash, spec, o.hash, spec, a, b)
      {
        assert CmMerges(c, o, a, b);
      }
      RowMergeIff(c.hash, spec, o.hash, spec);
    }
  }

  /** An accepted merge gives the sketch of both inputs, whatever they are, if and only if the entries agree. */
  lemma {:induction false} MergeIff(c: SktCollector, o: SktCollector)
    requires c.p_hll <= c.W && o.p_hll <= o.W && c.SameShape(o)
    ensures (forall a, b :: MergeIsSketch(c, o, a, b)) <==> c.Agrees(o)
  {
    if c.Agrees(o) {
      forall a, b
        ensures MergeIsSketch(c, o, a, b)
      {
        AgreeingMerge(c, o, a, b);
      }
    }
    if forall a, b :: MergeIsSketch(c, o, a, b) {
      MergeAgrees(c, o);
    }
  }

  // Tables.

  lemma {:induction false} TablesMerge(ta: seq<int>, tb: seq<int>, t: seq<int>, M: nat, j: nat,
        hash: Word -> nat, spec: RowSpec,
                                       hash': Word -> nat, spec': RowSpec, a: seq<Word>, b: seq<Word>)
    requires RowIs(ta, M, j, hash, spec, a) && RowIs(tb, M, j, hash', spec', b) && Sums(t, ta, tb, spec.m.op)
    requires spec.M == M
    ensures RowIs(t, M, j, hash, spec, a + b) <==> RowMerges(hash, spec, hash', spec', a, b)
  {
    forall k | 0 <= k < M
      ensures Idx(j, k, M) < |t|
      ensures t[Idx(j, k, M)] == Cell(hash, spec, a + b, k) <==> CellMerges(hash, spec, hash', spec', a, b, k)
    {
      assert ta[Idx(j, k, M)] == Cell(hash, spec, a, k) && tb[Idx(j, k, M)] == Cell(hash', spec', b, k);
    }
    if RowIs(t, M, j, hash, spec, a + b) {
      forall k | 0 <= k < M
        ensures CellMerges(hash, spec, hash', spec', a, b, k)
      {
        assert t[Idx(j, k, M)] == Cell(hash, spec, a + b, k);
      }
    }
  }

  /** `hash<IDENT>`: the key itself, in 32 bits. */
  function Ident(): Word -> nat {
    (w: Word) => w
  }

  /**
   A collector for 32-bit identity hashes accepts one for the 128-bit Murmur hash of the same
   shape. Its buckets are then not those of the one item that the other has seen.
   */
  lemma {:induction false} IdentAcceptsMurmur(c: SktCollector, o: SktCollector, h: seq<int>, h': seq<int>,
        merged: seq<int>, w: Word)
    requires c.W == 32 && c.hash == Ident() && o.W == 128 && o.hash == SoftwareHash()
    requires c.p_hll == o.p_hll == 13 && w == 0
    requires RowsHold(h, Pow2(13), [c.HllSpec()], c.hash, []) && RowsHold(h', Pow2(13), [o.HllSpec()], o.hash, [w])
    requires Sums(merged, h, h', MaxOp())
    ensures !RowsHold(merged, Pow2(13), [c.HllSpec()], c.hash, [w])
  {
    var spec, spec' := c.HllSpec(), o.HllSpec();
    assert spec.kv(c.hash(w)).key == 0 by {
      DivModUnique(0, 0, Pow2(19));
      DivModUnique(0, 0, Pow2(13));
    }
    assert spec'.kv(o.hash(w)).key == 0x301 by {
      WordZero.ZeroHashed(w);
      WordZero.ZeroBuckets(Hash128(w));
    }
    HllMergeable(c.hash, 32, o.hash, 128, 13);
    OneWordMerges(c.hash, spec, o.hash, spec', w);
    assert RowIs(h, Pow2(13), 0, c.hash, [spec][0], []) && RowIs(h', Pow2(13), 0, o.hash, [spec'][0], [w]);
    TablesMerge(h, h', merged, Pow2(13), 0, c.hash, spec, o.hash, spec', [], [w]);
    assert [] + [w] == [w];
    var specs := [spec];
    assert !RowIs(merged, Pow2(13), 0, c.hash, specs[0], [w]);
  }
}
