/**
 The software collector: three tables updated in place by repeatedly shifting a hash.

 `items` records what a collector has seen. `Valid` says that each table is then exactly
 the sequential sketch of these items, row by row, with the rows' keys taken from the same
 closed bit slices as in the hardware. Collecting, merging and cleaning keep this.
 */
module SoftwareCollector {
  import opened Streams
  import opened Monoids
  import opened Lanes
  import opened Network
  import opened Sketches
  import opened BitSlices
  import Medians

  const COUNTER_BITS := 32

  // Row-major tables.

  /** `j * M + k`: cell `k` of row `j`. */
  function Idx(j: nat, k: nat, M: nat): nat {
    if j == 0 then k else M + Idx(j - 1, k, M)
  }

  lemma {:induction false} IdxValue(j: nat, k: nat, M: nat)
    ensures Idx(j, k, M) == j * M + k
    decreases j
  {
    if j > 0 {
      IdxValue(j - 1, k, M);
      NextMultiple(j - 1, M);
    }
  }

  lemma {:induction false} IdxOffset(j: nat, k: nat, M: nat)
    ensures Idx(j, k, M) == Idx(j, 0, M) + k
    decreases j
  {
    if j > 0 {
      IdxOffset(j - 1, k, M);
    }
  }

  lemma {:induction false} IdxBound(j: nat, k: nat, R: nat, M: nat)
    requires j < R && k < M
    ensures Idx(j, k, M) < M * R
  {
    IdxValue(j, k, M);
    MulMonotone(j + 1, R, M);
    NextMultiple(j, M);
  }

  lemma {:induction false} IdxInjective(j: nat, k: nat, j': nat, k': nat, M: nat)
    requires k < M && k' < M && Idx(j, k, M) == Idx(j', k', M)
    ensures j == j' && k == k'
  {
    IdxValue(j, k, M);
    IdxValue(j', k', M);
    DivModUnique(j, k, M);
    DivModUnique(j', k', M);
  }

  /** Row and cell of a place in a table. */
  function RowMajor(i: nat, R: nat, M: nat): (p: (nat, nat))
    requires M > 0 && i < R * M
    ensures p.0 < R && p.1 < M && Idx(p.0, p.1, M) == i
  {
    DivNat(i, M);
    QuotientBound(i, R, M);
    IdxValue(i / M, i % M, M);
    (i / M, i % M)
  }

  /** Row `j` of a table with `M` cells per row is the sketch `spec` of the items. */
  ghost predicate RowIs(t: seq<int>, M: nat, j: nat, hash: Word -> nat, spec: RowSpec, items: seq<Word>) {
    forall k :: 0 <= k < M ==> Idx(j, k, M) < |t| && t[Idx(j, k, M)] == Cell(hash, spec, items, k)
  }

  /** The table consists of the sketches `specs` of the items, row by row. */
  ghost predicate RowsHold(t: seq<int>, M: nat, specs: seq<RowSpec>, hash: Word -> nat, items: seq<Word>) {
    forall j :: 0 <= j < |specs| ==> RowIs(t, M, j, hash, specs[j], items)
  }

  lemma {:induction false} CellAppend(hash: Word -> nat, spec: RowSpec, items: seq<Word>, x: Word, k: nat)
    requires RowSpecOk(spec)
    ensures spec.m.dom(Cell(hash, spec, items, k))
    ensures Cell(hash, spec, items + [x], k) ==
            if spec.kv(hash(x)).key == k then spec.m.op(Cell(hash, spec, items, k), spec.g(spec.kv(hash(x)).inc))
            else Cell(hash, spec, items, k)
  {
    var g := Contribution(hash, spec, k);
    SumSnoc(spec.m, g, items, x);
    WordContributionInDom(hash, spec, k);
    SumInDom(spec.m, g, items);
    assert Pair(Cell(hash, spec, items, k), 0) && Pair(0, Cell(hash, spec, items, k));
  }

  lemma {:induction false} OneItemCell(hash: Word -> nat, spec: RowSpec, w: Word, k: nat)
    requires RowSpecOk(spec)
    ensures Cell(hash, spec, [w], k) == if spec.kv(hash(w)).key == k then spec.g(spec.kv(hash(w)).inc) else 0
  {
    CellAppend(hash, spec, [], w, k);
    assert [] + [w] == [w];
    var v := spec.g(spec.kv(hash(w)).inc);
    assert spec.m.dom(v) && Pair(v, 0);
  }

  lemma {:induction false} CellConcat(hash: Word -> nat, spec: RowSpec, a: seq<Word>, b: seq<Word>, k: nat)
    requires RowSpecOk(spec)
    ensures Cell(hash, spec, a + b, k) == spec.m.op(Cell(hash, spec, a, k), Cell(hash, spec, b, k))
  {
    WordContributionInDom(hash, spec, k);
    SumConcat(spec.m, Contribution(hash, spec, k), a, b);
  }

  /** A cell depends only on the multiset of the items. */
  lemma {:induction false} CellPermutation(hash: Word -> nat, spec: RowSpec, a: seq<Word>, b: seq<Word>, k: nat)
    requires RowSpecOk(spec) && multiset(a) == multiset(b)
    ensures Cell(hash, spec, a, k) == Cell(hash, spec, b, k)
  {
    WordContributionInDom(hash, spec, k);
    SumPermutation(spec.m, Contribution(hash, spec, k), a, b);
  }

  /** Both hashes select the same cell for the same increment. */
  ghost predicate SameEntry(hash: Word -> nat, spec: RowSpec, hash': Word -> nat, spec': RowSpec, w: Word) {
    var e, e' := spec.kv(hash(w)), spec'.kv(hash'(w));
    e.key == e'.key && spec.g(e.inc) == spec'.g(e'.inc)
  }

  ghost predicate SameEntries(hash: Word -> nat, spec: RowSpec, hash': Word -> nat, spec': RowSpec) {
    forall w: Word :: SameEntry(hash, spec, hash', spec', w)
  }

  /** Rows with the same entries have the same cells. */
  lemma {:induction false} CellsAgree(hash: Word -> nat, spec: RowSpec, hash': Word -> nat, spec': RowSpec,
        s: seq<Word>, k: nat)
    requires spec.m == spec'.m && SameEntries(hash, spec, hash', spec')
    ensures Cell(hash, spec, s, k) == Cell(hash', spec', s, k)
    decreases |s|
  {
    if s != [] {
      CellsAgree(hash, spec, hash', spec', s[..|s| - 1], k);
      assert SameEntry(hash, spec, hash', spec', s[|s| - 1]);
    }
  }

  /** A table of one configuration serves the other, too. */
  lemma {:induction false} RowsTransfer(t: seq<int>, M: nat, specs: seq<RowSpec>, hash: Word -> nat,
                                        specs': seq<RowSpec>, hash': Word -> nat, items: seq<Word>)
    requires |specs| == |specs'| && RowsHold(t, M, specs', hash', items)
    requires forall j :: 0 <= j < |specs| ==> specs[j].m == specs'[j].m && SameEntries(hash, specs[j], hash', specs'[j])
    ensures RowsHold(t, M, specs, hash, items)
  {
    forall j, k | 0 <= j < |specs| && 0 <= k < M
      ensures Idx(j, k, M) < |t| && t[Idx(j, k, M)] == Cell(hash, specs[j], items, k)
    {
      assert RowIs(t, M, j, hash', specs'[j], items);
      CellsAgree(hash, specs[j], hash', specs'[j], items, k);
    }
  }

  /** Updating the cell an item selects makes the row the sketch of one more item. */
  lemma {:induction false} RowStep(t: seq<int>, M: nat, j: nat, hash: Word -> nat, spec: RowSpec, s: seq<Word>, x: Word)
    requires RowSpecOk(spec) && spec.M == M && RowIs(t, M, j, hash, spec, s)
    ensures var e := spec.kv(hash(x));
            && e.key < M && Idx(j, e.key, M) < |t|
            && var i := Idx(j, e.key, M);
               RowIs(t[i := spec.m.op(t[i], spec.g(e.inc))], M, j, hash, spec, s + [x])
  {
    var key := spec.kv(hash(x)).key;
    forall k | 0 <= k < M
      ensures k != key ==> Idx(j, k, M) != Idx(j, key, M)
      ensures Cell(hash, spec, s + [x], k) ==
              if k == key then spec.m.op(t[Idx(j, k, M)], spec.g(spec.kv(hash(x)).inc)) else t[Idx(j, k, M)]
    {
      CellAppend(hash, spec, s, x, k);
      if Idx(j, k, M) == Idx(j, key, M) {
        IdxInjective(j, k, j, key, M);
      }
    }
  }

  lemma {:induction false} RowKept(t: seq<int>, M: nat, j: nat, key: nat, v: int, i: nat, hash: Word -> nat,
        spec: RowSpec, s: seq<Word>)
    requires RowIs(t, M, i, hash, spec, s) && i != j && key < M && Idx(j, key, M) < |t|
    ensures RowIs(t[Idx(j, key, M) := v], M, i, hash, spec, s)
  {
    forall k | 0 <= k < M
      ensures Idx(i, k, M) != Idx(j, key, M)
    {
      if Idx(i, k, M) == Idx(j, key, M) {
        IdxInjective(i, k, j, key, M);
      }
    }
  }

  /** While an item is being added: rows before `j` have it, the others do not. */
  ghost predicate RowsUpTo(t: seq<int>, M: nat, specs: seq<RowSpec>, j: nat, hash: Word -> nat, s: seq<Word>, x: Word) {
    && (forall i :: 0 <= i < j && i < |specs| ==> RowIs(t, M, i, hash, specs[i], s + [x]))
    && (forall i :: j <= i < |specs| ==> RowIs(t, M, i, hash, specs[i], s))
  }

  lemma {:induction false} RowsStep(t: seq<int>, M: nat, specs: seq<RowSpec>, j: nat, hash: Word -> nat,
        s: seq<Word>, x: Word)
    requires j < |specs| && RowSpecOk(specs[j]) && specs[j].M == M && RowsUpTo(t, M, specs, j, hash, s, x)
    ensures var e := specs[j].kv(hash(x));
            && e.key < M && Idx(j, e.key, M) < |t|
            && var i := Idx(j, e.key, M);
               RowsUpTo(t[i := specs[j].m.op(t[i], specs[j].g(e.inc))], M, specs, j + 1, hash, s, x)
  {
    RowStep(t, M, j, hash, specs[j], s, x);
    var e := specs[j].kv(hash(x));
    var v := specs[j].m.op(t[Idx(j, e.key, M)], specs[j].g(e.inc));
    forall i | 0 <= i < |specs| && i != j
      ensures RowIs(t[Idx(j, e.key, M) := v], M, i, hash, specs[i], if i < j then s + [x] else s)
    {
      RowKept(t, M, j, e.key, v, i, hash, specs[i], if i < j then s + [x] else s);
    }
  }

  // The values the shifting loops see.

  /** A hash after `j` shifts by `step` bits each. */
  function Shifted(h: nat, step: nat, j: nat): nat {
    if j == 0 then h else Shr(Shifted(h, step, j - 1), step)
  }

  lemma {:induction false} ShiftedValue(h: nat, step: nat, j: nat)
    ensures Shifted(h, step, j) == h / Pow2(j * step)
    decreases j
  {
    if j == 0 {
      assert 0 * step == 0 && h / 1 == h;
    } else {
      ShiftedValue(h, step, j - 1);
      NextMultiple(j - 1, step);
      ShiftShift(h, (j - 1) * step, step);
    }
  }

  /** `(a & 2) - 1` */
  function SignOfBit1(a: nat): int {
    ((a / 2) % 2) * 2 - 1
  }

  /** Row `j` finds its cell in the low bits and its sign two above the bits dropped first. */
  lemma {:induction false} AgmsEntry(h: nat, a: nat, P: nat, j: nat)
    requires P > 0 && a == Shifted(h, P + 1, j)
    ensures AgmsKey(P, j)(h).key == a % Pow2(P)
    ensures Sign(AgmsKey(P, j)(h).inc) == SignOfBit1(Shr(a, P - 1))
    ensures Shr(Shr(a, P - 1), 2) == Shifted(h, P + 1, j + 1)
  {
    var lo := j * (P + 1);
    ShiftedValue(h, P + 1, j);
    ShiftShift(h, lo, P);
    ShiftShift(a, P - 1, 1);
    ShiftShift(a, P - 1, 2);
    assert Pow2(1) == 2 && Pow2(2) == 4;
  }

  /** Row `j` finds its cell in the low bits and counts by one. */
  lemma {:induction false} CmEntry(h: nat, c: nat, P: nat, j: nat)
    requires c == Shifted(h, P, j)
    ensures CmKey(P, j)(h).key == c % Pow2(P)
    ensures CmRow(P, COUNTER_BITS, j).g(CmKey(P, j)(h).inc) == 1
  {
    ShiftedValue(h, P, j);
    MaskFits(1, COUNTER_BITS);
    assert P * j == j * P;
  }

  /** `__builtin_clz` of the word size, or of the halves of a 128-bit word. */
  function ClzNz(x: nat, W: nat): nat {
    if W == 128 then ClzDouble(x, W / 2) else Clz(x, W)
  }

  lemma {:induction false} ClzNzValue(x: nat, W: nat)
    requires x < Pow2(W)
    ensures ClzNz(x, W) == Clz(x, W)
  {
    if W == 128 {
      ClzHalves(x, W / 2);
    }
  }

  /** Bucket and rank as the collector computes them. */
  lemma {:induction false} HllEntry(h: nat, W: nat, P: nat)
    requires 0 < P <= W && h < Pow2(W)
    ensures HllKey(W, P)(h).key == Shr(h, W - P)
    ensures HllKey(W, P)(h).inc == ClzNz(Sentinel(h, W, P), W) + 1
  {
    TopSlice(h, W, P);
    SentinelRank(h, W, P);
    ClzNzValue(Sentinel(h, W, P), W);
  }

  /** The outcome of a merge: done, or refused for tables of different shape. */
  datatype Merged = Done | HllIncompatible | AgmsIncompatible | CmIncompatible

  /** 32-bit additions as the compiled code performs them. */
  function AddSigned(a: int, b: int): int {
    SignedAdd(COUNTER_BITS).op(a, b)
  }

  function AddUnsigned(a: int, b: int): int {
    AddWrap(Pow2(COUNTER_BITS), 0).op(a, b)
  }

  /** One turn of the AGMS loop, on the hash `a` as shifted so far. */
  lemma {:induction false} AgmsTurn(t: seq<int>, R: nat, P: nat, j: nat, hash: Word -> nat, s: seq<Word>,
        x: Word, a: nat)
    requires P > 0 && j < R && a == Shifted(hash(x), P + 1, j)
    requires RowsUpTo(t, Pow2(P), AgmsRows(R, P, COUNTER_BITS), j, hash, s, x)
    ensures var i := Idx(j, 0, Pow2(P)) + a % Pow2(P);
            && i < |t|
            && RowsUpTo(t[i := AddSigned(t[i], SignOfBit1(Shr(a, P - 1)))], Pow2(P),
                        AgmsRows(R, P, COUNTER_BITS), j + 1, hash, s, x)
    ensures Shr(Shr(a, P - 1), 2) == Shifted(hash(x), P + 1, j + 1)
  {
    AgmsRowOk(P, COUNTER_BITS, j);
    RowsStep(t, Pow2(P), AgmsRows(R, P, COUNTER_BITS), j, hash, s, x);
    AgmsEntry(hash(x), a, P, j);
    IdxOffset(j, a % Pow2(P), Pow2(P));
  }

  /** The bucket update for one item. */
  lemma {:induction false} HllTurn(t: seq<int>, W: nat, P: nat, hash: Word -> nat, s: seq<Word>, x: Word)
    requires 0 < P <= W && hash(x) < Pow2(W) && RowsHold(t, Pow2(P), [HllRow(W, P)], hash, s)
    ensures var i := Shr(hash(x), W - P);
            && i < |t|
            && RowsHold(t[i := MAX.op(t[i], ClzNz(Sentinel(hash(x), W, P), W) + 1)], Pow2(P),
                        [HllRow(W, P)], hash, s + [x])
  {
    var specs := [HllRow(W, P)];
    assert RowIs(t, Pow2(P), 0, hash, specs[0], s);
    HllRowOk(W, P);
    RowStep(t, Pow2(P), 0, hash, specs[0], s, x);
    HllEntry(hash(x), W, P);
  }

  class SktCollector {
    const W: nat                  // hash width
    const hash: Word -> nat
    const p_hll: nat
    const hll: array<int>
    const r_agms: nat
    const p_agms: nat
    const agms: array<int>
    const r_cm: nat
    const p_cm: nat
    const cm: array<int>
    ghost var items: seq<Word>

    ghost predicate Sized()
      reads this
    {
      && p_hll <= W
      && (forall w: Word :: hash(w) < Pow2(W))
      && hll.Length == Pow2(p_hll)
      && agms.Length == Pow2(p_agms) * r_agms
      && cm.Length == Pow2(p_cm) * r_cm
      && hll != agms && hll != cm && agms != cm
    }

    function HllSpec(): RowSpec
      requires p_hll <= W
    {
      HllRow(W, p_hll)
    }

    function AgmsSpecs(): seq<RowSpec> {
      AgmsRows(r_agms, p_agms, COUNTER_BITS)
    }

    function CmSpecs(): seq<RowSpec> {
      CmRows(r_cm, p_cm, COUNTER_BITS)
    }

    /** Tables `h`, `a` and `c` are the sketch of `s`. */
    ghost predicate Represent(h: seq<int>, a: seq<int>, c: seq<int>, s: seq<Word>)
      requires p_hll <= W
    {
      && RowsHold(h, Pow2(p_hll), [HllSpec()], hash, s)
      && RowsHold(a, Pow2(p_agms), AgmsSpecs(), hash, s)
      && RowsHold(c, Pow2(p_cm), CmSpecs(), hash, s)
    }

    ghost predicate HllHolds(s: seq<Word>)
      requires p_hll <= W
      reads hll
    {
      RowsHold(hll[..], Pow2(p_hll), [HllSpec()], hash, s)
    }

    ghost predicate AgmsHolds(s: seq<Word>)
      reads agms
    {
      RowsHold(agms[..], Pow2(p_agms), AgmsSpecs(), hash, s)
    }

    ghost predicate CmHolds(s: seq<Word>)
      reads cm
    {
      RowsHold(cm[..], Pow2(p_cm), CmSpecs(), hash, s)
    }

    /** The tables are the sketch of the items. */
    ghost predicate Valid()
      reads this, hll, agms, cm
    {
      Sized() && Represent(hll[..], agms[..], cm[..], items)
    }

    /** The collector and the tables it owns. */
    function Repr(): set<object> {
      {this, hll, agms, cm}
    }

    constructor (W: nat, hash: Word -> nat, hp: nat, ar: nat, ap: nat, cr: nat, cp: nat)
      requires hp <= W && forall w: Word :: hash(w) < Pow2(W)
      ensures Valid() && items == []
      ensures this.W == W && this.hash == hash
      ensures p_hll == hp && r_agms == ar && p_agms == ap && r_cm == cr && p_cm == cp
      ensures fresh(Repr())
    {
      this.W, this.hash := W, hash;
      p_hll, r_agms, p_agms, r_cm, p_cm := hp, ar, ap, cr, cp;
      hll := new int[Pow2(hp)](_ => 0);
      agms := new int[Pow2(ap) * ar](_ => 0);
      cm := new int[Pow2(cp) * cr](_ => 0);
      items := [];
      new;
      Cleared();
    }

    /** Zeroed tables are the sketch of nothing. */
    lemma {:induction false} Cleared()
      requires Sized()
      requires forall i :: 0 <= i < hll.Length ==> hll[i] == 0
      requires forall i :: 0 <= i < agms.Length ==> agms[i] == 0
      requires forall i :: 0 <= i < cm.Length ==> cm[i] == 0
      ensures Represent(hll[..], agms[..], cm[..], [])
    {
      forall j, k | 0 <= j < r_agms && 0 <= k < Pow2(p_agms)
        ensures Idx(j, k, Pow2(p_agms)) < agms.Length
      {
        IdxBound(j, k, r_agms, Pow2(p_agms));
      }
      forall j, k | 0 <= j < r_cm && 0 <= k < Pow2(p_cm)
        ensures Idx(j, k, Pow2(p_cm)) < cm.Length
      {
        IdxBound(j, k, r_cm, Pow2(p_cm));
      }
    }

    /** Raise the bucket selected by the top bits to the rank of the rest. */
    method UpdateHll(x: Word, ghost s: seq<Word>)
      requires Sized() && 0 < p_hll && HllHolds(s)
      modifies hll
      ensures HllHolds(s + [x])
    {
      ghost var t := hll[..];
      HllTurn(t, W, p_hll, hash, s, x);

      var hashv := hash(x);
      var bucket := Shr(hashv, W - p_hll);
      var lzcnt := ClzNz(Sentinel(hashv, W, p_hll), W);
      if lzcnt >= hll[bucket] {
        hll[bucket] := lzcnt + 1;
      }
      assert hll[..] == t[bucket := if t[bucket] < lzcnt + 1 then lzcnt + 1 else t[bucket]];
    }

    /** Walk the rows, dropping `p_agms + 1` hash bits per row. */
    method UpdateAgms(x: Word, ghost s: seq<Word>)
      requires Sized() && 0 < p_agms && AgmsHolds(s)
      modifies agms
      ensures AgmsHolds(s + [x])
    {
      var hashv := hash(x);
      var ahashv, row_base, M := hashv, 0, Pow2(p_agms);
      for j := 0 to r_agms
        invariant row_base == Idx(j, 0, M)
        invariant ahashv == Shifted(hashv, p_agms + 1, j)
        invariant RowsUpTo(agms[..], M, AgmsSpecs(), j, hash, s, x)
      {
        ghost var t := agms[..];
        AgmsTurn(t, r_agms, p_agms, j, hash, s, x, ahashv);

        var pos := row_base + ahashv % M;
        ahashv := Shr(ahashv, p_agms - 1);
        AddAt(agms, pos, SignOfBit1(ahashv));
        row_base := row_base + M;
        ahashv := Shr(ahashv, 2);
      }
    }

    /** Walk the rows, dropping `p_cm` hash bits per row. */
    method UpdateCm(x: Word, ghost s: seq<Word>)
      requires Sized() && CmHolds(s)
      modifies cm
      ensures CmHolds(s + [x])
    {
      var hashv := hash(x);
      var chashv, row_base, M := hashv, 0, Pow2(p_cm);
      for j := 0 to r_cm
        invariant row_base == Idx(j, 0, M)
        invariant chashv == Shifted(hashv, p_cm, j)
        invariant RowsUpTo(cm[..], M, CmSpecs(), j, hash, s, x)
      {
        ghost var t := cm[..];
        CmRowOk(p_cm, COUNTER_BITS, j);
        RowsStep(t, M, CmSpecs(), j, hash, s, x);
        CmEntry(hashv, chashv, p_cm, j);

        var ofs := chashv % M;
        IdxOffset(j, ofs, M);
        cm[row_base + ofs] := AddUnsigned(cm[row_base + ofs], 1);
        row_base := row_base + M;
        chashv := Shr(chashv, p_cm);
        assert cm[..] == t[Idx(j, ofs, M) := AddUnsigned(t[Idx(j, ofs, M)], 1)];
      }
    }

    /** Collect one item. A shift by `p_hll` or `p_agms` minus one bits is only defined for positive values. */
    method CollectItem(x: Word)
      requires Valid() && 0 < p_hll && 0 < p_agms
      modifies hll, agms, cm, this`items
      ensures Valid() && items == old(items) + [x]
    {
      UpdateHll(x, items);
      UpdateAgms(x, items);
      UpdateCm(x, items);
      items := items + [x];
    }

    /** Collect a buffer. */
    method Collect(data: seq<Word>)
      requires Valid() && 0 < p_hll && 0 < p_agms
      modifies hll, agms, cm, this`items
      ensures Valid() && items == old(items) + data
    {
      for i := 0 to |data|
        invariant Valid() && items == old(items) + data[..i]
      {
        CollectItem(data[i]);
        assert data[..i + 1] == data[..i] + [data[i]];
      }
      assert data[..|data|] == data;
    }

    ghost predicate SameShape(o: SktCollector) {
      p_hll == o.p_hll && p_agms == o.p_agms && r_agms == o.r_agms && p_cm == o.p_cm && r_cm == o.r_cm
    }

    /** Both collectors enter every word into the same cells with the same values. */
    ghost predicate Agrees(o: SktCollector)
      requires p_hll <= W && o.p_hll <= o.W && SameShape(o)
    {
      && SameEntries(hash, HllSpec(), o.hash, o.HllSpec())
      && (forall j :: 0 <= j < r_agms ==> SameEntries(hash, AgmsSpecs()[j], o.hash, AgmsSpecs()[j]))
      && (forall j :: 0 <= j < r_cm ==> SameEntries(hash, CmSpecs()[j], o.hash, CmSpecs()[j]))
    }

    /** Either the very same collector or one with tables of its own. */
    ghost predicate Separate(o: SktCollector) {
      o == this ||
      (hll !in {o.hll, o.agms, o.cm} && agms !in {o.hll, o.agms, o.cm} && cm !in {o.hll, o.agms, o.cm})
    }

    /**
     Combine another collector's tables into this one. Shapes are checked, in the order
     of the tables; whether both use the same hash is not. The result is the sketch of both
     inputs when the entries agree, as they do for equal hashes.
     */
    method Merge(other: SktCollector) returns (res: Merged)
      requires Valid() && other.Valid() && Separate(other)
      modifies hll, agms, cm, this`items
      ensures res.Done? <==> SameShape(other)
      ensures res == if p_hll != other.p_hll then HllIncompatible
                     else if p_agms != other.p_agms || r_agms != other.r_agms then AgmsIncompatible
                     else if p_cm != other.p_cm || r_cm != other.r_cm then CmIncompatible
                     else Done
      ensures !res.Done? ==> Valid() && items == old(items)
      ensures res.Done? ==>
                && Sums(hll[..], old(hll[..]), old(other.hll[..]), MaxOp())
                && Larger(hll[..], old(hll[..]), old(other.hll[..]))
                && Sums(agms[..], old(agms[..]), old(other.agms[..]), AddSigned)
                && Sums(cm[..], old(cm[..]), old(other.cm[..]), AddUnsigned)
      ensures res.Done? && Agrees(other) ==> Valid() && items == old(items) + old(other.items)
    {
      if p_hll != other.p_hll {
        return HllIncompatible;
      }
      if p_agms != other.p_agms || r_agms != other.r_agms {
        return AgmsIncompatible;
      }
      if p_cm != other.p_cm || r_cm != other.r_cm {
        return CmIncompatible;
      }
      ghost var a, b := items, other.items;
      ghost var ta, tb := (hll[..], agms[..], cm[..]), (other.hll[..], other.agms[..], other.cm[..]);
      MergeTables(other);
      if Agrees(other) {
        items := a + b;
        assert Represent(hll[..], agms[..], cm[..], items) by {
          Transfer(other, tb, b);
          Merging(ta, tb, (hll[..], agms[..], cm[..]), a, b);
        }
      }
      return Done;
    }

    method MergeTables(other: SktCollector)
      requires Sized() && other.Sized() && SameShape(other) && Separate(other)
      modifies hll, agms, cm
      ensures Sums(hll[..], old(hll[..]), old(other.hll[..]), MaxOp())
      ensures Larger(hll[..], old(hll[..]), old(other.hll[..]))
      ensures Sums(agms[..], old(agms[..]), old(other.agms[..]), AddSigned)
      ensures Sums(cm[..], old(cm[..]), old(other.cm[..]), AddUnsigned)
    {
      MergeMax(hll, other.hll);
      MergeSum(agms, other.agms, AddSigned);
      MergeSum(cm, other.cm, AddUnsigned);
    }

    lemma {:induction false} Transfer(o: SktCollector, t: (seq<int>, seq<int>, seq<int>), s: seq<Word>)
      requires p_hll <= W && o.p_hll <= o.W && SameShape(o) && Agrees(o) && o.Represent(t.0, t.1, t.2, s)
      ensures Represent(t.0, t.1, t.2, s)
    {
      RowsTransfer(t.0, Pow2(p_hll), [HllSpec()], hash, [o.HllSpec()], o.hash, s);
      RowsTransfer(t.1, Pow2(p_agms), AgmsSpecs(), hash, o.AgmsSpecs(), o.hash, s);
      RowsTransfer(t.2, Pow2(p_cm), CmSpecs(), hash, o.CmSpecs(), o.hash, s);
    }

    /** Collectors with the same hash agree. */
    lemma {:induction false} EqualHashes(o: SktCollector)
      requires p_hll <= W && SameShape(o) && W == o.W && hash == o.hash
      ensures Agrees(o)
    {
    }

    /** Tables of two item sequences, combined, are the tables of both together. */
    lemma {:induction false} Merging(ta: (seq<int>, seq<int>, seq<int>), tb: (seq<int>, seq<int>, seq<int>),
                                     t: (seq<int>, seq<int>, seq<int>), a: seq<Word>, b: seq<Word>)
      requires p_hll <= W && Represent(ta.0, ta.1, ta.2, a) && Represent(tb.0, tb.1, tb.2, b)
      requires Sums(t.0, ta.0, tb.0, MaxOp()) && Sums(t.1, ta.1, tb.1, AddSigned) && Sums(t.2, ta.2, tb.2, AddUnsigned)
      ensures Represent(t.0, t.1, t.2, a + b)
    {
      HllRowOk(W, p_hll);
      RowsMerged(ta.0, tb.0, t.0, Pow2(p_hll), [HllSpec()], MaxOp(), hash, a, b);
      AgmsRowsOk(r_agms, p_agms, COUNTER_BITS);
      RowsMerged(ta.1, tb.1, t.1, Pow2(p_agms), AgmsSpecs(), AddSigned, hash, a, b);
      CmRowsOk(r_cm, p_cm, COUNTER_BITS);
      RowsMerged(ta.2, tb.2, t.2, Pow2(p_cm), CmSpecs(), AddUnsigned, hash, a, b);
    }

    /** Back to the constructor's state. */
    method Clean()
      requires Sized()
      modifies hll, agms, cm, this`items
      ensures Valid() && items == []
    {
      Zero(hll);
      Zero(agms);
      Zero(cm);
      items := [];
      Cleared();
    }

    /**
     Twice the median of the first values of the table, one for each row, which are sorted for
     it. Without rows there would be no value in the middle.
     */
    method GetMedian() returns (twice: int)
      requires Sized() && 0 < r_agms
      modifies agms
      ensures var rows := old(agms[..r_agms]);
              && twice == TwiceMedian(rows)
              && agms[..r_agms] == Medians.Sorted(rows) && agms[r_agms..] == old(agms[r_agms..])
    {
      RowsFit();
      Medians.Sort(agms, r_agms);
      ghost var rows := agms[..r_agms];
      twice := AddSigned(agms[(r_agms - 1) / 2], agms[r_agms / 2]);
      assert rows[(r_agms - 1) / 2] == agms[(r_agms - 1) / 2] && rows[r_agms / 2] == agms[r_agms / 2];
    }

    lemma {:induction false} RowsFit()
      requires Sized()
      ensures r_agms <= agms.Length
    {
      MulMonotone(1, Pow2(p_agms), r_agms);
    }

    /** Add up the squares of each row of another collector. */
    method MergeColumns(other: SktCollector)
      requires Sized() && other.Sized() && other.r_agms <= agms.Length && agms != other.agms
      modifies agms
      ensures forall i :: 0 <= i < other.r_agms ==>
                agms[i] == AddSquares(old(agms[i]), RowOf(other.agms[..], i, Pow2(other.p_agms)))
      ensures forall i :: other.r_agms <= i < agms.Length ==> agms[i] == old(agms[i])
    {
      var N := Pow2(other.p_agms);
      ghost var before, table := agms[..], other.agms[..];
      for i := 0 to other.r_agms
        invariant other.agms[..] == table
        invariant forall k :: 0 <= k < agms.Length ==>
                    agms[k] == if k < i then AddSquares(before[k], RowOf(table, k, N)) else before[k]
      {
        SquareRow(agms, i, other.agms, N, other.r_agms, AddSigned);
      }
    }
  }

  /** Add to a signed counter. */
  method AddAt(a: array<int>, pos: nat, x: int)
    requires pos < a.Length
    modifies a
    ensures a[..] == old(a[..])[pos := AddSigned(old(a[pos]), x)]
  {
    a[pos] := AddSigned(a[pos], x);
  }

  lemma {:induction false} RowIsSlice(t: seq<int>, i: nat, R: nat, N: nat)
    requires i < R && |t| == N * R
    ensures 0 <= i * N && i * N + N <= |t| && RowOf(t, i, N) == t[i * N..i * N + N]
  {
    MulMonotone(i + 1, R, N);
    NextMultiple(i, N);
    forall j | 0 <= j < N
      ensures RowOf(t, i, N)[j] == t[i * N + j]
    {
      IdxValue(i, j, N);
    }
  }

  /** Add the squares of row `i` of a table to one counter. */
  method SquareRow(acc: array<int>, i: nat, table: array<int>, N: nat, R: nat, add: (int, int) -> int)
    requires i < acc.Length && acc != table && i < R && table.Length == N * R
    modifies acc
    ensures acc[i] == SquaresBy(add, old(acc[i]), RowOf(table[..], i, N))
    ensures forall k :: 0 <= k < acc.Length && k != i ==> acc[k] == old(acc[k])
  {
    RowIsSlice(table[..], i, R, N);
    var first := i * N;
    ghost var row := RowOf(table[..], i, N);
    for j := 0 to N
      invariant acc[i] == SquaresBy(add, old(acc[i]), row[..j])
      invariant forall k :: 0 <= k < acc.Length && k != i ==> acc[k] == old(acc[k])
    {
      var cand := table[first + j];
      assert cand == row[j];
      assert row[..j + 1][..j] == row[..j];
      acc[i] := add(acc[i], Square(cand));
    }
    assert row[..N] == row;
  }

  /** `t` combines `ta` and `tb` cell by cell. */
  ghost predicate Sums(t: seq<int>, ta: seq<int>, tb: seq<int>, op: (int, int) -> int) {
    |ta| == |tb| == |t| && forall i :: 0 <= i < |t| ==> t[i] == op(ta[i], tb[i])
  }

  /** `t[i]` is the larger one of `ta[i]` and `tb[i]`. */
  ghost predicate Larger(t: seq<int>, ta: seq<int>, tb: seq<int>) {
    && |ta| == |tb| == |t|
    && forall i :: 0 <= i < |t| ==> ta[i] <= t[i] && tb[i] <= t[i] && (t[i] == ta[i] || t[i] == tb[i])
  }

  method MergeMax(dst: array<int>, src: array<int>)
    requires dst.Length == src.Length
    modifies dst
    ensures Sums(dst[..], old(dst[..]), old(src[..]), MaxOp())
    ensures Larger(dst[..], old(dst[..]), old(src[..]))
  {
    for i := 0 to src.Length
      invariant forall k :: 0 <= k < i ==> dst[k] == MaxOp()(old(dst[k]), old(src[k]))
      invariant forall k :: i <= k < dst.Length ==> dst[k] == old(dst[k]) && src[k] == old(src[k])
    {
      var cand := src[i];
      if dst[i] < cand {
        dst[i] := cand;
      }
    }
  }

  method MergeSum(dst: array<int>, src: array<int>, add: (int, int) -> int)
    requires dst.Length == src.Length
    modifies dst
    ensures Sums(dst[..], old(dst[..]), old(src[..]), add)
  {
    for i := 0 to src.Length
      invariant forall k :: 0 <= k < i ==> dst[k] == add(old(dst[k]), old(src[k]))
      invariant forall k :: i <= k < dst.Length ==> dst[k] == old(dst[k]) && src[k] == old(src[k])
    {
      dst[i] := add(dst[i], src[i]);
    }
  }

  method Zero(a: array<int>)
    modifies a
    ensures forall i :: 0 <= i < a.Length ==> a[i] == 0
  {
    for i := 0 to a.Length
      invariant forall k :: 0 <= k < i ==> a[k] == 0
    {
      a[i] := 0;
    }
  }

  /** Tables combined cell by cell are the tables of both item sequences together. */
  lemma {:induction false} RowsMerged(ta: seq<int>, tb: seq<int>, t: seq<int>, M: nat, specs: seq<RowSpec>,
        op: (int, int) -> int,
                                      hash: Word -> nat, a: seq<Word>, b: seq<Word>)
    requires forall j :: 0 <= j < |specs| ==> RowSpecOk(specs[j]) && forall x, y :: specs[j].m.op(x, y) == op(x, y)
    requires RowsHold(ta, M, specs, hash, a) && RowsHold(tb, M, specs, hash, b) && Sums(t, ta, tb, op)
    ensures RowsHold(t, M, specs, hash, a + b)
  {
    forall j, k | 0 <= j < |specs| && 0 <= k < M
      ensures Idx(j, k, M) < |t| && t[Idx(j, k, M)] == Cell(hash, specs[j], a + b, k)
    {
      assert RowIs(ta, M, j, hash, specs[j], a) && RowIs(tb, M, j, hash, specs[j], b);
      CellConcat(hash, specs[j], a, b, k);
    }
  }

  /** The cells of row `i`. */
  function RowOf(t: seq<int>, i: nat, M: nat): (r: seq<int>)
    ensures |r| == M
  {
    seq(M, k requires 0 <= k < M => if Idx(i, k, M) < |t| then t[Idx(i, k, M)] else 0)
  }

  function SquaresBy(add: (int, int) -> int, acc: int, row: seq<int>): int {
    if row == [] then acc
    else add(SquaresBy(add, acc, row[..|row| - 1]), Square(row[|row| - 1]))
  }

  /** The two values in the middle of the sorted rows, added up in 32 bits. */
  function TwiceMedian(rows: seq<int>): int
    requires rows != []
  {
    var middle := Medians.Middle(Medians.Sorted(rows));
    AddSigned(middle.0, middle.1)
  }

  /** The squares of a row added to a 32-bit counter. */
  function AddSquares(acc: int, row: seq<int>): int {
    SquaresBy(AddSigned, acc, row)
  }
}
