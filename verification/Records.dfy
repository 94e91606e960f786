/**
 What the composition emits: for every job one record of all sketch results, in a fixed
 layout that the host can read back.
 */
module Records {
  import opened Streams
  import opened Results
  import opened Compose

  // The record of a job.

  function ValueAt(s: seq<int>, j: nat): int {
    if j < |s| then s[j] else 0
  }

  function Sums(agms: seq<Fifo<int>>, j: nat, k: nat): (r: seq<int>)
    requires k <= |agms|
    ensures |r| == k
  {
    seq(k, r requires 0 <= r < k => ValueAt(agms[r].log, j))
  }

  function Pairs(cells: seq<int>): (r: seq<int>)
    ensures |r| == |cells| / 2
  {
    seq(|cells| / 2, t requires 0 <= t < |cells| / 2 => Pack(cells[2 * t], cells[2 * t + 1]))
  }

  /** AGMS sums, basic metrics, estimate with cycle count, paired Count-Min cells. */
  function Record(sums: seq<int>, basic: seq<int>, estimate: int, cc: int, cells: seq<int>): seq<int> {
    sums + basic + [Pack(estimate, cc)] + Pairs(cells)
  }

  function RecordAt(ccs: seq<int>, i: Inputs, j: nat): seq<int> {
    Record(Sums(i.agms, j, |i.agms|), JobAt(i.basic.Consumed(), j),
           ValueAt(i.card.log, j), ValueAt(ccs, j), JobAt(i.cm.Consumed(), j))
  }

  // Where the composition stands within a record.

  /** What has been read of the inputs when `n` records are complete. */
  ghost predicate InTurn(s: Composer, i: Inputs, n: nat) {
    var R := |i.agms|;
    && s.idx <= R + 2
    && (forall r :: 0 <= r < R ==> i.agms[r].rd == if r < s.idx then n + 1 else n)
    && |Jobs(i.basic.Consumed())| == (if s.idx > R then n + 1 else n)
    && (s.idx != R ==> Open(i.basic.Consumed()) == [])
    && i.card.rd == |s.ccs| == (if s.idx > R + 1 then n + 1 else n)
    && |Jobs(i.cm.Consumed())| == n
    && (s.idx != R + 2 ==> Open(i.cm.Consumed()) == [])
    && var cells := Open(i.cm.Consumed());
       s.lo == if |cells| % 2 == 1 then Some(cells[|cells| - 1]) else None
  }

  /** The words of the open record. */
  function Progress(s: Composer, i: Inputs, n: nat): seq<int> {
    var R := |i.agms|;
    if s.idx < R then Sums(i.agms, n, s.idx)
    else if s.idx == R then Sums(i.agms, n, R) + Open(i.basic.Consumed())
    else if s.idx == R + 1 then Sums(i.agms, n, R) + JobAt(i.basic.Consumed(), n)
    else Record(Sums(i.agms, n, R), JobAt(i.basic.Consumed(), n),
                ValueAt(i.card.log, n), ValueAt(s.ccs, n), Open(i.cm.Consumed()))
  }

  ghost predicate Composed(s: Composer, i: Inputs, js: seq<seq<int>>, ow: seq<int>) {
    && InTurn(s, i, |js|)
    && ow == Progress(s, i, |js|)
    && forall j :: 0 <= j < |js| ==> js[j] == RecordAt(s.ccs, i, j)
  }

  ghost predicate ComposeInv(s: Composer, i: Inputs, o: seq<Flit<int>>) {
    Composed(s, i, Jobs(o), Open(o))
  }

  /** Every job of Count-Min cells has an even number of them. */
  ghost predicate EvenCells(cm: Fifo<Flit<int>>) {
    forall j :: 0 <= j < |Jobs(cm.log)| ==> |Jobs(cm.log)[j]| % 2 == 0
  }

  // Later reads and writes leave finished records alone.

  ghost predicate Extends(i: Inputs, i': Inputs) {
    && |i.agms| == |i'.agms|
    && (forall r :: 0 <= r < |i.agms| ==> i.agms[r].log <= i'.agms[r].log)
    && Jobs(i.basic.Consumed()) <= Jobs(i'.basic.Consumed())
    && i.card.log <= i'.card.log
    && Jobs(i.cm.Consumed()) <= Jobs(i'.cm.Consumed())
  }

  lemma {:induction false} RecordStable(ccs: seq<int>, i: Inputs, ccs': seq<int>, i': Inputs, j: nat)
    requires Extends(i, i') && ccs <= ccs'
    requires forall r :: 0 <= r < |i.agms| ==> j < |i.agms[r].log|
    requires j < |Jobs(i.basic.Consumed())| && j < |i.card.log| && j < |ccs| && j < |Jobs(i.cm.Consumed())|
    ensures RecordAt(ccs, i, j) == RecordAt(ccs', i', j)
  {
    assert Sums(i.agms, j, |i.agms|) == Sums(i'.agms, j, |i.agms|);
  }

  lemma {:induction false} RecordsStable(s: Composer, i: Inputs, js: seq<seq<int>>, s': Composer, i': Inputs)
    requires InTurn(s, i, |js|) && Extends(i, i') && s.ccs <= s'.ccs
    requires forall j :: 0 <= j < |js| ==> js[j] == RecordAt(s.ccs, i, j)
    ensures forall j :: 0 <= j < |js| ==> js[j] == RecordAt(s'.ccs, i', j)
  {
    forall j | 0 <= j < |js|
      ensures js[j] == RecordAt(s'.ccs, i', j)
    {
      RecordStable(s.ccs, i, s'.ccs, i', j);
    }
  }

  lemma {:induction false} PairsSnoc(cells: seq<int>, x: int)
    ensures Pairs(cells + [x]) ==
            if |cells| % 2 == 1 then Pairs(cells) + [Pack(cells[|cells| - 1], x)] else Pairs(cells)
  {
  }

  // The four kinds of steps.

  lemma {:induction false} SumTaken(s: Composer, i: Inputs, dst: Fifo<Flit<int>>, js: seq<seq<int>>, ow: seq<int>)
    requires Composed(s, i, js, ow) && s.idx < |i.agms| && !i.agms[s.idx].Empty()
    ensures var (s', i', dst') := ComposeStep(s, i, dst);
            Composed(s', i', js, ow + [i.agms[s.idx].Peek()])
  {
    var (s', i', dst') := ComposeStep(s, i, dst);
    RecordsStable(s, i, js, s', i');
    assert Sums(i'.agms, |js|, s.idx + 1) == Sums(i.agms, |js|, s.idx) + [i.agms[s.idx].Peek()];
    assert s.idx + 1 == |i.agms| ==> Sums(i'.agms, |js|, |i.agms|) + [] == Sums(i'.agms, |js|, s.idx + 1);
  }

  lemma {:induction false} BasicTaken(s: Composer, i: Inputs, dst: Fifo<Flit<int>>, js: seq<seq<int>>, ow: seq<int>)
    requires Composed(s, i, js, ow) && s.idx == |i.agms| && !i.basic.Empty()
    ensures var (s', i', dst') := ComposeStep(s, i, dst);
            Composed(s', i', js, ow + [i.basic.Peek().val])
  {
    var (s', i', dst') := ComposeStep(s, i, dst);
    var x := i.basic.Peek();
    assert forall j :: 0 <= j < |js| ==> js[j] == RecordAt(s'.ccs, i', j) by {
      RecordsStable(s, i, js, s', i');
    }
    JobsSnoc(i.basic.Consumed(), x);
    assert ow + [x.val] == Sums(i.agms, |js|, |i.agms|) + (Open(i.basic.Consumed()) + [x.val]);
  }

  lemma {:induction false} EstimateTaken(s: Composer, i: Inputs, dst: Fifo<Flit<int>>, js: seq<seq<int>>, ow: seq<int>)
    requires Composed(s, i, js, ow) && s.idx == |i.agms| + 1 && !i.card.Empty()
    ensures var (s', i', dst') := ComposeStep(s, i, dst);
            Composed(s', i', js, ow + [Pack(i.card.Peek(), s'.cc)])
  {
    var (s', i', dst') := ComposeStep(s, i, dst);
    RecordsStable(s, i, js, s', i');
    assert Pairs([]) == [];
  }

  lemma {:induction false} FirstCellTaken(s: Composer, i: Inputs, dst: Fifo<Flit<int>>, js: seq<seq<int>>, ow: seq<int>)
    requires Composed(s, i, js, ow) && s.idx == |i.agms| + 2 && !i.cm.Empty() && s.lo.None? && !i.cm.Peek().last
    ensures var (s', i', dst') := ComposeStep(s, i, dst);
            Composed(s', i', js, ow) && dst' == dst
  {
    var (s', i', dst') := ComposeStep(s, i, dst);
    JobsSnoc(i.cm.Consumed(), i.cm.Peek());
    PairsSnoc(Open(i.cm.Consumed()), i.cm.Peek().val);
    RecordsStable(s, i, js, s', i');
  }

  /** The record with one more pair of cells. */
  lemma {:induction false} PairAdded(s: Composer, i: Inputs, js: seq<seq<int>>, ow: seq<int>)
    requires Composed(s, i, js, ow) && s.idx == |i.agms| + 2 && !i.cm.Empty() && s.lo.Some?
    ensures ow + [Pack(s.lo.value, i.cm.Peek().val)]
         == Record(Sums(i.agms, |js|, |i.agms|), JobAt(i.basic.Consumed(), |js|), ValueAt(i.card.log, |js|),
                   ValueAt(s.ccs, |js|), Open(i.cm.Consumed()) + [i.cm.Peek().val])
  {
    PairsSnoc(Open(i.cm.Consumed()), i.cm.Peek().val);
  }

  lemma {:induction false} InnerPairTaken(s: Composer, i: Inputs, dst: Fifo<Flit<int>>, js: seq<seq<int>>, ow: seq<int>)
    requires Composed(s, i, js, ow) && s.idx == |i.agms| + 2 && !i.cm.Empty() && s.lo.Some? && !i.cm.Peek().last
    ensures var (s', i', dst') := ComposeStep(s, i, dst);
            Composed(s', i', js, ow + [Pack(s.lo.value, i.cm.Peek().val)])
  {
    var (s', i', dst') := ComposeStep(s, i, dst);
    PairAdded(s, i, js, ow);
    JobsSnoc(i.cm.Consumed(), i.cm.Peek());
    RecordsStable(s, i, js, s', i');
  }

  lemma {:induction false} FinalPairTaken(s: Composer, i: Inputs, dst: Fifo<Flit<int>>, js: seq<seq<int>>, ow: seq<int>)
    requires Composed(s, i, js, ow) && s.idx == |i.agms| + 2 && !i.cm.Empty() && s.lo.Some? && i.cm.Peek().last
    ensures var (s', i', dst') := ComposeStep(s, i, dst);
            Composed(s', i', js + [ow + [Pack(s.lo.value, i.cm.Peek().val)]], [])
  {
    var (s', i', dst') := ComposeStep(s, i, dst);
    PairAdded(s, i, js, ow);
    JobsSnoc(i.cm.Consumed(), i.cm.Peek());
    RecordsStable(s, i, js, s', i');
    RecordClosed(s', i', js, ow + [Pack(s.lo.value, i.cm.Peek().val)]);
  }

  lemma {:induction false} RecordClosed(s: Composer, i: Inputs, js: seq<seq<int>>, w: seq<int>)
    requires InTurn(s, i, |js| + 1) && s.idx == 0 && Open(i.basic.Consumed()) == []
    requires w == RecordAt(s.ccs, i, |js|)
    requires forall j :: 0 <= j < |js| ==> js[j] == RecordAt(s.ccs, i, j)
    ensures Composed(s, i, js + [w], [])
  {
    assert Progress(s, i, |js| + 1) == [];
  }

  /** The next cell closes its job, but would be the first half of a word. */
  predicate LoneCell(s: Composer, i: Inputs) {
    s.idx == |i.agms| + 2 && !i.cm.Empty() && s.lo.None? && i.cm.Peek().last
  }

  lemma {:induction false} LoneCellBreaks(s: Composer, i: Inputs, dst: Fifo<Flit<int>>)
    requires ComposeInv(s, i, dst.log) && LoneCell(s, i)
    ensures var (s', i', dst') := ComposeStep(s, i, dst);
            !ComposeInv(s', i', dst'.log)
  {
    JobsSnoc(i.cm.Consumed(), i.cm.Peek());
  }

  lemma {:induction false} RegularStep(s: Composer, i: Inputs, dst: Fifo<Flit<int>>)
    requires ComposeInv(s, i, dst.log) && !LoneCell(s, i)
    ensures var (s', i', dst') := ComposeStep(s, i, dst);
            ComposeInv(s', i', dst'.log)
  {
    var R, js, ow := |i.agms|, Jobs(dst.log), Open(dst.log);
    var (s', i', dst') := ComposeStep(s, i, dst);
    if dst'.log != dst.log {
      JobsSnoc(dst.log, dst'.log[|dst.log|]);
    }
    if s.idx < R && !i.agms[s.idx].Empty() {
      SumTaken(s, i, dst, js, ow);
    } else if s.idx == R && !i.basic.Empty() {
      BasicTaken(s, i, dst, js, ow);
    } else if s.idx == R + 1 && !i.card.Empty() {
      EstimateTaken(s, i, dst, js, ow);
    } else if s.idx == R + 2 && !i.cm.Empty() && s.lo.None? {
      FirstCellTaken(s, i, dst, js, ow);
    } else if s.idx == R + 2 && !i.cm.Empty() && i.cm.Peek().last {
      FinalPairTaken(s, i, dst, js, ow);
    } else if s.idx == R + 2 && !i.cm.Empty() {
      InnerPairTaken(s, i, dst, js, ow);
    } else {
      assert InTurn(s', i', |js|);
      RecordsStable(s, i, js, s', i');
    }
  }

  /** In whatever order results arrive, records stay framed exactly as long as no job leaves a cell over. */
  lemma {:induction false} ComposeStepIff(s: Composer, i: Inputs, dst: Fifo<Flit<int>>)
    requires ComposeInv(s, i, dst.log)
    ensures var (s', i', dst') := ComposeStep(s, i, dst);
            ComposeInv(s', i', dst'.log) <==> !LoneCell(s, i)
  {
    if LoneCell(s, i) {
      LoneCellBreaks(s, i, dst);
    } else {
      RegularStep(s, i, dst);
    }
  }

  lemma {:induction false} EvenJob(cm: Fifo<Flit<int>>, c: seq<Flit<int>>, x: Flit<int>)
    requires EvenCells(cm) && c + [x] <= cm.log && x.last
    ensures (|Open(c)| + 1) % 2 == 0
  {
    JobsSnoc(c, x);
    JobsPrefix(c + [x], cm.log);
    assert Jobs(cm.log)[|Jobs(c)|] == Open(c) + [x.val];
  }

  /** Jobs with an even number of cells never leave one over. */
  lemma {:induction false} EvenCellsPair(s: Composer, i: Inputs, dst: Fifo<Flit<int>>)
    requires ComposeInv(s, i, dst.log) && EvenCells(i.cm)
    ensures !LoneCell(s, i)
  {
    if LoneCell(s, i) {
      EvenJob(i.cm, i.cm.Consumed(), i.cm.Peek());
    }
  }
}
