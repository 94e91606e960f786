/**
 Every action of the kernel keeps the invariant, so it holds after every schedule. Given
 an even number of Count-Min cells every action keeps the framing of the records, too.
 */
module KernelSafety {
  import opened Streams
  import opened Lanes
  import opened Funnel
  import opened Collecting
  import opened Network
  import opened Joined
  import opened Results
  import opened Basic
  import opened Compose
  import opened Records
  import opened HllEstimation
  import opened Kernel

  // What the network leaves alone.

  lemma {:induction false} NetFeed(cfg: Config, net: Net, x: Wide)
    requires NetInv(cfg, net) && |x.val| == cfg.N
    ensures NetInv(cfg, net.(src := net.src.Write(x)))
  {
  }

  lemma {:induction false} NetSetJoined(cfg: Config, net: Net, k: nat, r: nat, f: Fifo<Flit<int>>)
    requires NetInv(cfg, net) && Possible(cfg, Reduce(k, r))
    requires |net.sketches| == |cfg.sketches| && |net.sketches[k].rows| == |cfg.sketches[k]|
    requires f.log == JoinedAt(net, k, r).log
    ensures NetInv(cfg, SetJoined(net, k, r, f))
  {
    RowHolds(cfg, net, k, r);
    UpdateRowInv(cfg, net, k, r, net.sketches[k].rows[r].(joined := f));
  }

  /** The same rows, and nothing more consumed from them. */
  ghost predicate SameJoined(a: Net, b: Net) {
    && |a.sketches| == |b.sketches|
    && (forall k :: 0 <= k < |a.sketches| ==> |a.sketches[k].rows| == |b.sketches[k].rows|)
    && forall k, r :: 0 <= k < |a.sketches| && 0 <= r < |a.sketches[k].rows| ==>
         JoinedAt(a, k, r).Consumed() == JoinedAt(b, k, r).Consumed()
  }

  lemma {:induction false} UpdateRowKeepsJoined(net: Net, k: nat, r: nat, row: Row)
    requires k < |net.sketches| && r < |net.sketches[k].rows|
    requires row.joined.Consumed() == JoinedAt(net, k, r).Consumed()
    ensures SameJoined(net, UpdateRow(net, k, r, row))
  {
  }

  lemma {:induction false} KeyStepKeepsJoined(cfg: Config, net: Net, k: nat, i: nat)
    requires NetInv(cfg, net) && Possible(cfg, Key(k, i))
    ensures SameJoined(net, NetStep(cfg, net, Key(k, i)))
  {
    assert SketchInv(cfg, cfg.sketches[k], net.sketches[k], net.lanes);
    var t := NetStep(cfg, net, Key(k, i));
    forall r | 0 <= r < |net.sketches[k].rows|
      ensures JoinedAt(t, k, r) == JoinedAt(net, k, r)
    {
    }
  }

  lemma {:induction false} NetStepKeepsJoined(cfg: Config, net: Net, c: Choice)
    requires NetInv(cfg, net) && Possible(cfg, c)
    ensures SameJoined(net, NetStep(cfg, net, c)) && NetStep(cfg, net, c).src.log == net.src.log
  {
    match c {
      case Deliver =>
        FunnelOnlyWrites(cfg.N, net.q, net.src, net.lanes);
      case Distribute =>
      case Key(k, i) =>
        KeyStepKeepsJoined(cfg, net, k, i);
      case Count(k, r, i, vis) =>
        RowHolds(cfg, net, k, r);
        var row := net.sketches[k].rows[r];
        RowCollectInv(cfg.K, cfg.sketches[k][r], row, net.sketches[k].hashed, i, vis);
        UpdateRowKeepsJoined(net, k, r, CollectStep(cfg.sketches[k][r], row, i, vis));
      case Reduce(k, r) =>
        RowHolds(cfg, net, k, r);
        var row := net.sketches[k].rows[r];
        var (counts, joined) := ReduceStep(cfg.sketches[k][r].m, row.counts, row.joined);
        UpdateRowKeepsJoined(net, k, r, row.(counts := counts, joined := joined));
    }
  }

  lemma {:induction false} FoldsSame(a: Net, b: Net, folds: seq<int>, agms: seq<Fifo<int>>)
    requires FoldsInv(a, folds, agms) && SameJoined(a, b)
    ensures FoldsInv(b, folds, agms)
  {
    forall r | 0 <= r < |folds|
      ensures FoldInv(AddSquare(), 0, Same(), folds[r], JoinedAt(b, AGMS, r).Consumed(), agms[r].log)
    {
      assert JoinedAt(a, AGMS, r).Consumed() == JoinedAt(b, AGMS, r).Consumed();
    }
  }

  lemma {:induction false} StrungSame(a: seq<Fifo<Flit<int>>>, b: seq<Fifo<Flit<int>>>, n: nat, j: nat)
    requires n <= |a| == |b| && forall r :: 0 <= r < |a| ==> a[r].Consumed() == b[r].Consumed()
    ensures Strung(a, n, j) == Strung(b, n, j)
  {
    if n > 0 {
      StrungSame(a, b, n - 1, j);
    }
  }

  lemma {:induction false} ConcatSame(idx: nat, a: seq<Fifo<Flit<int>>>, b: seq<Fifo<Flit<int>>>, o: seq<Flit<int>>)
    requires ConcatInv(idx, a, o) && |a| == |b| && forall r :: 0 <= r < |a| ==> a[r].Consumed() == b[r].Consumed()
    ensures ConcatInv(idx, b, o)
  {
    StrungSame(a, b, idx, |Jobs(o)|);
    forall j | 0 <= j < |Jobs(o)|
      ensures Jobs(o)[j] == Strung(b, |b|, j)
    {
      StrungSame(a, b, |a|, j);
    }
  }

  lemma {:induction false} ResultsSame(cfg: KernelConfig, s: State, net: Net)
    requires ResultsInv(cfg, s) && SameJoined(s.net, net)
    ensures ResultsInv(cfg, s.(net := net))
  {
    FoldsSame(s.net, net, s.folds, s.res.agms);
    assert JoinedAt(s.net, HLL, 0).Consumed() == JoinedAt(net, HLL, 0).Consumed();
    var a, b := JoinedRows(s.net, CM), JoinedRows(net, CM);
    forall r | 0 <= r < |a|
      ensures a[r].Consumed() == b[r].Consumed()
    {
      assert JoinedAt(s.net, CM, r).Consumed() == JoinedAt(net, CM, r).Consumed();
    }
    ConcatSame(s.idx, a, b, s.res.cm.log);
  }

  // Results written in front of the composition.

  /** Only new results, nothing consumed. */
  ghost predicate MoreResults(i: Inputs, i': Inputs) {
    && |i.agms| == |i'.agms|
    && (forall r :: 0 <= r < |i.agms| ==> i.agms[r].log <= i'.agms[r].log && i.agms[r].rd == i'.agms[r].rd)
    && i.basic.Consumed() == i'.basic.Consumed()
    && i.card.log <= i'.card.log && i.card.rd == i'.card.rd
    && i.cm.Consumed() == i'.cm.Consumed()
  }

  lemma {:induction false} SumsStable(a: seq<Fifo<int>>, b: seq<Fifo<int>>, j: nat, k: nat)
    requires |a| == |b| && k <= |a|
    requires forall r :: 0 <= r < k ==> j < |a[r].log| && a[r].log <= b[r].log
    ensures Sums(a, j, k) == Sums(b, j, k)
  {
  }

  lemma {:induction false} ComposeMore(s: Composer, i: Inputs, i': Inputs, o: seq<Flit<int>>)
    requires ComposeInv(s, i, o) && MoreResults(i, i')
    ensures ComposeInv(s, i', o)
  {
    var n := |Jobs(o)|;
    RecordsStable(s, i, Jobs(o), s, i');
    SumsStable(i.agms, i'.agms, n, if s.idx < |i.agms| then s.idx else |i.agms|);
    assert InTurn(s, i', n);
    assert Progress(s, i, n) == Progress(s, i', n);
  }

  // The actions.

  lemma {:induction false} FeedInv(cfg: KernelConfig, s: State, x: Wide)
    requires Inv(cfg, s) && |x.val| == cfg.net.N
    ensures Inv(cfg, s.(srcbuf := s.srcbuf.Write(x)))
  {
  }

  lemma {:induction false} SplitInv(cfg: KernelConfig, s: State)
    requires Inv(cfg, s)
    ensures Inv(cfg, SplitBufStep(s))
  {
    if !s.srcbuf.Empty() {
      var s' := SplitBufStep(s);
      NetFeed(cfg.net, s.net, s.srcbuf.Peek());
      ResultsSame(cfg, s, s'.net);
    }
  }

  lemma {:induction false} MapBasicInv(cfg: KernelConfig, s: State)
    requires Inv(cfg, s)
    ensures Inv(cfg, MapBasicStep(cfg.c, s))
  {
    if !s.flat0.Empty() {
      MapFlitSnoc((w: seq<Word>) => SummaryOf(cfg.c, w), s.flat0.Consumed(), s.flat0.Peek());
    }
  }

  lemma {:induction false} StepBasicInv(cfg: KernelConfig, s: State)
    requires Inv(cfg, s)
    ensures Inv(cfg, BasicKernelStep(cfg.net.N, s))
  {
    BasicStepInv(cfg.net.N, s.basic, s.basicIn, s.res.basic);
  }

  lemma {:induction false} InnerInv(cfg: KernelConfig, s: State, c: Choice)
    requires Inv(cfg, s) && Possible(cfg.net, c)
    ensures Inv(cfg, InnerStep(cfg, s, c))
  {
    NetStepInv(cfg.net, s.net, c);
    NetStepKeepsJoined(cfg.net, s.net, c);
    ResultsSame(cfg, s, NetStep(cfg.net, s.net, c));
  }

  /** Only row `r` of sketch `k` was read, and only results were written. */
  ghost predicate ReadsRow(s: State, s': State, k: nat, r: nat) {
    && k < |s.net.sketches| && r < |s.net.sketches[k].rows|
    && k < |s'.net.sketches| && r < |s'.net.sketches[k].rows|
    && JoinedAt(s'.net, k, r).log == JoinedAt(s.net, k, r).log
    && s'.net == SetJoined(s.net, k, r, JoinedAt(s'.net, k, r))
    && s'.srcbuf == s.srcbuf && s'.flat0 == s.flat0 && s'.basicIn == s.basicIn && s'.basic == s.basic
    && s'.comp == s.comp && s'.dst == s.dst && s'.res.basic == s.res.basic
    && MoreResults(s.res, s'.res)
  }

  lemma {:induction false} ReaderInv(cfg: KernelConfig, s: State, s': State, k: nat, r: nat)
    requires Inv(cfg, s) && Possible(cfg.net, Reduce(k, r))
    requires ReadsRow(s, s', k, r) && ResultsInv(cfg, s')
    ensures Inv(cfg, s')
  {
    RowHolds(cfg.net, s.net, k, r);
    assert SketchInv(cfg.net, cfg.net.sketches[k], s.net.sketches[k], s.net.lanes);
    NetSetJoined(cfg.net, s.net, k, r, JoinedAt(s'.net, k, r));
  }

  lemma {:induction false} EstimateResults(cfg: KernelConfig, s: State)
    requires ResultsInv(cfg, s)
    ensures ResultsInv(cfg, EstimateStep(cfg, s)) && ReadsRow(s, EstimateStep(cfg, s), HLL, 0)
  {
    var s' := EstimateStep(cfg, s);
    FoldStepInv(Absorb(cfg.P, cfg.L), RESET, cfg.card, s.est, JoinedAt(s.net, HLL, 0), s.res.card);
    assert s'.net.sketches[AGMS] == s.net.sketches[AGMS] && s'.net.sketches[CM] == s.net.sketches[CM];
    assert JoinedRows(s'.net, CM) == JoinedRows(s.net, CM);
  }

  lemma {:induction false} FoldRowResults(cfg: KernelConfig, s: State, r: nat)
    requires ResultsInv(cfg, s) && r < |s.folds|
    ensures ResultsInv(cfg, FoldRowStep(s, r)) && ReadsRow(s, FoldRowStep(s, r), AGMS, r)
  {
    var s' := FoldRowStep(s, r);
    FoldStepInv(AddSquare(), 0, Same(), s.folds[r], JoinedAt(s.net, AGMS, r), s.res.agms[r]);
    assert s'.net.sketches[HLL] == s.net.sketches[HLL] && s'.net.sketches[CM] == s.net.sketches[CM];
    assert JoinedRows(s'.net, CM) == JoinedRows(s.net, CM);
    forall q | 0 <= q < |s'.folds|
      ensures FoldInv(AddSquare(), 0, Same(), s'.folds[q], JoinedAt(s'.net, AGMS, q).Consumed(), s'.res.agms[q].log)
    {
      if q != r {
        assert JoinedAt(s'.net, AGMS, q) == JoinedAt(s.net, AGMS, q);
      }
    }
  }

  lemma {:induction false} ConcatJoined(s: State)
    requires |s.net.sketches| == 3 && s.idx < |s.net.sketches[CM].rows|
    ensures var (s', srcs) := (ConcatKernelStep(s), JoinedRows(s.net, CM));
            (s'.idx, JoinedRows(s'.net, CM), s'.res.cm) == ConcatStep(s.idx, srcs, s.res.cm)
  {
    var s' := ConcatKernelStep(s);
    assert JoinedRows(s'.net, CM) == ConcatStep(s.idx, JoinedRows(s.net, CM), s.res.cm).1;
  }

  lemma {:induction false} ConcatReads(s: State)
    requires |s.net.sketches| == 3 && s.idx < |s.net.sketches[CM].rows|
    ensures ReadsRow(s, ConcatKernelStep(s), CM, s.idx)
  {
  }

  /** The concatenation leaves the other two sketches alone. */
  lemma {:induction false} ConcatOthers(cfg: KernelConfig, s: State)
    requires ResultsInv(cfg, s)
    ensures var s' := ConcatKernelStep(s);
            && |s'.net.sketches| == 3 && |s'.net.sketches[HLL].rows| == 1
            && FoldInv(Absorb(cfg.P, cfg.L), RESET, cfg.card, s'.est, JoinedAt(s'.net, HLL, 0).Consumed(),
               s'.res.card.log)
            && FoldsInv(s'.net, s'.folds, s'.res.agms)
  {
    var s' := ConcatKernelStep(s);
    assert s'.net.sketches[HLL] == s.net.sketches[HLL] && s'.net.sketches[AGMS] == s.net.sketches[AGMS];
  }

  lemma {:induction false} ConcatResults(cfg: KernelConfig, s: State)
    requires ResultsInv(cfg, s)
    ensures ResultsInv(cfg, ConcatKernelStep(s)) && ReadsRow(s, ConcatKernelStep(s), CM, s.idx)
  {
    ConcatReads(s);
    ConcatOthers(cfg, s);
    ConcatJoined(s);
    ConcatStepInv(s.idx, JoinedRows(s.net, CM), s.res.cm);
  }

  lemma {:induction false} ComposeOnlyReads(s: Composer, i: Inputs, dst: Fifo<Flit<int>>)
    ensures var i' := ComposeStep(s, i, dst).1;
            && |i'.agms| == |i.agms| && (forall r :: 0 <= r < |i.agms| ==> i'.agms[r].log == i.agms[r].log)
            && i'.basic.log == i.basic.log && i'.card.log == i.card.log && i'.cm.log == i.cm.log
  {
  }

  lemma {:induction false} ResultsRead(cfg: KernelConfig, s: State, s': State)
    requires ResultsInv(cfg, s) && s'.net == s.net && s'.est == s.est && s'.folds == s.folds && s'.idx == s.idx
    requires |s'.res.agms| == |s.res.agms|
    requires forall r :: 0 <= r < |s.res.agms| ==> s'.res.agms[r].log == s.res.agms[r].log
    requires s'.res.card.log == s.res.card.log && s'.res.cm.log == s.res.cm.log
    ensures ResultsInv(cfg, s')
  {
  }

  lemma {:induction false} ComposeIndex(s: Composer, i: Inputs, dst: Fifo<Flit<int>>)
    requires s.idx <= |i.agms| + 2
    ensures ComposeStep(s, i, dst).0.idx <= |i.agms| + 2
  {
  }

  /** Reading results disturbs nothing in front of them. */
  lemma {:induction false} ComposeReads(cfg: KernelConfig, s: State, comp: Composer, i: Inputs, dst: Fifo<Flit<int>>)
    requires Inv(cfg, s) && comp.idx <= |s.res.agms| + 2 && |i.agms| == |s.res.agms|
    requires forall r :: 0 <= r < |s.res.agms| ==> i.agms[r].log == s.res.agms[r].log
    requires i.basic.log == s.res.basic.log && i.card.log == s.res.card.log && i.cm.log == s.res.cm.log
    ensures Inv(cfg, s.(comp := comp, res := i, dst := dst))
  {
    ResultsRead(cfg, s, s.(comp := comp, res := i, dst := dst));
  }

  lemma {:induction false} ComposeKernelInv(cfg: KernelConfig, s: State)
    requires Inv(cfg, s)
    ensures Inv(cfg, ComposeKernelStep(s))
  {
    var (c, i, o) := ComposeStep(s.comp, s.res, s.dst);
    ComposeOnlyReads(s.comp, s.res, s.dst);
    ComposeIndex(s.comp, s.res, s.dst);
    ComposeReads(cfg, s, c, i, o);
  }

  /** The stages that read the joined streams. */
  lemma {:induction false} ReadersInv(cfg: KernelConfig, s: State, a: Action)
    requires Inv(cfg, s) && Enabled(cfg, a) && HasShape(cfg, s) && (a.Estimate? || a.FoldRow? || a.StepConcat?)
    ensures Inv(cfg, Outer(cfg, s, a))
  {
    match a {
      case Estimate =>
        EstimateResults(cfg, s);
        ReaderInv(cfg, s, EstimateStep(cfg, s), HLL, 0);
      case FoldRow(r) =>
        FoldRowResults(cfg, s, r);
        ReaderInv(cfg, s, FoldRowStep(s, r), AGMS, r);
      case StepConcat =>
        ConcatResults(cfg, s);
        ReaderInv(cfg, s, ConcatKernelStep(s), CM, s.idx);
    }
  }

  lemma {:induction false} NextInv(cfg: KernelConfig, s: State, a: Action)
    requires Inv(cfg, s) && Enabled(cfg, a)
    ensures Inv(cfg, Next(cfg, s, a))
  {
    Shapes(cfg, s);
    match a {
      case Feed(x) => FeedInv(cfg, s, x);
      case Split => SplitInv(cfg, s);
      case MapBasic => MapBasicInv(cfg, s);
      case StepBasic => StepBasicInv(cfg, s);
      case Inner(c) => InnerInv(cfg, s, c);
      case Estimate => ReadersInv(cfg, s, a);
      case FoldRow(_) => ReadersInv(cfg, s, a);
      case StepConcat => ReadersInv(cfg, s, a);
      case StepCompose => ComposeKernelInv(cfg, s);
    }
  }

  // The initial state.

  lemma {:induction false} InitRowInv(cfg: Config, spec: RowSpec, hashed: seq<Fifo<Flit<nat>>>)
    requires RowSpecOk(spec) && |hashed| == cfg.K && forall i :: 0 <= i < cfg.K ==> hashed[i] == Queue([], 0)
    ensures RowInv(cfg.K, spec, InitRow(cfg.K, spec.M), hashed)
  {
    var row := InitRow(cfg.K, spec.M);
    forall i | 0 <= i < cfg.K
      ensures LaneInv(spec, row.keyed[i], row.units[i], row.counts[i], hashed[i])
    {
      CollectInit(spec.m, spec.g, spec.M);
      assert Abstract(InitUnit(spec.M)).mem == seq(spec.M, _ => 0);
    }
  }

  lemma {:induction false} InitNetInv(cfg: KernelConfig)
    requires KernelOk(cfg)
    ensures NetInv(cfg.net, Init(cfg).net)
  {
    var net := Init(cfg).net;
    FunnelInit(cfg.net.N, cfg.net.K, net.lanes);
    forall k | 0 <= k < 3
      ensures SketchInv(cfg.net, cfg.net.sketches[k], net.sketches[k], net.lanes)
    {
      forall r | 0 <= r < |cfg.net.sketches[k]|
        ensures RowInv(cfg.net.K, cfg.net.sketches[k][r], net.sketches[k].rows[r], net.sketches[k].hashed)
      {
        InitRowInv(cfg.net, cfg.net.sketches[k][r], net.sketches[k].hashed);
      }
    }
  }

  lemma {:induction false} InitInv(cfg: KernelConfig)
    requires KernelOk(cfg)
    ensures Inv(cfg, Init(cfg))
  {
    var s := Init(cfg);
    InitNetInv(cfg);
    ConcatInit(JoinedRows(s.net, CM));
  }

  /** The state after an arbitrary schedule of actions. */
  function Run(cfg: KernelConfig, schedule: seq<Action>): (s: State)
    requires KernelOk(cfg)
    requires forall i :: 0 <= i < |schedule| ==> Enabled(cfg, schedule[i])
    ensures Inv(cfg, s)
    decreases |schedule|
  {
    if schedule == [] then
      InitInv(cfg);
      Init(cfg)
    else
      var s := Run(cfg, schedule[..|schedule| - 1]);
      NextInv(cfg, s, schedule[|schedule| - 1]);
      Next(cfg, s, schedule[|schedule| - 1])
  }

  // Count-Min jobs have the cells of all rows.

  lemma {:induction false} StrungLength(specs: seq<RowSpec>, rows: seq<Fifo<Flit<int>>>, n: nat, j: nat)
    requires n <= |rows| == |specs|
    requires forall r :: 0 <= r < n ==> |JobAt(rows[r].Consumed(), j)| == specs[r].M
    ensures |Strung(rows, n, j)| == Cells(specs[..n])
    decreases n
  {
    if n > 0 {
      StrungLength(specs, rows, n - 1, j);
      assert specs[..n][..n - 1] == specs[..n - 1];
    }
  }

  /** A job consumed from a row is the sketch of a job of the source. */
  lemma {:induction false} ConsumedJob(cfg: Config, net: Net, k: nat, r: nat, j: nat)
    requires NetInv(cfg, net) && Possible(cfg, Reduce(k, r))
    requires |net.sketches| == |cfg.sketches| && |net.sketches[k].rows| == |cfg.sketches[k]|
    requires j < |Jobs(JoinedAt(net, k, r).Consumed())|
    ensures j < |JobWords(net.src.log)|
    ensures Jobs(JoinedAt(net, k, r).Consumed())[j] == Vector(cfg.hash, cfg.sketches[k][r], JobWords(net.src.log)[j])
  {
    JobsPrefix(JoinedAt(net, k, r).Consumed(), JoinedAt(net, k, r).log);
    JoinedJobs(cfg, net, k, r);
  }

  /** The jobs consumed from every row are sketches of source jobs. */
  ghost predicate RowsAreSketches(hash: Word -> nat, specs: seq<RowSpec>, rows: seq<Fifo<Flit<int>>>,
        jobs: seq<seq<Word>>) {
    && |rows| == |specs|
    && (forall r :: 0 <= r < |rows| ==> |Jobs(rows[r].Consumed())| <= |jobs|)
    && forall r, j :: 0 <= r < |rows| && 0 <= j < |Jobs(rows[r].Consumed())| ==>
         Jobs(rows[r].Consumed())[j] == Vector(hash, specs[r], jobs[j])
  }

  lemma {:induction false} RowSketches(cfg: Config, net: Net)
    requires NetInv(cfg, net) && |net.sketches| == |cfg.sketches| == 3 && |net.sketches[CM].rows| == |cfg.sketches[CM]|
    ensures RowsAreSketches(cfg.hash, cfg.sketches[CM], JoinedRows(net, CM), JobWords(net.src.log))
  {
    var rows := JoinedRows(net, CM);
    forall r | 0 <= r < |rows|
      ensures |Jobs(rows[r].Consumed())| <= |JobWords(net.src.log)|
      ensures forall j :: 0 <= j < |Jobs(rows[r].Consumed())| ==>
                Jobs(rows[r].Consumed())[j] == Vector(cfg.hash, cfg.sketches[CM][r], JobWords(net.src.log)[j])
    {
      assert rows[r] == JoinedAt(net, CM, r);
      JobsPrefix(rows[r].Consumed(), rows[r].log);
      JoinedJobs(cfg, net, CM, r);
    }
  }

  lemma {:induction false} ConcatenatedCells(hash: Word -> nat, specs: seq<RowSpec>, idx: nat,
        rows: seq<Fifo<Flit<int>>>, jobs: seq<seq<Word>>, o: seq<Flit<int>>)
    requires ConcatInv(idx, rows, o) && RowsAreSketches(hash, specs, rows, jobs)
    ensures forall j :: 0 <= j < |Jobs(o)| ==> |Jobs(o)[j]| == Cells(specs)
  {
    forall j | 0 <= j < |Jobs(o)|
      ensures |Jobs(o)[j]| == Cells(specs)
    {
      forall r | 0 <= r < |rows|
        ensures |JobAt(rows[r].Consumed(), j)| == specs[r].M
      {
        assert Jobs(rows[r].Consumed())[j] == Vector(hash, specs[r], jobs[j]);
      }
      StrungLength(specs, rows, |rows|, j);
      assert specs[..|rows|] == specs;
    }
  }

  /** Every job of cells that reaches the composition has the cells of all rows. */
  lemma {:induction false} JobCells(cfg: KernelConfig, s: State)
    requires Inv(cfg, s)
    ensures forall j :: 0 <= j < |Jobs(s.res.cm.log)| ==> |Jobs(s.res.cm.log)[j]| == Cells(cfg.net.sketches[CM])
  {
    Shapes(cfg, s);
    RowSketches(cfg.net, s.net);
    ConcatenatedCells(cfg.net.hash, cfg.net.sketches[CM], s.idx, JoinedRows(s.net, CM), JobWords(s.net.src.log),
        s.res.cm.log);
  }

  // Framing.

  /** Nothing but new results has reached the composition. */
  ghost predicate InFront(s: State, t: State) {
    t.comp == s.comp && t.dst == s.dst && MoreResults(s.res, t.res)
  }

  lemma {:induction false} SplitInFront(s: State)
    ensures InFront(s, SplitBufStep(s))
  {
  }

  lemma {:induction false} BasicInFront(N: nat, s: State)
    ensures InFront(s, BasicKernelStep(N, s))
  {
  }

  /** Actions in front of the composition only add results. */
  lemma {:induction false} OuterInFront(cfg: KernelConfig, s: State, a: Action)
    requires ResultsInv(cfg, s) && HasShape(cfg, s) && Enabled(cfg, a) && !a.Inner? && !a.StepCompose?
    ensures InFront(s, Outer(cfg, s, a))
  {
    match a {
      case Feed(x) =>
      case Split => SplitInFront(s);
      case MapBasic =>
      case StepBasic => BasicInFront(cfg.net.N, s);
      case Estimate => EstimateResults(cfg, s);
      case FoldRow(r) => FoldRowResults(cfg, s, r);
      case StepConcat => ConcatResults(cfg, s);
    }
  }

  lemma {:induction false} OnlyResults(cfg: KernelConfig, s: State, a: Action)
    requires Inv(cfg, s) && Enabled(cfg, a) && !a.StepCompose?
    ensures InFront(s, Next(cfg, s, a))
  {
    if !a.Inner? {
      Shapes(cfg, s);
      OuterInFront(cfg, s, a);
    }
  }

  /** The composition breaks the framing if and only if it meets a lone last cell. */
  lemma {:induction false} FramedCompose(s: State)
    requires WellFramed(s)
    ensures WellFramed(ComposeKernelStep(s)) <==> !LoneCell(s.comp, s.res)
  {
    ComposeStepIff(s.comp, s.res, s.dst);
  }

  /** New results do not. */
  lemma {:induction false} FramedFront(s: State, t: State)
    requires WellFramed(s) && InFront(s, t)
    ensures WellFramed(t)
  {
    ComposeMore(s.comp, s.res, t.res, s.dst.log);
  }

  lemma {:induction false} OuterComposes(cfg: KernelConfig, s: State)
    requires HasShape(cfg, s)
    ensures Outer(cfg, s, StepCompose) == ComposeKernelStep(s)
  {
  }

  lemma {:induction false} NextComposes(cfg: KernelConfig, s: State)
    requires Inv(cfg, s)
    ensures Next(cfg, s, StepCompose) == ComposeKernelStep(s)
  {
    Shapes(cfg, s);
    OuterComposes(cfg, s);
  }

  lemma {:induction false} FramedNext(cfg: KernelConfig, s: State, a: Action)
    requires Inv(cfg, s) && Enabled(cfg, a) && WellFramed(s)
    ensures WellFramed(Next(cfg, s, a)) <==> !(a.StepCompose? && LoneCell(s.comp, s.res))
  {
    if a.StepCompose? {
      NextComposes(cfg, s);
      FramedCompose(s);
    } else {
      OnlyResults(cfg, s, a);
      FramedFront(s, Next(cfg, s, a));
    }
  }

  lemma {:induction false} NoLoneCell(cfg: KernelConfig, s: State)
    requires Inv(cfg, s) && WellFramed(s) && Paired(cfg)
    ensures !LoneCell(s.comp, s.res)
  {
    JobCells(cfg, s);
    EvenCellsPair(s.comp, s.res, s.dst);
  }

  lemma {:induction false} FramedInit(cfg: KernelConfig)
    requires KernelOk(cfg)
    ensures WellFramed(Init(cfg))
  {
    assert Sums(Init(cfg).res.agms, 0, 0) == [];
  }

  predicate Legal(cfg: KernelConfig, schedule: seq<Action>) {
    forall i :: 0 <= i < |schedule| ==> Enabled(cfg, schedule[i])
  }

  lemma {:induction false} OneMore(cfg: KernelConfig, schedule: seq<Action>, a: Action)
    requires KernelOk(cfg) && Legal(cfg, schedule) && Enabled(cfg, a)
    ensures Legal(cfg, schedule + [a])
    ensures Run(cfg, schedule + [a]) == Next(cfg, Run(cfg, schedule), a)
  {
    assert (schedule + [a])[..|schedule|] == schedule;
  }

  lemma {:induction false} RunFramed(cfg: KernelConfig, schedule: seq<Action>)
    requires KernelOk(cfg) && Legal(cfg, schedule) && Paired(cfg)
    ensures WellFramed(Run(cfg, schedule))
    decreases |schedule|
  {
    if schedule == [] {
      FramedInit(cfg);
    } else {
      var p, a := schedule[..|schedule| - 1], schedule[|schedule| - 1];
      RunFramed(cfg, p);
      NoLoneCell(cfg, Run(cfg, p));
      FramedNext(cfg, Run(cfg, p), a);
    }
  }
}
