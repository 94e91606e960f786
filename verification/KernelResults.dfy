/**
 What the kernel computes. For every schedule, record `j` of the output is the record of
 job `j` of the input; and when no stage can move, every complete job has its record.
 */
module KernelResults {
  import opened Streams
  import opened Lanes
  import opened Funnel
  import opened Network
  import opened Joined
  import opened Results
  import opened Basic
  import opened Compose
  import opened Records
  import opened HllEstimation
  import opened Kernel
  import opened KernelSafety

  // The record a job should have.

  function VectorsOf(hash: Word -> nat, specs: seq<RowSpec>, words: seq<Word>): seq<int> {
    if specs == [] then []
    else VectorsOf(hash, specs[..|specs| - 1], words) + Vector(hash, specs[|specs| - 1], words)
  }

  /** Sums of squares of the AGMS rows. */
  function RowEnergies(hash: Word -> nat, specs: seq<RowSpec>, words: seq<Word>): (r: seq<int>)
    ensures |r| == |specs|
  {
    seq(|specs|, r requires 0 <= r < |specs| => FoldOf(AddSquare(), 0, Vector(hash, specs[r], words)))
  }

  function ExpectedRecord(cfg: KernelConfig, flits: seq<seq<Word>>, cc: int): seq<int>
    requires |cfg.net.sketches| == 3 && |cfg.net.sketches[HLL]| == 1
  {
    var words := Flatten(flits);
    Record(RowEnergies(cfg.net.hash, cfg.net.sketches[AGMS], words),
           DumpWords(MetricsOf(cfg.net.N, Summaries(cfg.c, flits)), 4),
           cfg.card(FoldOf(Absorb(cfg.P, cfg.L), RESET, Vector(cfg.net.hash, cfg.net.sketches[HLL][0], words))),
           cc,
           VectorsOf(cfg.net.hash, cfg.net.sketches[CM], words))
  }

  // From the invariant to the records.

  /** The sum of row `r` that goes into record `j`. */
  lemma {:induction false} SumOfJob(cfg: KernelConfig, s: State, r: nat, j: nat)
    requires Inv(cfg, s) && |cfg.net.sketches| == 3 && r < |s.res.agms| == |cfg.net.sketches[AGMS]|
    requires j < |s.res.agms[r].log|
    ensures j < |JobWords(s.srcbuf.log)|
    ensures s.res.agms[r].log[j]
         == FoldOf(AddSquare(), 0, Vector(cfg.net.hash, cfg.net.sketches[AGMS][r], JobWords(s.srcbuf.log)[j]))
  {
    Shapes(cfg, s);
    ConsumedJob(cfg.net, s.net, AGMS, r, j);
    JobWordsPrefix(s.net.src.log, s.srcbuf.log);
  }

  lemma {:induction false} EstimateOfJob(cfg: KernelConfig, s: State, j: nat)
    requires Inv(cfg, s) && |cfg.net.sketches| == 3 && |cfg.net.sketches[HLL]| == 1 && j < |s.res.card.log|
    ensures j < |JobWords(s.srcbuf.log)|
    ensures s.res.card.log[j] ==
            cfg.card(FoldOf(Absorb(cfg.P, cfg.L), RESET,
                Vector(cfg.net.hash, cfg.net.sketches[HLL][0], JobWords(s.srcbuf.log)[j])))
  {
    Shapes(cfg, s);
    ConsumedJob(cfg.net, s.net, HLL, 0, j);
    JobWordsPrefix(s.net.src.log, s.srcbuf.log);
  }

  lemma {:induction false} SummariesOfJob(c: nat, s: seq<Wide>, j: nat)
    requires j < |Jobs(MapFlit((w: seq<Word>) => SummaryOf(c, w), s))|
    ensures j < |Jobs(s)|
    ensures Jobs(MapFlit((w: seq<Word>) => SummaryOf(c, w), s))[j] == Summaries(c, Jobs(s)[j])
  {
    JobsMap((w: seq<Word>) => SummaryOf(c, w), s);
  }

  lemma {:induction false} BasicOfJob(cfg: KernelConfig, s: State, j: nat)
    requires FrontInv(cfg, s) && j < |Jobs(s.res.basic.log)|
    ensures j < |Jobs(s.srcbuf.log)|
    ensures Jobs(s.res.basic.log)[j] == DumpWords(MetricsOf(cfg.net.N, Summaries(cfg.c, Jobs(s.srcbuf.log)[j])), 4)
  {
    JobsPrefix(s.basicIn.Consumed(), s.basicIn.log);
    SummariesOfJob(cfg.c, s.flat0.Consumed(), j);
    JobsPrefix(s.flat0.Consumed(), s.flat0.log);
    JobsPrefix(s.srcbuf.Consumed(), s.srcbuf.log);
  }

  lemma {:induction false} StrungVectors(hash: Word -> nat, specs: seq<RowSpec>, rows: seq<Fifo<Flit<int>>>,
        n: nat, j: nat, words: seq<Word>)
    requires n <= |rows| == |specs|
    requires forall r :: 0 <= r < n ==> JobAt(rows[r].Consumed(), j) == Vector(hash, specs[r], words)
    ensures Strung(rows, n, j) == VectorsOf(hash, specs[..n], words)
    decreases n
  {
    if n > 0 {
      StrungVectors(hash, specs, rows, n - 1, j, words);
      assert VectorsOf(hash, specs[..n], words) == VectorsOf(hash, specs[..n - 1], words)
             + Vector(hash, specs[n - 1], words) by {
        assert specs[..n][..n - 1] == specs[..n - 1];
      }
      assert Strung(rows, n, j) == Strung(rows, n - 1, j) + JobAt(rows[n - 1].Consumed(), j);
    }
  }

  lemma {:induction false} ConcatenatedVectors(hash: Word -> nat, specs: seq<RowSpec>, idx: nat,
        rows: seq<Fifo<Flit<int>>>, jobs: seq<seq<Word>>, o: seq<Flit<int>>, j: nat)
    requires ConcatInv(idx, rows, o) && RowsAreSketches(hash, specs, rows, jobs) && j < |Jobs(o)|
    ensures j < |jobs| && Jobs(o)[j] == VectorsOf(hash, specs, jobs[j])
  {
    assert |Jobs(rows[0].Consumed())| > j;
    assert forall r :: 0 <= r < |rows| ==> JobAt(rows[r].Consumed(), j) == Vector(hash, specs[r], jobs[j]);
    StrungVectors(hash, specs, rows, |rows|, j, jobs[j]);
    assert specs[..|rows|] == specs;
  }

  lemma {:induction false} CellsOfJob(cfg: KernelConfig, s: State, j: nat)
    requires Inv(cfg, s) && |cfg.net.sketches| == 3 && j < |Jobs(s.res.cm.log)|
    ensures j < |JobWords(s.srcbuf.log)|
    ensures Jobs(s.res.cm.log)[j] == VectorsOf(cfg.net.hash, cfg.net.sketches[CM], JobWords(s.srcbuf.log)[j])
  {
    Shapes(cfg, s);
    RowSketches(cfg.net, s.net);
    ConcatenatedVectors(cfg.net.hash, cfg.net.sketches[CM], s.idx, JoinedRows(s.net, CM), JobWords(s.net.src.log),
        s.res.cm.log, j);
    JobWordsPrefix(s.net.src.log, s.srcbuf.log);
  }

  lemma {:induction false} SumsOfJob(cfg: KernelConfig, s: State, j: nat)
    requires Inv(cfg, s) && |cfg.net.sketches| == 3 && |s.res.agms| == |cfg.net.sketches[AGMS]|
    requires j < |JobWords(s.srcbuf.log)|
    requires forall r :: 0 <= r < |s.res.agms| ==> j < |s.res.agms[r].log|
    ensures Sums(s.res.agms, j, |s.res.agms|)
            == RowEnergies(cfg.net.hash, cfg.net.sketches[AGMS], JobWords(s.srcbuf.log)[j])
  {
    forall r | 0 <= r < |s.res.agms|
      ensures Sums(s.res.agms, j, |s.res.agms|)[r] ==
              FoldOf(AddSquare(), 0, Vector(cfg.net.hash, cfg.net.sketches[AGMS][r], JobWords(s.srcbuf.log)[j]))
    {
      SumOfJob(cfg, s, r, j);
    }
  }

  /** All parts of a finished record have been delivered. */
  lemma {:induction false} PartsDelivered(comp: Composer, i: Inputs, o: seq<Flit<int>>, j: nat)
    requires ComposeInv(comp, i, o) && j < |Jobs(o)|
    ensures j < |comp.ccs| && j < |i.card.log|
    ensures forall r :: 0 <= r < |i.agms| ==> j < |i.agms[r].log|
    ensures j < |Jobs(i.basic.log)| && j < |Jobs(i.cm.log)|
    ensures Jobs(o)[j]
         == Record(Sums(i.agms, j, |i.agms|), Jobs(i.basic.log)[j], i.card.log[j], comp.ccs[j], Jobs(i.cm.log)[j])
  {
    JobsPrefix(i.basic.Consumed(), i.basic.log);
    JobsPrefix(i.cm.Consumed(), i.cm.log);
  }

  lemma {:induction false} RecordOfJob(cfg: KernelConfig, s: State, j: nat)
    requires Inv(cfg, s) && WellFramed(s) && j < |Jobs(s.dst.log)|
    ensures j < |Jobs(s.srcbuf.log)| && j < |s.comp.ccs|
    ensures |cfg.net.sketches| == 3 && |cfg.net.sketches[HLL]| == 1
    ensures Jobs(s.dst.log)[j] == ExpectedRecord(cfg, Jobs(s.srcbuf.log)[j], s.comp.ccs[j])
  {
    Shapes(cfg, s);
    PartsDelivered(s.comp, s.res, s.dst.log, j);
    EstimateOfJob(cfg, s, j);
    BasicOfJob(cfg, s, j);
    CellsOfJob(cfg, s, j);
    SumsOfJob(cfg, s, j);
  }

  // The source of a schedule.

  /** The flits that arrive, in order. */
  function Fed(schedule: seq<Action>): seq<Wide> {
    if schedule == [] then []
    else
      var a := schedule[|schedule| - 1];
      Fed(schedule[..|schedule| - 1]) + if a.Feed? then [a.x] else []
  }

  lemma {:induction false} SourceStep(cfg: KernelConfig, s: State, a: Action, fed: seq<Wide>)
    requires Inv(cfg, s) && Enabled(cfg, a) && s.srcbuf.log == fed
    ensures Next(cfg, s, a).srcbuf.log == fed + if a.Feed? then [a.x] else []
  {
  }

  lemma {:induction false} FedSnoc(p: seq<Action>, a: Action)
    ensures Fed(p + [a]) == Fed(p) + if a.Feed? then [a.x] else []
  {
    assert (p + [a])[..|p|] == p;
  }

  lemma {:induction false} SourceAfter(cfg: KernelConfig, p: seq<Action>, a: Action)
    requires KernelOk(cfg) && Legal(cfg, p) && Enabled(cfg, a) && Run(cfg, p).srcbuf.log == Fed(p)
    ensures Legal(cfg, p + [a]) && Run(cfg, p + [a]).srcbuf.log == Fed(p + [a])
  {
    FedSnoc(p, a);
    OneMore(cfg, p, a);
    SourceStep(cfg, Run(cfg, p), a, Fed(p));
  }

  lemma {:induction false} RunSource(cfg: KernelConfig, schedule: seq<Action>)
    requires KernelOk(cfg) && Legal(cfg, schedule)
    ensures Run(cfg, schedule).srcbuf.log == Fed(schedule)
    decreases |schedule|
  {
    if schedule == [] {
      assert Init(cfg).srcbuf.log == [];
    } else {
      var p, a := schedule[..|schedule| - 1], schedule[|schedule| - 1];
      assert schedule == p + [a];
      RunSource(cfg, p);
      SourceAfter(cfg, p, a);
    }
  }

  /** Record `j` is the record of job `j` of what was fed, for every schedule. */
  lemma {:induction false} KernelCorrect(cfg: KernelConfig, schedule: seq<Action>, j: nat)
    requires KernelOk(cfg) && Paired(cfg) && Legal(cfg, schedule)
    requires j < |Jobs(Run(cfg, schedule).dst.log)|
    ensures j < |Jobs(Fed(schedule))| && j < |Run(cfg, schedule).comp.ccs|
    ensures Jobs(Run(cfg, schedule).dst.log)[j]
         == ExpectedRecord(cfg, Jobs(Fed(schedule))[j], Run(cfg, schedule).comp.ccs[j])
  {
    RunSource(cfg, schedule);
    RunFramed(cfg, schedule);
    RecordOfJob(cfg, Run(cfg, schedule), j);
  }

  // Completeness.

  /** The composition has what it needs next. */
  predicate Ready(comp: Composer, i: Inputs) {
    if comp.idx < |i.agms| then !i.agms[comp.idx].Empty()
    else if comp.idx == |i.agms| then !i.basic.Empty()
    else if comp.idx == |i.agms| + 1 then !i.card.Empty()
    else !i.cm.Empty()
  }

  /** No stage can move data. */
  ghost predicate Idle(cfg: KernelConfig, s: State)
    requires Inv(cfg, s)
  {
    Shapes(cfg, s);
    && s.srcbuf.Empty() && s.flat0.Empty()
    && !s.basic.dump && s.basicIn.Empty()
    && NetIdle(cfg.net, s.net)
    && JoinedAt(s.net, HLL, 0).Empty()
    && (forall r :: 0 <= r < |s.net.sketches[AGMS].rows| ==> JoinedAt(s.net, AGMS, r).Empty())
    && JoinedAt(s.net, CM, s.idx).Empty()
    && !Ready(s.comp, s.res)
  }

  lemma {:induction false} EmptyConsumed<T>(f: Fifo<T>)
    requires f.Empty()
    ensures f.Consumed() == f.log
  {
  }

  lemma {:induction false} IdleConsumed(cfg: Config, net: Net, k: nat, r: nat)
    requires NetInv(cfg, net) && NetIdle(cfg, net) && Possible(cfg, Reduce(k, r))
    requires |net.sketches| == |cfg.sketches| && |net.sketches[k].rows| == |cfg.sketches[k]|
    requires JoinedAt(net, k, r).Empty()
    ensures |Jobs(JoinedAt(net, k, r).Consumed())| == |Jobs(net.src.log)|
  {
    IdleJobs(cfg, net, k, r);
    EmptyConsumed(JoinedAt(net, k, r));
  }

  lemma {:induction false} IdleBasic(cfg: KernelConfig, s: State)
    requires FrontInv(cfg, s)
    requires s.srcbuf.Empty() && s.flat0.Empty() && !s.basic.dump && s.basicIn.Empty()
    ensures |Jobs(s.res.basic.log)| == |Jobs(s.srcbuf.log)|
  {
    assert s.srcbuf.Consumed() == s.srcbuf.log && s.flat0.Consumed() == s.flat0.log;
    assert s.basicIn.Consumed() == s.basicIn.log;
    JobsMap((w: seq<Word>) => SummaryOf(cfg.c, w), s.flat0.log);
  }

  /** Everything the composition waits for has been delivered `n` times. */
  lemma {:induction false} NothingPending(comp: Composer, i: Inputs, o: seq<Flit<int>>, n: nat)
    requires ComposeInv(comp, i, o) && !Ready(comp, i)
    requires forall r :: 0 <= r < |i.agms| ==> |i.agms[r].log| == n
    requires |Jobs(i.basic.log)| == |i.card.log| == |Jobs(i.cm.log)| == n
    ensures |Jobs(o)| == n
    ensures |i.agms| > 0 ==> Open(o) == []
  {
    assert i.basic.Empty() ==> i.basic.Consumed() == i.basic.log;
    assert i.cm.Empty() ==> i.cm.Consumed() == i.cm.log;
    if |i.agms| > 0 {
      assert i.agms[0].rd <= n;
    }
  }

  lemma {:induction false} IdleResults(cfg: KernelConfig, s: State, n: nat)
    requires ResultsInv(cfg, s) && s.idx < |s.net.sketches[CM].rows|
    requires |Jobs(JoinedAt(s.net, HLL, 0).Consumed())| == n
    requires forall r :: 0 <= r < |s.net.sketches[AGMS].rows| ==> |Jobs(JoinedAt(s.net, AGMS, r).Consumed())| == n
    requires |Jobs(JoinedAt(s.net, CM, s.idx).Consumed())| == n
    ensures forall r :: 0 <= r < |s.res.agms| ==> |s.res.agms[r].log| == n
    ensures |s.res.card.log| == |Jobs(s.res.cm.log)| == n
  {
    assert JoinedRows(s.net, CM)[s.idx] == JoinedAt(s.net, CM, s.idx);
  }

  lemma {:induction false} IdleRecords(cfg: KernelConfig, s: State)
    requires Inv(cfg, s) && Idle(cfg, s) && WellFramed(s)
    ensures |Jobs(s.dst.log)| == |Jobs(s.srcbuf.log)|
    ensures |cfg.net.sketches| == 3 && (|cfg.net.sketches[AGMS]| > 0 ==> Open(s.dst.log) == [])
  {
    Shapes(cfg, s);
    var n := |Jobs(s.srcbuf.log)|;
    EmptyConsumed(s.srcbuf);
    IdleConsumed(cfg.net, s.net, HLL, 0);
    forall r | 0 <= r < |s.net.sketches[AGMS].rows|
      ensures |Jobs(JoinedAt(s.net, AGMS, r).Consumed())| == n
    {
      IdleConsumed(cfg.net, s.net, AGMS, r);
    }
    IdleConsumed(cfg.net, s.net, CM, s.idx);
    IdleResults(cfg, s, n);
    IdleBasic(cfg, s);
    NothingPending(s.comp, s.res, s.dst.log, n);
  }

  /** When no stage can move, each complete job that was fed has its record and nothing else was sent. */
  lemma {:induction false} KernelComplete(cfg: KernelConfig, schedule: seq<Action>)
    requires KernelOk(cfg) && Paired(cfg) && Legal(cfg, schedule) && |cfg.net.sketches[AGMS]| > 0
    requires Idle(cfg, Run(cfg, schedule))
    ensures |Jobs(Run(cfg, schedule).dst.log)| == |Jobs(Fed(schedule))|
    ensures Open(Run(cfg, schedule).dst.log) == []
  {
    RunSource(cfg, schedule);
    RunFramed(cfg, schedule);
    IdleRecords(cfg, Run(cfg, schedule));
  }
}
