/**
 When the output can be read as records: for every schedule, if and only if the Count-Min
 cells of a job can be packed two by two.
 */
module Framing {
  import opened Streams
  import opened Compose
  import opened Records
  import opened Kernel
  import opened KernelSafety
  import opened KernelResults
  import opened Liveness

  /** Every job of cells that the composition has read has an even number of them. */
  ghost predicate EvenRead(i: Inputs) {
    forall j :: 0 <= j < |Jobs(i.cm.Consumed())| ==> |Jobs(i.cm.Consumed())[j]| % 2 == 0
  }

  lemma {:induction false} CellRead(s: Composer, i: Inputs, n: nat, x: Flit<int>)
    requires InTurn(s, i, n) && EvenRead(i) && (x.last ==> s.lo.Some?)
    ensures forall j :: 0 <= j < |Jobs(i.cm.Consumed() + [x])| ==> |Jobs(i.cm.Consumed() + [x])[j]| % 2 == 0
  {
    JobsSnoc(i.cm.Consumed(), x);
  }

  /** Without a lone cell a job is only closed by the second half of a word. */
  lemma {:induction false} EvenCompose(s: Composer, i: Inputs, dst: Fifo<Flit<int>>)
    requires ComposeInv(s, i, dst.log) && !LoneCell(s, i) && EvenRead(i)
    ensures EvenRead(ComposeStep(s, i, dst).1)
  {
    var i' := ComposeStep(s, i, dst).1;
    if i'.cm != i.cm {
      CellRead(s, i, |Jobs(dst.log)|, i.cm.Peek());
    }
  }

  lemma {:induction false} EvenFront(s: State, t: State)
    requires InFront(s, t) && EvenRead(s.res)
    ensures EvenRead(t.res)
  {
  }

  lemma {:induction false} EvenNext(cfg: KernelConfig, s: State, a: Action)
    requires Inv(cfg, s) && Enabled(cfg, a) && WellFramed(s) && WellFramed(Next(cfg, s, a)) && EvenRead(s.res)
    ensures EvenRead(Next(cfg, s, a).res)
  {
    FramedNext(cfg, s, a);
    if a.StepCompose? {
      NextComposes(cfg, s);
      EvenCompose(s.comp, s.res, s.dst);
    } else {
      OnlyResults(cfg, s, a);
      EvenFront(s, Next(cfg, s, a));
    }
  }

  ghost function FramedAfter(cfg: KernelConfig): seq<Action> -> bool {
    (t: seq<Action>) => KernelOk(cfg) && Legal(cfg, t) ==> WellFramed(Run(cfg, t))
  }

  ghost predicate AlwaysFramed(cfg: KernelConfig) {
    forall t :: FramedAfter(cfg)(t)
  }

  lemma {:induction false} EvenStep(cfg: KernelConfig, p: seq<Action>, a: Action)
    requires KernelOk(cfg) && Legal(cfg, p) && WellFramed(Run(cfg, p)) && EvenRead(Run(cfg, p).res)
    requires Legal(cfg, p + [a]) && Enabled(cfg, a) && WellFramed(Run(cfg, p + [a]))
    ensures EvenRead(Run(cfg, p + [a]).res)
  {
    OneMore(cfg, p, a);
    EvenNext(cfg, Run(cfg, p), a);
  }

  ghost function EvenAfter(cfg: KernelConfig): seq<Action> -> bool {
    (t: seq<Action>) => KernelOk(cfg) && Legal(cfg, t) ==> EvenRead(Run(cfg, t).res)
  }

  /** One more action keeps `q` wherever `f` holds. */
  ghost predicate Keeps(q: seq<Action> -> bool, f: seq<Action> -> bool) {
    forall p, a {:trigger q(p + [a])} :: f(p) && f(p + [a]) && q(p) ==> q(p + [a])
  }

  lemma {:induction false} Induct(q: seq<Action> -> bool, f: seq<Action> -> bool, t: seq<Action>)
    requires q([]) && Keeps(q, f) && forall u :: f(u)
    ensures q(t)
    decreases |t|
  {
    if t != [] {
      var p, a := t[..|t| - 1], t[|t| - 1];
      Induct(q, f, p);
      assert f(p) && f(p + [a]);
      assert q(p + [a]);
      assert t == p + [a];
    }
  }

  lemma {:induction false} LegalPrefix(cfg: KernelConfig, p: seq<Action>, a: Action)
    requires Legal(cfg, p + [a])
    ensures Legal(cfg, p) && Enabled(cfg, a)
  {
    assert (p + [a])[|p|] == a;
    assert forall i :: 0 <= i < |p| ==> (p + [a])[i] == p[i];
  }

  lemma {:induction false} EvenInductive(cfg: KernelConfig, p: seq<Action>, a: Action)
    requires KernelOk(cfg) && FramedAfter(cfg)(p) && FramedAfter(cfg)(p + [a]) && EvenAfter(cfg)(p)
    ensures EvenAfter(cfg)(p + [a])
  {
    if Legal(cfg, p + [a]) {
      LegalPrefix(cfg, p, a);
      EvenStep(cfg, p, a);
    }
  }

  lemma {:induction false} EvenKept(cfg: KernelConfig)
    requires KernelOk(cfg)
    ensures Keeps(EvenAfter(cfg), FramedAfter(cfg))
  {
    forall p, a {:trigger EvenAfter(cfg)(p + [a])}
      | FramedAfter(cfg)(p) && FramedAfter(cfg)(p + [a]) && EvenAfter(cfg)(p)
      ensures EvenAfter(cfg)(p + [a])
    {
      EvenInductive(cfg, p, a);
    }
  }

  lemma {:induction false} EvenRun(cfg: KernelConfig, schedule: seq<Action>)
    requires KernelOk(cfg) && AlwaysFramed(cfg)
    ensures EvenAfter(cfg)(schedule)
  {
    EvenKept(cfg);
    Induct(EvenAfter(cfg), FramedAfter(cfg), schedule);
  }

  /** An idle and framed kernel has read as many jobs of cells as have been fed. */
  lemma {:induction false} IdleCells(cfg: KernelConfig, schedule: seq<Action>)
    requires KernelOk(cfg) && Legal(cfg, schedule) && Idle(cfg, Run(cfg, schedule)) && WellFramed(Run(cfg, schedule))
    ensures |Jobs(Run(cfg, schedule).res.cm.Consumed())| == |Jobs(Fed(schedule))|
  {
    RunSource(cfg, schedule);
    IdleRecords(cfg, Run(cfg, schedule));
  }

  lemma {:induction false} CellsRead(cfg: KernelConfig, s: State)
    requires Inv(cfg, s)
    ensures forall j :: 0 <= j < |Jobs(s.res.cm.Consumed())| ==>
              |Jobs(s.res.cm.Consumed())[j]| == Cells(cfg.net.sketches[CM])
  {
    JobCells(cfg, s);
    JobsPrefix(s.res.cm.Consumed(), s.res.cm.log);
  }

  lemma {:induction false} OneJob(cfg: KernelConfig) returns (t: seq<Action>)
    ensures Legal(cfg, t) && |Jobs(Fed(t))| == 1
  {
    var x := Flit(true, seq(cfg.net.N, _ => 0));
    t := [Feed(x)];
    assert Fed(t) == Fed([]) + [x];
    JobsSnoc([], x);
    assert [] + [x] == [x];
  }

  lemma {:induction false} PairedFrom(cfg: KernelConfig, s: State)
    requires Inv(cfg, s) && EvenRead(s.res) && Jobs(s.res.cm.Consumed()) != []
    ensures Paired(cfg)
  {
    CellsRead(cfg, s);
    assert |Jobs(s.res.cm.Consumed())[0]| == Cells(cfg.net.sketches[CM]);
  }

  lemma {:induction false} PairedAfter(cfg: KernelConfig, schedule: seq<Action>)
    requires KernelOk(cfg) && AlwaysFramed(cfg) && Legal(cfg, schedule)
    requires Idle(cfg, Run(cfg, schedule)) && Fed(schedule) != [] && |Jobs(Fed(schedule))| > 0
    ensures Paired(cfg)
  {
    assert FramedAfter(cfg)(schedule);
    IdleCells(cfg, schedule);
    EvenRun(cfg, schedule);
    PairedFrom(cfg, Run(cfg, schedule));
  }

  /** A kernel that always cuts its output into records must have an even number of cells: feed one job and wait. */
  lemma {:induction false} FramedMeansPaired(cfg: KernelConfig)
    requires KernelOk(cfg) && AlwaysFramed(cfg)
    ensures Paired(cfg)
  {
    var t := OneJob(cfg);
    CanFinish(cfg, t);
    var rest :| NoFeed(rest) && Legal(cfg, t + rest) && Idle(cfg, Run(cfg, t + rest));
    NothingFed(t, rest);
    PairedAfter(cfg, t + rest);
  }

  /**
   For every schedule the output consists of complete records and the beginning of one, if and
   only if the cells are even in number.
   */
  lemma {:induction false} FramingIff(cfg: KernelConfig)
    requires KernelOk(cfg)
    ensures (forall t :: FramedAfter(cfg)(t)) <==> Paired(cfg)
  {
    if Paired(cfg) {
      forall t
        ensures FramedAfter(cfg)(t)
      {
        if Legal(cfg, t) {
          RunFramed(cfg, t);
        }
      }
    } else if AlwaysFramed(cfg) {
      FramedMeansPaired(cfg);
    }
  }
}
