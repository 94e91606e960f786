/**
 How many records the kernel sends: one for every job of cells it has read if these can be
 packed two by two, and otherwise only one for every two of them.
 */
module RecordCount {
  import opened Streams
  import opened Compose
  import opened Kernel
  import opened KernelSafety
  import opened KernelResults
  import opened Liveness
  import Framing

  // The composition packs cells two by two, whichever job they belong to.

  /** The records that the cells `c` have closed: a `last` flag counts if its cell is a second half. */
  function Closed(c: seq<Flit<int>>): nat {
    if c == [] then 0
    else Closed(c[..|c| - 1]) + if |c| % 2 == 0 && c[|c| - 1].last then 1 else 0
  }

  lemma {:induction false} ClosedSnoc(c: seq<Flit<int>>, x: Flit<int>)
    ensures Closed(c + [x]) == Closed(c) + if |c| % 2 == 1 && x.last then 1 else 0
  {
    assert (c + [x])[..|c|] == c;
  }

  /** A first half is waiting after an odd number of cells, and every record was closed by a second half. */
  ghost predicate TwoByTwo(lo: Option<int>, cells: seq<Flit<int>>, o: seq<Flit<int>>) {
    (lo.Some? <==> |cells| % 2 == 1) && |Jobs(o)| == Closed(cells)
  }

  ghost predicate Packed(s: State) {
    TwoByTwo(s.comp.lo, s.res.cm.Consumed(), s.dst.log)
  }

  lemma {:induction false} CellPacked(lo: Option<int>, cells: seq<Flit<int>>, o: seq<Flit<int>>, x: Flit<int>, y: int)
    requires TwoByTwo(lo, cells, o)
    ensures lo.None? ==> TwoByTwo(Some(x.val), cells + [x], o)
    ensures lo.Some? ==> TwoByTwo(None, cells + [x], o + [Flit(x.last, y)])
  {
    ClosedSnoc(cells, x);
    JobsSnoc(o, Flit(x.last, y));
  }

  lemma {:induction false} WordPacked(lo: Option<int>, cells: seq<Flit<int>>, o: seq<Flit<int>>, y: int)
    requires TwoByTwo(lo, cells, o)
    ensures TwoByTwo(lo, cells, o + [Flit(false, y)])
  {
    JobsSnoc(o, Flit(false, y));
  }

  lemma {:induction false} ComposePacks(s: Composer, i: Inputs, dst: Fifo<Flit<int>>)
    requires TwoByTwo(s.lo, i.cm.Consumed(), dst.log)
    ensures var (s', i', dst') := ComposeStep(s, i, dst); TwoByTwo(s'.lo, i'.cm.Consumed(), dst'.log)
  {
    var (s', i', dst') := ComposeStep(s, i, dst);
    var cells, o := i.cm.Consumed(), dst.log;
    if s.idx > |i.agms| + 1 {
      if !i.cm.Empty() {
        var x := i.cm.Peek();
        CellPacked(s.lo, cells, o, x, if s.lo.Some? then Pack(s.lo.value, x.val) else 0);
        assert i'.cm.Consumed() == cells + [x];
      }
    } else if dst'.log != o {
      WordPacked(s.lo, cells, o, dst'.log[|o|].val);
      assert dst'.log == o + [Flit(false, dst'.log[|o|].val)];
    }
  }

  lemma {:induction false} PackedFront(s: State, t: State)
    requires Packed(s) && InFront(s, t)
    ensures Packed(t)
  {
  }

  lemma {:induction false} PackedNext(cfg: KernelConfig, s: State, a: Action)
    requires Inv(cfg, s) && Enabled(cfg, a) && Packed(s)
    ensures Packed(Next(cfg, s, a))
  {
    if a.StepCompose? {
      NextComposes(cfg, s);
      ComposePacks(s.comp, s.res, s.dst);
    } else {
      OnlyResults(cfg, s, a);
      PackedFront(s, Next(cfg, s, a));
    }
  }

  lemma {:induction false} PackedOneMore(cfg: KernelConfig, p: seq<Action>, a: Action)
    requires KernelOk(cfg) && Legal(cfg, p) && Enabled(cfg, a) && Packed(Run(cfg, p))
    ensures Legal(cfg, p + [a]) && Packed(Run(cfg, p + [a]))
  {
    OneMore(cfg, p, a);
    PackedNext(cfg, Run(cfg, p), a);
  }

  /** What `q` says of no actions at all, and of one action more wherever it says it, it says of all schedules. */
  lemma {:induction false} EverySchedule(q: seq<Action> -> bool, t: seq<Action>)
    requires q([]) && forall p, a {:trigger q(p + [a])} :: q(p) ==> q(p + [a])
    ensures q(t)
    decreases |t|
  {
    if t != [] {
      var p, a := t[..|t| - 1], t[|t| - 1];
      EverySchedule(q, p);
      assert q(p + [a]);
      assert t == p + [a];
    }
  }

  ghost function PackedAfter(cfg: KernelConfig): seq<Action> -> bool {
    (t: seq<Action>) => KernelOk(cfg) && Legal(cfg, t) ==> Packed(Run(cfg, t))
  }

  lemma {:induction false} PackedAtFirst(cfg: KernelConfig)
    ensures PackedAfter(cfg)([])
  {
  }

  lemma {:induction false} PackedAtNext(cfg: KernelConfig, p: seq<Action>, a: Action)
    requires PackedAfter(cfg)(p)
    ensures PackedAfter(cfg)(p + [a])
  {
    if KernelOk(cfg) && Legal(cfg, p + [a]) {
      Framing.LegalPrefix(cfg, p, a);
      PackedOneMore(cfg, p, a);
    }
  }

  lemma {:induction false} RunPacked(cfg: KernelConfig, schedule: seq<Action>)
    requires KernelOk(cfg) && Legal(cfg, schedule)
    ensures Packed(Run(cfg, schedule))
  {
    PackedAtFirst(cfg);
    forall p, a {:trigger PackedAfter(cfg)(p + [a])} | PackedAfter(cfg)(p)
      ensures PackedAfter(cfg)(p + [a])
    {
      PackedAtNext(cfg, p, a);
    }
    EverySchedule(PackedAfter(cfg), schedule);
  }

  // Jobs of equally many cells.

  ghost predicate AllHave(jobs: seq<seq<int>>, n: nat) {
    forall j :: 0 <= j < |jobs| ==> |jobs[j]| == n
  }

  /** Every job closes a record if its cells are even in number, otherwise every second one. */
  predicate Tally(cells: nat, jobs: nat, open: nat, closed: nat, n: nat) {
    && cells % 2 == ((if n % 2 == 0 then 0 else jobs) + open) % 2
    && closed == if n % 2 == 0 then jobs else jobs / 2
  }

  /** The last of `n` cells behind `jobs` jobs of `n` cells is a second half, or a first half. */
  lemma {:induction false} LastTallied(cells: nat, jobs: nat, open: nat, closed: nat, n: nat)
    requires Tally(cells, jobs, open, closed, n) && open + 1 == n
    ensures Tally(cells + 1, jobs + 1, 0, closed + if cells % 2 == 1 then 1 else 0, n)
  {
    if n % 2 == 0 {
      assert open % 2 == 1;
    } else {
      assert open % 2 == 0;
      assert (jobs + open) % 2 == jobs % 2;
    }
  }

  lemma {:induction false} CellTallied(cells: nat, jobs: nat, open: nat, closed: nat, n: nat)
    requires Tally(cells, jobs, open, closed, n)
    ensures Tally(cells + 1, jobs, open + 1, closed, n)
  {
  }

  ghost predicate ClosedBy(c: seq<Flit<int>>, n: nat) {
    Tally(|c|, |Jobs(c)|, |Open(c)|, Closed(c), n)
  }

  lemma {:induction false} ClosedByNext(c: seq<Flit<int>>, x: Flit<int>, n: nat)
    requires ClosedBy(c, n) && (x.last ==> |Open(c)| + 1 == n)
    ensures ClosedBy(c + [x], n)
  {
    var cells, jobs, open, closed := |c|, |Jobs(c)|, |Open(c)|, Closed(c);
    assert Tally(cells, jobs, open, closed, n);
    if x.last {
      LastTallied(cells, jobs, open, closed, n);
    } else {
      CellTallied(cells, jobs, open, closed, n);
    }
    JobsSnoc(c, x);
    ClosedSnoc(c, x);
  }

  lemma {:induction false} ClosedJobs(c: seq<Flit<int>>, n: nat)
    requires AllHave(Jobs(c), n)
    ensures ClosedBy(c, n)
    decreases |c|
  {
    if c != [] {
      var p, x := c[..|c| - 1], c[|c| - 1];
      assert c == p + [x];
      JobsSnoc(p, x);
      assert Jobs(p) <= Jobs(c) && (x.last ==> Jobs(c)[|Jobs(p)|] == Open(p) + [x.val]);
      ClosedJobs(p, n);
      ClosedByNext(p, x, n);
    }
  }

  /** After any schedule there is a record for every job of cells read, or for every second one. */
  lemma {:induction false} RecordsSent(cfg: KernelConfig, schedule: seq<Action>)
    requires KernelOk(cfg) && Legal(cfg, schedule)
    ensures var s := Run(cfg, schedule);
            |Jobs(s.dst.log)| == if Paired(cfg) then |Jobs(s.res.cm.Consumed())| else |Jobs(s.res.cm.Consumed())| / 2
  {
    var s := Run(cfg, schedule);
    RunPacked(cfg, schedule);
    Framing.CellsRead(cfg, s);
    ClosedJobs(s.res.cm.Consumed(), Cells(cfg.net.sketches[CM]));
  }

  lemma {:induction false} CellJobs(cfg: KernelConfig, s: State)
    requires Inv(cfg, s)
    ensures |Jobs(s.res.cm.Consumed())| <= |Jobs(s.srcbuf.log)|
  {
    Shapes(cfg, s);
    var j := |Jobs(s.res.cm.log)|;
    JobsPrefix(s.res.cm.Consumed(), s.res.cm.log);
    if j > 0 {
      CellsOfJob(cfg, s, j - 1);
    }
  }

  lemma {:induction false} JobsRead(cfg: KernelConfig, schedule: seq<Action>)
    requires KernelOk(cfg) && Legal(cfg, schedule)
    ensures |Jobs(Run(cfg, schedule).res.cm.Consumed())| <= |Jobs(Fed(schedule))|
  {
    RunSource(cfg, schedule);
    CellJobs(cfg, Run(cfg, schedule));
  }

  /** With an odd number of cells the first job fed never gets its record on its own. */
  lemma {:induction false} FirstJobWaits(cfg: KernelConfig, schedule: seq<Action>)
    requires KernelOk(cfg) && Legal(cfg, schedule) && !Paired(cfg) && |Jobs(Fed(schedule))| == 1
    ensures Jobs(Run(cfg, schedule).dst.log) == []
  {
    RecordsSent(cfg, schedule);
    JobsRead(cfg, schedule);
  }

  // When every job gets its record.

  /** If the kernel is idle after the schedule, it has sent a record for every job fed. */
  ghost function DeliversAfter(cfg: KernelConfig): seq<Action> -> bool {
    (t: seq<Action>) =>
      KernelOk(cfg) && Legal(cfg, t) && Idle(cfg, Run(cfg, t)) ==> |Jobs(Run(cfg, t).dst.log)| == |Jobs(Fed(t))|
  }

  lemma {:induction false} OneJobIdle(cfg: KernelConfig) returns (t: seq<Action>)
    requires KernelOk(cfg)
    ensures Legal(cfg, t) && Idle(cfg, Run(cfg, t)) && |Jobs(Fed(t))| == 1
  {
    var one := Framing.OneJob(cfg);
    CanFinish(cfg, one);
    var rest :| NoFeed(rest) && Legal(cfg, one + rest) && Idle(cfg, Run(cfg, one + rest));
    NothingFed(one, rest);
    t := one + rest;
  }

  /**
   An idle kernel has sent a record for every job fed, after every schedule, if and only if the
   cells are even in number.
   */
  lemma {:induction false} DeliveryIff(cfg: KernelConfig)
    requires KernelOk(cfg) && |cfg.net.sketches[AGMS]| > 0
    ensures (forall t :: DeliversAfter(cfg)(t)) <==> Paired(cfg)
  {
    if Paired(cfg) {
      forall t
        ensures DeliversAfter(cfg)(t)
      {
        if Legal(cfg, t) && Idle(cfg, Run(cfg, t)) {
          KernelComplete(cfg, t);
        }
      }
    } else {
      var t := OneJobIdle(cfg);
      FirstJobWaits(cfg, t);
      assert !DeliversAfter(cfg)(t);
    }
  }
}
