/**
 The cycle count in a record: the steps of the composition since it last took a tick, of which
 there is one for every job begun.
 */
module Cycles {
  import opened Streams
  import opened Monoids
  import opened Funnel
  import opened Compose
  import opened Kernel
  import opened KernelSafety
  import opened Liveness

  // Ticks.

  /** The jobs of which anything has been read. */
  function Begun(s: seq<Wide>): nat {
    |Jobs(s)| + if Open(s) == [] then 0 else 1
  }

  ghost predicate TickPerJob(s: State) {
    && |s.res.tick.log| == Begun(s.srcbuf.Consumed())
    && (s.src_last <==> Open(s.srcbuf.Consumed()) == [])
  }

  lemma {:induction false} SplitTicks(s: State)
    requires TickPerJob(s)
    ensures TickPerJob(SplitBufStep(s))
  {
    if !s.srcbuf.Empty() {
      JobsSnoc(s.srcbuf.Consumed(), s.srcbuf.Peek());
    }
  }

  /** Only the source splitter ticks and reads the source. */
  ghost predicate SameTicks(s: State, t: State) {
    && t.res.tick.log == s.res.tick.log && t.src_last == s.src_last
    && t.srcbuf.Consumed() == s.srcbuf.Consumed()
  }

  lemma {:induction false} ComposeTicks(s: State)
    ensures SameTicks(s, ComposeKernelStep(s))
  {
  }

  lemma {:induction false} OtherTicks(cfg: KernelConfig, s: State, a: Action)
    requires HasShape(cfg, s) && Enabled(cfg, a) && !a.Inner? && !a.Split? && !a.StepCompose?
    ensures SameTicks(s, Outer(cfg, s, a))
  {
  }

  lemma {:induction false} NextTicks(cfg: KernelConfig, s: State, a: Action)
    requires Inv(cfg, s) && Enabled(cfg, a) && TickPerJob(s)
    ensures TickPerJob(Next(cfg, s, a))
  {
    if !a.Inner? {
      Shapes(cfg, s);
      if a.Split? {
        SplitTicks(s);
      } else if a.StepCompose? {
        NextComposes(cfg, s);
        ComposeTicks(s);
      } else {
        OtherTicks(cfg, s, a);
      }
    }
  }

  lemma {:induction false} OneActionTicks(cfg: KernelConfig, p: seq<Action>, a: Action)
    requires KernelOk(cfg) && Legal(cfg, p) && Enabled(cfg, a) && TickPerJob(Run(cfg, p))
    ensures Legal(cfg, p + [a]) && TickPerJob(Run(cfg, p + [a]))
  {
    OneMore(cfg, p, a);
    NextTicks(cfg, Run(cfg, p), a);
  }

  /** After every schedule there has been one tick for every job begun. */
  lemma {:induction false} OneTickPerJob(cfg: KernelConfig, schedule: seq<Action>)
    requires KernelOk(cfg) && Legal(cfg, schedule)
    ensures TickPerJob(Run(cfg, schedule))
    decreases |schedule|
  {
    if schedule == [] {
      assert TickPerJob(Init(cfg));
    } else {
      var p, a := schedule[..|schedule| - 1], schedule[|schedule| - 1];
      assert schedule == p + [a];
      OneTickPerJob(cfg, p);
      OneActionTicks(cfg, p, a);
    }
  }

  // The counter.

  /** What one action is for the counter: a step of the composition, that takes a tick, that sends a count. */
  datatype Turn = Turn(steps: bool, ticked: bool, sends: bool)

  function TurnOf(c: Composer, i: Inputs, a: Action): Turn {
    Turn(a.StepCompose?, a.StepCompose? && !i.tick.Empty(),
         a.StepCompose? && c.idx == |i.agms| + 1 && !i.card.Empty())
  }

  function Turns(cfg: KernelConfig, schedule: seq<Action>): (ts: seq<Turn>)
    requires KernelOk(cfg) && Legal(cfg, schedule)
    ensures |ts| == |schedule|
  {
    if schedule == [] then []
    else
      var p := schedule[..|schedule| - 1];
      var s := Run(cfg, p);
      Turns(cfg, p) + [TurnOf(s.comp, s.res, schedule[|schedule| - 1])]
  }

  /** The number of steps. */
  function Steps(ts: seq<Turn>): nat {
    if ts == [] then 0 else Steps(ts[..|ts| - 1]) + if ts[|ts| - 1].steps then 1 else 0
  }

  /** The number of counts sent. */
  function Sendings(ts: seq<Turn>): nat {
    if ts == [] then 0 else Sendings(ts[..|ts| - 1]) + if ts[|ts| - 1].sends then 1 else 0
  }

  /** Turn `from` is the latest one to take a tick, or the first turn if none does. */
  ghost predicate Latest(ts: seq<Turn>, from: nat) {
    && (from == 0 || (from < |ts| && ts[from].ticked))
    && forall i :: from < i < |ts| ==> !ts[i].ticked
  }

  /** The steps from the latest tick on, modulo 2^32. */
  ghost predicate IsCount(ts: seq<Turn>, cc: int) {
    forall from: nat :: Latest(ts, from) ==> cc == Steps(ts[from..]) % 0x1_0000_0000
  }

  /** Turn `t` sends the `j`-th count, which is `cc`. */
  ghost predicate SentAt(ts: seq<Turn>, j: nat, cc: nat, t: nat) {
    t < |ts| && ts[t].sends && Sendings(ts[..t]) == j && IsCount(ts[..t + 1], cc)
  }

  ghost predicate Sent(ts: seq<Turn>, j: nat, cc: nat) {
    exists t: nat :: SentAt(ts, j, cc, t)
  }

  /** A count for every sending: the steps from the latest tick up to it. */
  ghost predicate AreCounts(ts: seq<Turn>, ccs: seq<nat>) {
    |ccs| == Sendings(ts) && forall j :: 0 <= j < |ccs| ==> Sent(ts, j, ccs[j])
  }

  lemma {:induction false} StepsSnoc(ts: seq<Turn>, t: Turn, from: nat)
    requires from <= |ts|
    ensures Steps((ts + [t])[from..]) == Steps(ts[from..]) + if t.steps then 1 else 0
  {
    var r := (ts + [t])[from..];
    assert r[..|r| - 1] == ts[from..];
  }

  /** The counter after a turn. */
  function Counted(cc: nat, t: Turn): nat {
    if t.steps then ((if t.ticked then 0 else cc) + 1) % 0x1_0000_0000 else cc
  }

  lemma {:induction false} CountFrom(ts: seq<Turn>, t: Turn, cc: nat, from: nat)
    requires IsCount(ts, cc) && cc < 0x1_0000_0000 && (t.ticked ==> t.steps) && Latest(ts + [t], from)
    ensures from <= |ts| && Counted(cc, t) == Steps((ts + [t])[from..]) % 0x1_0000_0000
  {
    var us := ts + [t];
    StepsSnoc(ts, t, from);
    assert us[|ts|] == t && forall i :: 0 <= i < |ts| ==> us[i] == ts[i];
    if from < |ts| {
      assert Latest(ts, from);
      ModPlusLeft(Steps(ts[from..]), 1, 0x1_0000_0000);
    } else {
      assert ts[from..] == [];
      assert from == 0 ==> Latest(ts, 0);
    }
  }

  lemma {:induction false} NextCount(ts: seq<Turn>, t: Turn, cc: nat)
    requires IsCount(ts, cc) && cc < 0x1_0000_0000 && (t.ticked ==> t.steps)
    ensures IsCount(ts + [t], Counted(cc, t))
  {
    forall from: nat | Latest(ts + [t], from)
      ensures Counted(cc, t) == Steps((ts + [t])[from..]) % 0x1_0000_0000
    {
      CountFrom(ts, t, cc, from);
    }
  }

  lemma {:induction false} SendingsSnoc(ts: seq<Turn>, t: Turn)
    ensures Sendings(ts + [t]) == Sendings(ts) + if t.sends then 1 else 0
  {
    assert (ts + [t])[..|ts|] == ts;
  }

  lemma {:induction false} SentStill(ts: seq<Turn>, t: Turn, j: nat, cc: nat, k: nat)
    requires SentAt(ts, j, cc, k)
    ensures Sent(ts + [t], j, cc)
  {
    assert (ts + [t])[..k] == ts[..k] && (ts + [t])[..k + 1] == ts[..k + 1];
    assert SentAt(ts + [t], j, cc, k);
  }

  lemma {:induction false} SentNow(ts: seq<Turn>, t: Turn, cc: nat)
    requires IsCount(ts + [t], cc) && t.sends
    ensures Sent(ts + [t], Sendings(ts), cc)
  {
    assert (ts + [t])[..|ts|] == ts && (ts + [t])[..|ts| + 1] == ts + [t];
    assert SentAt(ts + [t], Sendings(ts), cc, |ts|);
  }

  lemma {:induction false} NextCounts(ts: seq<Turn>, t: Turn, ccs: seq<nat>, cc: nat, all: seq<nat>)
    requires AreCounts(ts, ccs) && IsCount(ts + [t], cc) && all == if t.sends then ccs + [cc] else ccs
    ensures AreCounts(ts + [t], all)
  {
    SendingsSnoc(ts, t);
    forall j | 0 <= j < |all|
      ensures Sent(ts + [t], j, all[j])
    {
      if j < |ccs| {
        assert Sent(ts, j, ccs[j]);
        var k: nat :| SentAt(ts, j, ccs[j], k);
        SentStill(ts, t, j, ccs[j], k);
      } else {
        SentNow(ts, t, cc);
      }
    }
  }

  lemma {:induction false} ComposeCycle(c: Composer, i: Inputs, dst: Fifo<Flit<int>>)
    ensures var c', t := ComposeStep(c, i, dst).0, TurnOf(c, i, StepCompose);
            c'.cc == Counted(c.cc, t) && c'.ccs == if t.sends then c.ccs + [c'.cc] else c.ccs
  {
  }

  /** What one action does to the counter and to the counts kept for the records. */
  lemma {:induction false} NextCycle(cfg: KernelConfig, s: State, a: Action)
    requires Inv(cfg, s) && Enabled(cfg, a)
    ensures var c, c', t := s.comp, Next(cfg, s, a).comp, TurnOf(s.comp, s.res, a);
            c'.cc == Counted(c.cc, t) && c'.ccs == if t.sends then c.ccs + [c'.cc] else c.ccs
  {
    if a.StepCompose? {
      NextComposes(cfg, s);
      ComposeCycle(s.comp, s.res, s.dst);
    } else {
      OnlyResults(cfg, s, a);
    }
  }

  ghost predicate CountsKept(c: Composer, ts: seq<Turn>) {
    c.cc < 0x1_0000_0000 && IsCount(ts, c.cc) && AreCounts(ts, c.ccs)
  }

  lemma {:induction false} KeptOnwards(ts: seq<Turn>, t: Turn, c: Composer, c': Composer)
    requires CountsKept(c, ts) && (t.ticked ==> t.steps)
    requires c'.cc == Counted(c.cc, t) && c'.ccs == if t.sends then c.ccs + [c'.cc] else c.ccs
    ensures CountsKept(c', ts + [t])
  {
    NextCount(ts, t, c.cc);
    NextCounts(ts, t, c.ccs, c'.cc, c'.ccs);
  }

  lemma {:induction false} NextKept(cfg: KernelConfig, s: State, a: Action, ts: seq<Turn>)
    requires Inv(cfg, s) && Enabled(cfg, a) && CountsKept(s.comp, ts)
    ensures CountsKept(Next(cfg, s, a).comp, ts + [TurnOf(s.comp, s.res, a)])
  {
    NextCycle(cfg, s, a);
    KeptOnwards(ts, TurnOf(s.comp, s.res, a), s.comp, Next(cfg, s, a).comp);
  }

  lemma {:induction false} TurnsSnoc(cfg: KernelConfig, p: seq<Action>, a: Action)
    requires KernelOk(cfg) && Legal(cfg, p) && Enabled(cfg, a)
    ensures Legal(cfg, p + [a]) && Turns(cfg, p + [a]) == Turns(cfg, p) + [TurnOf(Run(cfg, p).comp, Run(cfg, p).res, a)]
  {
    assert (p + [a])[..|p|] == p;
  }

  lemma {:induction false} OneTurn(cfg: KernelConfig, p: seq<Action>, a: Action)
    requires KernelOk(cfg) && Legal(cfg, p) && Enabled(cfg, a) && CountsKept(Run(cfg, p).comp, Turns(cfg, p))
    ensures Legal(cfg, p + [a]) && CountsKept(Run(cfg, p + [a]).comp, Turns(cfg, p + [a]))
  {
    OneMore(cfg, p, a);
    TurnsSnoc(cfg, p, a);
    NextKept(cfg, Run(cfg, p), a, Turns(cfg, p));
  }

  /**
   After every schedule the counter has the number of compositions from the latest tick on, and the
   count of each record is what the counter had when it was sent.
   */
  lemma {:induction false} CyclesCounted(cfg: KernelConfig, schedule: seq<Action>)
    requires KernelOk(cfg) && Legal(cfg, schedule)
    ensures CountsKept(Run(cfg, schedule).comp, Turns(cfg, schedule))
    decreases |schedule|
  {
    if schedule == [] {
      assert CountsKept(Init(cfg).comp, []);
    } else {
      var p, a := schedule[..|schedule| - 1], schedule[|schedule| - 1];
      assert schedule == p + [a];
      CyclesCounted(cfg, p);
      OneTurn(cfg, p, a);
    }
  }
}
