/**
 The fair schedule that hardware follows: all stages in turn, over and over again.
 */
module RoundRobin {
  import opened Streams
  import opened Collecting
  import opened Network
  import opened Kernel
  import opened Fairness
  import BitSlices

  // All stages of a kernel.

  function RowStages(k: nat, r: nat, K: nat): seq<Action> {
    [Inner(Reduce(k, r))] + seq(K, i requires 0 <= i < K => Inner(Count(k, r, i, Visibility(true, true, true))))
  }

  function SketchStages(k: nat, R: nat, K: nat): seq<Action> {
    if R == 0 then seq(K, i requires 0 <= i < K => Inner(Key(k, i)))
    else SketchStages(k, R - 1, K) + RowStages(k, R - 1, K)
  }

  function NetStages(cfg: Config, n: nat): seq<Action>
    requires n <= |cfg.sketches|
  {
    if n == 0 then [Inner(Deliver), Inner(Distribute)]
    else NetStages(cfg, n - 1) + SketchStages(n - 1, |cfg.sketches[n - 1]|, cfg.K)
  }

  function OuterStages(R: nat): seq<Action> {
    [Split, MapBasic, StepBasic, Estimate, StepConcat, StepCompose] + seq(R, r requires 0 <= r < R => FoldRow(r))
  }

  function AllStages(cfg: KernelConfig): (stages: seq<Action>)
    requires KernelOk(cfg)
    ensures |stages| > 0
  {
    OuterStages(|cfg.net.sketches[AGMS]|) + NetStages(cfg.net, |cfg.net.sketches|)
  }

  // They are all of them, and nothing else.

  ghost predicate Has(stages: seq<Action>, a: Action) {
    exists p :: 0 <= p < |stages| && SameStage(stages[p], a)
  }

  lemma {:induction false} HasConcat(s: seq<Action>, t: seq<Action>, a: Action)
    requires Has(s, a) || Has(t, a)
    ensures Has(s + t, a)
  {
    if Has(s, a) {
      var p :| 0 <= p < |s| && SameStage(s[p], a);
      assert SameStage((s + t)[p], a);
    } else {
      var p :| 0 <= p < |t| && SameStage(t[p], a);
      assert SameStage((s + t)[|s| + p], a);
    }
  }

  lemma {:induction false} RowHas(k: nat, r: nat, K: nat, a: Action)
    requires a.Inner? && (a.c.Reduce? || (a.c.Count? && a.c.i < K)) && a.c.k == k && a.c.r == r
    ensures Has(RowStages(k, r, K), a)
  {
    if a.c.Reduce? {
      assert SameStage(RowStages(k, r, K)[0], a);
    } else {
      assert SameStage(RowStages(k, r, K)[1 + a.c.i], a);
    }
  }

  lemma {:induction false} SketchHas(k: nat, R: nat, K: nat, a: Action)
    requires a.Inner? && (a.c.Key? || a.c.Reduce? || a.c.Count?) && a.c.k == k
    requires !a.c.Key? ==> a.c.r < R
    requires !a.c.Reduce? ==> a.c.i < K
    ensures Has(SketchStages(k, R, K), a)
    decreases R
  {
    if R == 0 {
      assert SameStage(SketchStages(k, R, K)[a.c.i], a);
    } else {
      if !a.c.Key? && a.c.r == R - 1 {
        RowHas(k, R - 1, K, a);
      } else {
        SketchHas(k, R - 1, K, a);
      }
      HasConcat(SketchStages(k, R - 1, K), RowStages(k, R - 1, K), a);
    }
  }

  lemma {:induction false} NetHas(cfg: Config, n: nat, c: Choice)
    requires n <= |cfg.sketches| && Possible(cfg, c) && (c.Deliver? || c.Distribute? || c.k < n)
    ensures Has(NetStages(cfg, n), Inner(c))
    decreases n
  {
    if n == 0 {
      assert SameStage(NetStages(cfg, 0)[0], Inner(Deliver)) && SameStage(NetStages(cfg, 0)[1], Inner(Distribute));
    } else {
      var R := |cfg.sketches[n - 1]|;
      if !c.Deliver? && !c.Distribute? && c.k == n - 1 {
        SketchHas(n - 1, R, cfg.K, Inner(c));
      } else {
        NetHas(cfg, n - 1, c);
      }
      HasConcat(NetStages(cfg, n - 1), SketchStages(n - 1, R, cfg.K), Inner(c));
    }
  }

  lemma {:induction false} OuterHas(R: nat, a: Action)
    requires !a.Feed? && !a.Inner? && (a.FoldRow? ==> a.r < R)
    ensures Has(OuterStages(R), a)
  {
    var p := match a
      case Split => 0
      case MapBasic => 1
      case StepBasic => 2
      case Estimate => 3
      case StepConcat => 4
      case StepCompose => 5
      case FoldRow(r) => 6 + r;
    assert SameStage(OuterStages(R)[p], a);
  }

  lemma {:induction false} AllHas(cfg: KernelConfig, a: Action)
    requires KernelOk(cfg) && Enabled(cfg, a) && !a.Feed?
    ensures Has(AllStages(cfg), a)
  {
    if a.Inner? {
      NetHas(cfg.net, |cfg.net.sketches|, a.c);
    } else {
      OuterHas(|cfg.net.sketches[AGMS]|, a);
    }
    HasConcat(OuterStages(|cfg.net.sketches[AGMS]|), NetStages(cfg.net, |cfg.net.sketches|), a);
  }

  ghost predicate AllPossible(cfg: KernelConfig, stages: seq<Action>) {
    forall p :: 0 <= p < |stages| ==> Enabled(cfg, stages[p]) && !stages[p].Feed?
  }

  lemma {:induction false} SketchEnabled(cfg: KernelConfig, k: nat, R: nat)
    requires k < |cfg.net.sketches| && R <= |cfg.net.sketches[k]|
    ensures AllPossible(cfg, SketchStages(k, R, cfg.net.K))
    decreases R
  {
    if R > 0 {
      SketchEnabled(cfg, k, R - 1);
    }
  }

  lemma {:induction false} NetEnabled(cfg: KernelConfig, n: nat)
    requires n <= |cfg.net.sketches|
    ensures AllPossible(cfg, NetStages(cfg.net, n))
    decreases n
  {
    if n > 0 {
      NetEnabled(cfg, n - 1);
      SketchEnabled(cfg, n - 1, |cfg.net.sketches[n - 1]|);
    }
  }

  lemma {:induction false} AllEnabled(cfg: KernelConfig)
    requires KernelOk(cfg)
    ensures AllPossible(cfg, AllStages(cfg))
  {
    NetEnabled(cfg, |cfg.net.sketches|);
    assert AllPossible(cfg, OuterStages(|cfg.net.sketches[AGMS]|));
  }

  // In turn.

  /** One stage after the other. */
  function InTurn(cfg: KernelConfig): nat -> Action
    requires KernelOk(cfg)
  {
    var stages := AllStages(cfg);
    (n: nat) => stages[n % |stages|]
  }

  /** Place `p` of the round that begins at `n * L`. */
  lemma {:induction false} Round(n: nat, p: nat, L: nat) returns (m: nat)
    requires p < L
    ensures n <= m && m % L == p
  {
    m := n * L + p;
    DivModUnique(n, p, L);
    BitSlices.MulMonotone(1, L, n);
  }

  lemma {:induction false} TurnComes(cfg: KernelConfig, a: Action, n: nat)
    requires KernelOk(cfg) && Has(AllStages(cfg), a)
    ensures ItsTurn(Staging(), InTurn(cfg), a, n)
  {
    var stages := AllStages(cfg);
    var p :| 0 <= p < |stages| && SameStage(stages[p], a);
    var m := Round(n, p, |stages|);
    assert Staging()(InTurn(cfg)(m), a);
  }

  /** Taking turns is possible without input, and fair. */
  lemma {:induction false} InTurnFair(cfg: KernelConfig)
    requires KernelOk(cfg)
    ensures Steady(cfg, InTurn(cfg)) && Fair(cfg, InTurn(cfg))
  {
    AllEnabled(cfg);
    forall a, n: nat | Enabled(cfg, a) && !a.Feed?
      ensures ItsTurn(Staging(), InTurn(cfg), a, n)
    {
      AllHas(cfg, a);
      TurnComes(cfg, a, n);
    }
  }
}
