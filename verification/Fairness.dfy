/**
 Every infinite run without further input comes to rest: from some point on no action
 moves data. If every stage gets its turn again and again, it rests in an idle state.
 */
module Fairness {
  import opened Streams
  import opened Lanes
  import opened Funnel
  import opened Collecting
  import opened Network
  import opened Joined
  import opened Kernel
  import opened KernelSafety
  import opened KernelResults
  import opened Liveness

  // Steps that move no data.

  /** The same streams, and collectors that dump or not at the same place. */
  ghost predicate RowAlike(a: Row, b: Row) {
    && a.keyed == b.keyed && a.counts == b.counts && a.joined == b.joined && |a.units| == |b.units|
    && forall i :: 0 <= i < |a.units| ==>
         && a.units[i].dump == b.units[i].dump && a.units[i].ptr == b.units[i].ptr
         && |a.units[i].mem.cells| == |b.units[i].mem.cells|
  }

  ghost predicate SketchAlike(a: Sketch, b: Sketch) {
    a.hashed == b.hashed && |a.rows| == |b.rows| && forall r :: 0 <= r < |a.rows| ==> RowAlike(a.rows[r], b.rows[r])
  }

  ghost predicate NetAlike(a: Net, b: Net) {
    && a.src == b.src && a.q == b.q && a.lanes == b.lanes && |a.sketches| == |b.sketches|
    && forall k :: 0 <= k < |a.sketches| ==> SketchAlike(a.sketches[k], b.sketches[k])
  }

  /** States that differ at most in cycle counter, ticks and memories under way. */
  ghost predicate Alike(s: State, t: State) {
    && s.srcbuf == t.srcbuf && s.flat0 == t.flat0 && s.basicIn == t.basicIn && s.basic == t.basic
    && NetAlike(s.net, t.net)
    && s.idx == t.idx && s.comp.idx == t.comp.idx
    && s.res.agms == t.res.agms && s.res.basic == t.res.basic && s.res.card == t.res.card && s.res.cm == t.res.cm
    && s.folds == t.folds
  }

  lemma {:induction false} DeliverIdle(N: nat, q: seq<Item>, src: Fifo<Wide>, lanes: seq<Fifo<Item>>)
    requires FunnelIdle(N, |lanes|, q, src)
    ensures FunnelStep(N, q, src, lanes) == (q, src, lanes)
  {
    assert WriteGroup(lanes, []) == lanes;
    assert q[0..] == q;
  }

  lemma {:induction false} DistributeIdle(cfg: Config, net: Net)
    requires NetInv(cfg, net) && forall i :: 0 <= i < |net.lanes| ==> net.lanes[i].Empty()
    ensures NetStep(cfg, net, Distribute) == net
  {
    var t := NetStep(cfg, net, Distribute);
    assert t.lanes == net.lanes;
    forall k | 0 <= k < |net.sketches|
      ensures t.sketches[k] == net.sketches[k]
    {
      assert SketchInv(cfg, cfg.sketches[k], net.sketches[k], net.lanes);
      assert t.sketches[k].hashed == net.sketches[k].hashed;
    }
    assert t.sketches == net.sketches;
  }

  lemma {:induction false} CollectIdle(spec: RowSpec, row: Row, i: nat, vis: Visibility)
    requires i < |row.keyed| == |row.units| == |row.counts|
    requires UnitOk(row.units[i], spec.M) && KeysBelow(row.keyed[i], spec.M)
    requires !row.units[i].dump && row.keyed[i].Empty()
    ensures RowAlike(CollectStep(spec, row, i, vis), row)
  {
    var t := CollectStep(spec, row, i, vis);
    assert t.keyed == row.keyed && t.counts == row.counts;
  }

  lemma {:induction false} UpdateAlike(net: Net, k: nat, r: nat, row: Row)
    requires k < |net.sketches| && r < |net.sketches[k].rows| && RowAlike(row, net.sketches[k].rows[r])
    ensures NetAlike(UpdateRow(net, k, r, row), net)
  {
  }

  lemma {:induction false} NetIdleStep(cfg: Config, net: Net, c: Choice)
    requires NetInv(cfg, net) && Possible(cfg, c)
    requires (Shaped(cfg, net); !Productive(cfg, net, c))
    ensures NetAlike(NetStep(cfg, net, c), net)
  {
    match c {
      case Deliver => DeliverIdle(cfg.N, net.q, net.src, net.lanes);
      case Distribute => DistributeIdle(cfg, net);
      case Key(k, i) =>
        assert net.sketches[k := net.sketches[k]] == net.sketches;
      case Count(k, r, i, vis) =>
        RowHolds(cfg, net, k, r);
        var row := net.sketches[k].rows[r];
        RowCollectInv(cfg.K, cfg.sketches[k][r], row, net.sketches[k].hashed, i, vis);
        assert LaneInv(cfg.sketches[k][r], row.keyed[i], row.units[i], row.counts[i], net.sketches[k].hashed[i]);
        CollectIdle(cfg.sketches[k][r], row, i, vis);
        UpdateAlike(net, k, r, CollectStep(cfg.sketches[k][r], row, i, vis));
      case Reduce(k, r) =>
        var row := net.sketches[k].rows[r];
        UpdateAlike(net, k, r, row);
    }
  }

  lemma {:induction false} JoinedAlike(net: Net, k: nat, r: nat)
    requires k < |net.sketches| && r < |net.sketches[k].rows|
    ensures NetAlike(SetJoined(net, k, r, JoinedAt(net, k, r)), net)
  {
    UpdateAlike(net, k, r, net.sketches[k].rows[r].(joined := JoinedAt(net, k, r)));
  }

  lemma {:induction false} ComposeIdle(s: State)
    requires !Ready(s.comp, s.res)
    ensures Alike(ComposeKernelStep(s), s)
  {
  }

  lemma {:induction false} OuterIdle(cfg: KernelConfig, s: State, a: Action)
    requires HasShape(cfg, s) && NetShape(cfg.net, s.net) && Enabled(cfg, a) && !a.Feed? && !a.Inner?
    requires !Moves(cfg, s, a)
    ensures Alike(Outer(cfg, s, a), s)
  {
    match a {
      case Split =>
      case MapBasic =>
      case StepBasic =>
      case Estimate => JoinedAlike(s.net, HLL, 0);
      case FoldRow(r) => JoinedAlike(s.net, AGMS, r);
      case StepConcat => JoinedAlike(s.net, CM, s.idx);
      case StepCompose => ComposeIdle(s);
    }
  }

  /** An action that moves no data leaves everything as it is, but for counter, ticks and memories. */
  lemma {:induction false} IdleNext(cfg: KernelConfig, s: State, a: Action)
    requires Inv(cfg, s) && Enabled(cfg, a) && !a.Feed?
    requires (AllShapes(cfg, s); !Moves(cfg, s, a))
    ensures Alike(Next(cfg, s, a), s)
  {
    AllShapes(cfg, s);
    if a.Inner? {
      NetIdleStep(cfg.net, s.net, a.c);
    } else {
      OuterIdle(cfg, s, a);
    }
  }

  lemma {:induction false} SumOverSame<T>(f: T -> nat, s: seq<T>, t: seq<T>)
    requires |s| == |t| && forall i :: 0 <= i < |s| ==> f(s[i]) == f(t[i])
    ensures SumOver(f, s) == SumOver(f, t)
    decreases |s|
  {
    if s != [] {
      SumOverSame(f, s[..|s| - 1], t[..|t| - 1]);
    }
  }

  lemma {:induction false} OverRowsSame(g: Row -> nat, a: Net, b: Net)
    requires NetAlike(a, b) && forall x, y :: RowAlike(x, y) ==> g(x) == g(y)
    ensures OverRows(g, a) == OverRows(g, b)
  {
    forall k | 0 <= k < |a.sketches|
      ensures OfSketch(g)(a.sketches[k]) == OfSketch(g)(b.sketches[k])
    {
      assert SketchAlike(a.sketches[k], b.sketches[k]);
      SumOverSame(g, a.sketches[k].rows, b.sketches[k].rows);
    }
    SumOverSame(OfSketch(g), a.sketches, b.sketches);
  }

  lemma {:induction false} DumpsSame(x: Row, y: Row)
    requires RowAlike(x, y)
    ensures DumpsLeft()(x) == DumpsLeft()(y)
  {
    SumOverSame(DumpLeft(), x.units, y.units);
  }

  lemma {:induction false} NetWorkSame(a: Net, b: Net)
    requires NetAlike(a, b)
    ensures NetWorkOf(a) == NetWorkOf(b) && OverRows(JoinedLeft(), a) == OverRows(JoinedLeft(), b)
  {
    forall x, y | RowAlike(x, y)
      ensures DumpsLeft()(x) == DumpsLeft()(y)
    {
      DumpsSame(x, y);
    }
    OverRowsSame(KeyedLeft(), a, b);
    OverRowsSame(DumpsLeft(), a, b);
    OverRowsSame(CountsLeft(), a, b);
    OverRowsSame(JoinedLeft(), a, b);
    forall k | 0 <= k < |a.sketches|
      ensures HashedLeft()(a.sketches[k]) == HashedLeft()(b.sketches[k])
    {
      assert SketchAlike(a.sketches[k], b.sketches[k]);
    }
    SumOverSame(HashedLeft(), a.sketches, b.sketches);
  }

  lemma {:induction false} WorkSame(s: State, t: State)
    requires Alike(s, t)
    ensures WorkOf(s) == WorkOf(t)
  {
    NetWorkSame(s.net, t.net);
  }

  lemma {:induction false} ProductiveSame(cfg: Config, a: Net, b: Net, c: Choice)
    requires NetAlike(a, b) && Possible(cfg, c) && NetShape(cfg, a) && NetShape(cfg, b)
    ensures Productive(cfg, a, c) <==> Productive(cfg, b, c)
  {
    if c.Key? || c.Count? || c.Reduce? {
      assert SketchAlike(a.sketches[c.k], b.sketches[c.k]);
    }
    if c.Count? || c.Reduce? {
      assert RowAlike(a.sketches[c.k].rows[c.r], b.sketches[c.k].rows[c.r]);
    }
  }

  lemma {:induction false} MovesSame(cfg: KernelConfig, s: State, t: State, a: Action)
    requires Alike(s, t) && HasShape(cfg, s) && HasShape(cfg, t) && NetShape(cfg.net, s.net) && NetShape(cfg.net, t.net)
    ensures Moves(cfg, s, a) <==> Moves(cfg, t, a)
  {
    if Enabled(cfg, a) {
      assert SketchAlike(s.net.sketches[HLL], t.net.sketches[HLL]);
      assert SketchAlike(s.net.sketches[AGMS], t.net.sketches[AGMS]);
      assert SketchAlike(s.net.sketches[CM], t.net.sketches[CM]);
      if a.Inner? {
        ProductiveSame(cfg.net, s.net, t.net, a.c);
      }
    }
  }

  /** An action that moves no data leaves the work as it is. */
  lemma {:induction false} WorkStays(cfg: KernelConfig, s: State, a: Action)
    requires Inv(cfg, s) && Enabled(cfg, a) && !a.Feed?
    requires (AllShapes(cfg, s); !Moves(cfg, s, a))
    ensures WorkOf(Next(cfg, s, a)) == WorkOf(s)
  {
    IdleNext(cfg, s, a);
    WorkSame(Next(cfg, s, a), s);
  }

  // Infinite runs, of any system whose steps leave less work or change nothing in who can move.

  ghost predicate Steps<S(!new), A(!new)>(ok: (S, A, S) -> bool, st: nat -> S, acts: nat -> A) {
    forall n: nat :: StepAt(ok, st, acts, n)
  }

  ghost predicate StepAt<S(!new), A(!new)>(ok: (S, A, S) -> bool, st: nat -> S, acts: nat -> A, n: nat) {
    ok(st(n), acts(n), st(n + 1))
  }

  ghost predicate Unmoved<S(!new), A(!new)>(mv: (S, A) -> bool, s: S, t: S) {
    forall b :: mv(s, b) <==> mv(t, b)
  }

  /** A step leaves less work, or it moves nothing and everyone can move as before. */
  ghost predicate LessOrCalm<S(!new), A(!new)>(work: S -> Work, mv: (S, A) -> bool, s: S, a: A, t: S) {
    Less(work(t), work(s)) || (work(t) == work(s) && !mv(s, a) && Unmoved(mv, s, t))
  }

  ghost predicate Settling<S(!new), A(!new)>(ok: (S, A, S) -> bool, work: S -> Work, mv: (S, A) -> bool) {
    forall s, a, t :: ok(s, a, t) ==> LessOrCalm(work, mv, s, a, t)
  }

  lemma {:induction false} LessIsStrict(w: Work)
    ensures !Less(w, w)
  {
  }

  ghost predicate ConstantFrom(w: nat -> Work, k: nat) {
    forall m: nat :: k <= m ==> w(m) == w(k)
  }

  ghost predicate StaysOrFalls(w: nat -> Work, n: nat) {
    w(n + 1) == w(n) || Less(w(n + 1), w(n))
  }

  lemma {:induction false} FirstFall(w: nat -> Work, n: nat, m: nat) returns (k: nat)
    requires n <= m && w(m) != w(n) && forall i :: StaysOrFalls(w, i)
    ensures n <= k && w(k) == w(n) && Less(w(k + 1), w(n))
    decreases m - n
  {
    assert StaysOrFalls(w, n);
    if w(n + 1) == w(n) {
      k := FirstFall(w, n + 1, m);
    } else {
      k := n;
    }
  }

  /** A measure that never rises is constant in the end. */
  lemma {:induction false} Settles(w: nat -> Work, n: nat, v: Work)
    requires v == w(n) && forall i :: StaysOrFalls(w, i)
    ensures exists k: nat :: ConstantFrom(w, k)
    decreases v.front, v.basic, v.net.src, v.net.buffer, v.net.lanes, v.net.hashed, v.net.keyed, v.net.dumps,
              v.net.counts, v.joined, v.results
  {
    if m: nat :| n <= m && w(m) != w(n) {
      var k := FirstFall(w, n, m);
      Settles(w, k + 1, w(k + 1));
    } else {
      assert ConstantFrom(w, n);
    }
  }

  ghost predicate CalmAt<S(!new), A(!new)>(mv: (S, A) -> bool, st: nat -> S, acts: nat -> A, n: nat) {
    !mv(st(n), acts(n)) && Unmoved(mv, st(n), st(n + 1))
  }

  ghost predicate CalmFrom<S(!new), A(!new)>(mv: (S, A) -> bool, st: nat -> S, acts: nat -> A, k: nat) {
    forall n: nat :: k <= n ==> CalmAt(mv, st, acts, n)
  }

  lemma {:induction false} CalmInTheEnd<S(!new), A(!new)>(ok: (S, A, S) -> bool, work: S -> Work,
        mv: (S, A) -> bool, st: nat -> S, acts: nat -> A)
    requires Settling(ok, work, mv) && Steps(ok, st, acts)
    ensures exists k: nat :: CalmFrom(mv, st, acts, k)
  {
    var w := (n: nat) => work(st(n));
    forall n: nat
      ensures StaysOrFalls(w, n)
      ensures w(n + 1) == w(n) ==> CalmAt(mv, st, acts, n)
    {
      assert StepAt(ok, st, acts, n);
      assert LessOrCalm(work, mv, st(n), acts(n), st(n + 1));
      LessIsStrict(w(n));
    }
    Settles(w, 0, w(0));
    var k: nat :| ConstantFrom(w, k);
    forall n: nat | k <= n
      ensures CalmAt(mv, st, acts, n)
    {
      assert w(n) == w(k) && w(n + 1) == w(k);
    }
    assert CalmFrom(mv, st, acts, k);
  }

  // Fair runs.

  /** Someone acts for `a` at `n` or later. */
  ghost predicate ItsTurn<A(!new)>(same: (A, A) -> bool, acts: nat -> A, a: A, n: nat) {
    exists m: nat :: n <= m && same(acts(m), a)
  }

  /** Acting for one who can move is a move. */
  ghost predicate OnBehalf<S(!new), A(!new)>(ok: (S, A, S) -> bool, mv: (S, A) -> bool, same: (A, A) -> bool) {
    forall s, a, t, b {:trigger ok(s, a, t), same(a, b)} :: ok(s, a, t) && same(a, b) && mv(s, b) ==> mv(s, a)
  }

  lemma {:induction false} StillCanMove<S(!new), A(!new)>(mv: (S, A) -> bool, st: nat -> S, acts: nat -> A,
        k: nat, n: nat, m: nat, a: A)
    requires CalmFrom(mv, st, acts, k) && k <= n <= m
    ensures mv(st(n), a) <==> mv(st(m), a)
    decreases m - n
  {
    if n < m {
      StillCanMove(mv, st, acts, k, n, m - 1, a);
      assert CalmAt(mv, st, acts, m - 1);
    }
  }

  /** In a calm run nobody whose turn is still to come can move. */
  lemma {:induction false} NobodyMoves<S(!new), A(!new)>(ok: (S, A, S) -> bool, mv: (S, A) -> bool,
        same: (A, A) -> bool,
                                                         st: nat -> S, acts: nat -> A, k: nat, n: nat, a: A)
    requires Steps(ok, st, acts) && OnBehalf(ok, mv, same) && CalmFrom(mv, st, acts, k) && k <= n
    requires ItsTurn(same, acts, a, n)
    ensures !mv(st(n), a)
  {
    var m: nat :| n <= m && same(acts(m), a);
    StillCanMove(mv, st, acts, k, n, m, a);
    assert StepAt(ok, st, acts, m) && CalmAt(mv, st, acts, m);
  }

  // The kernel is such a system.

  /** One step without input, from any state that satisfies the invariant. */
  ghost predicate StepsTo(cfg: KernelConfig, s: State, a: Action, t: State) {
    Inv(cfg, s) && Enabled(cfg, a) && !a.Feed? && t == Next(cfg, s, a)
  }

  ghost predicate CanMove(cfg: KernelConfig, s: State, a: Action) {
    Inv(cfg, s) && (AllShapes(cfg, s); Moves(cfg, s, a))
  }

  /** The same stage; what its memory reads see may differ. */
  predicate SameStage(a: Action, b: Action) {
    a == b || (a.Inner? && b.Inner? && a.c.Count? && b.c.Count? && a.c.k == b.c.k && a.c.r == b.c.r && a.c.i == b.c.i)
  }

  ghost function Stepping(cfg: KernelConfig): (State, Action, State) -> bool {
    (s: State, a: Action, t: State) => StepsTo(cfg, s, a, t)
  }

  ghost function Moving(cfg: KernelConfig): (State, Action) -> bool {
    (s: State, a: Action) => CanMove(cfg, s, a)
  }

  function Working(): State -> Work {
    (s: State) => WorkOf(s)
  }

  function Staging(): (Action, Action) -> bool {
    (a: Action, b: Action) => SameStage(a, b)
  }

  lemma {:induction false} CalmStep(cfg: KernelConfig, s: State, a: Action, t: State, b: Action)
    requires StepsTo(cfg, s, a, t) && !CanMove(cfg, s, a)
    ensures CanMove(cfg, s, b) <==> CanMove(cfg, t, b)
  {
    NextInv(cfg, s, a);
    AllShapes(cfg, s);
    AllShapes(cfg, t);
    assert Alike(t, s) by {
      IdleNext(cfg, s, a);
    }
    MovesSame(cfg, t, s, b);
  }

  lemma {:induction false} CalmWork(cfg: KernelConfig, s: State, a: Action, t: State)
    requires StepsTo(cfg, s, a, t)
    ensures if CanMove(cfg, s, a) then Less(WorkOf(t), WorkOf(s)) else WorkOf(t) == WorkOf(s)
  {
    AllShapes(cfg, s);
    if Moves(cfg, s, a) {
      WorkDecreases(cfg, s, a);
    } else {
      WorkStays(cfg, s, a);
    }
  }

  lemma {:induction false} CalmUnmoved(cfg: KernelConfig, s: State, a: Action, t: State)
    requires StepsTo(cfg, s, a, t) && !CanMove(cfg, s, a)
    ensures Unmoved(Moving(cfg), s, t)
  {
    forall b
      ensures Moving(cfg)(s, b) <==> Moving(cfg)(t, b)
    {
      CalmStep(cfg, s, a, t, b);
    }
  }

  lemma {:induction false} KernelStep(cfg: KernelConfig, s: State, a: Action, t: State)
    requires StepsTo(cfg, s, a, t)
    ensures LessOrCalm(Working(), Moving(cfg), s, a, t)
  {
    CalmWork(cfg, s, a, t);
    if !CanMove(cfg, s, a) {
      CalmUnmoved(cfg, s, a, t);
    }
  }

  lemma {:induction false} KernelSettles(cfg: KernelConfig)
    ensures Settling(Stepping(cfg), Working(), Moving(cfg))
  {
    forall s, a, t | Stepping(cfg)(s, a, t)
      ensures LessOrCalm(Working(), Moving(cfg), s, a, t)
    {
      KernelStep(cfg, s, a, t);
    }
  }

  lemma {:induction false} KernelOnBehalf(cfg: KernelConfig)
    ensures OnBehalf(Stepping(cfg), Moving(cfg), Staging())
  {
    forall s, a, t, b {:trigger Stepping(cfg)(s, a, t), Staging()(a, b)}
      | Stepping(cfg)(s, a, t) && Staging()(a, b) && Moving(cfg)(s, b)
      ensures Moving(cfg)(s, a)
    {
      TurnMoves(cfg, s, a, b);
    }
  }

  lemma {:induction false} TurnMoves(cfg: KernelConfig, s: State, a: Action, b: Action)
    requires SameStage(a, b) && CanMove(cfg, s, b) && Enabled(cfg, a)
    ensures CanMove(cfg, s, a)
  {
    AllShapes(cfg, s);
  }

  // Its infinite runs.

  /** The states `st` and the actions `acts` between them are an infinite run without input. */
  ghost predicate Endless(cfg: KernelConfig, st: nat -> State, acts: nat -> Action) {
    Steps(Stepping(cfg), st, acts)
  }

  /** From `k` on no action moves data. */
  ghost predicate RestsFrom(cfg: KernelConfig, st: nat -> State, acts: nat -> Action, k: nat) {
    forall n: nat {:trigger acts(n)} :: k <= n ==> !CanMove(cfg, st(n), acts(n))
  }

  /** In every infinite run without input there is a point from which on no action moves data. */
  lemma {:induction false} ComesToRest(cfg: KernelConfig, st: nat -> State, acts: nat -> Action)
    requires Endless(cfg, st, acts)
    ensures exists k: nat :: RestsFrom(cfg, st, acts, k)
  {
    KernelSettles(cfg);
    CalmInTheEnd(Stepping(cfg), Working(), Moving(cfg), st, acts);
    var k: nat :| CalmFrom(Moving(cfg), st, acts, k);
    forall n: nat {:trigger acts(n)} | k <= n
      ensures !CanMove(cfg, st(n), acts(n))
    {
      assert CalmAt(Moving(cfg), st, acts, n);
    }
    assert RestsFrom(cfg, st, acts, k);
  }

  /** Every stage gets its turn again and again. */
  ghost predicate Fair(cfg: KernelConfig, acts: nat -> Action) {
    forall a, n: nat :: Enabled(cfg, a) && !a.Feed? ==> ItsTurn(Staging(), acts, a, n)
  }

  lemma {:induction false} CanMoveEnabled(cfg: KernelConfig, s: State, a: Action)
    requires CanMove(cfg, s, a)
    ensures Enabled(cfg, a) && !a.Feed?
  {
    AllShapes(cfg, s);
  }

  lemma {:induction false} NobodyIsIdle(cfg: KernelConfig, s: State)
    requires Inv(cfg, s) && forall a :: !CanMove(cfg, s, a)
    ensures Idle(cfg, s)
  {
    AllShapes(cfg, s);
    forall a
      ensures !Moves(cfg, s, a)
    {
      assert !CanMove(cfg, s, a);
    }
    StuckIsIdle(cfg, s);
  }

  ghost predicate IsIdle(cfg: KernelConfig, s: State) {
    Inv(cfg, s) && Idle(cfg, s)
  }

  lemma {:induction false} CalmIsIdle(cfg: KernelConfig, st: nat -> State, acts: nat -> Action, k: nat, n: nat)
    requires Endless(cfg, st, acts) && Fair(cfg, acts) && CalmFrom(Moving(cfg), st, acts, k) && k <= n
    ensures IsIdle(cfg, st(n))
  {
    KernelOnBehalf(cfg);
    forall a
      ensures !CanMove(cfg, st(n), a)
    {
      if CanMove(cfg, st(n), a) {
        CanMoveEnabled(cfg, st(n), a);
        assert ItsTurn(Staging(), acts, a, n);
        NobodyMoves(Stepping(cfg), Moving(cfg), Staging(), st, acts, k, n, a);
      }
    }
    assert StepAt(Stepping(cfg), st, acts, n);
    NobodyIsIdle(cfg, st(n));
  }

  ghost predicate IdleFrom(cfg: KernelConfig, st: nat -> State, k: nat) {
    forall n: nat :: k <= n ==> IsIdle(cfg, st(n))
  }

  /** A run without input in which every stage gets its turn again and again is idle from some point on. */
  lemma {:induction false} FairRunsFinish(cfg: KernelConfig, st: nat -> State, acts: nat -> Action)
    requires Endless(cfg, st, acts) && Fair(cfg, acts)
    ensures exists k: nat :: IdleFrom(cfg, st, k)
  {
    KernelSettles(cfg);
    CalmInTheEnd(Stepping(cfg), Working(), Moving(cfg), st, acts);
    var k: nat :| CalmFrom(Moving(cfg), st, acts, k);
    forall n: nat | k <= n
      ensures IsIdle(cfg, st(n))
    {
      CalmIsIdle(cfg, st, acts, k, n);
    }
    assert IdleFrom(cfg, st, k);
  }

  // Going on forever after a schedule.

  function Prefix(acts: nat -> Action, n: nat): (t: seq<Action>)
    ensures |t| == n
  {
    seq(n, i requires 0 <= i < n => acts(i))
  }

  /** Actions that are possible and bring no further input. */
  ghost predicate Steady(cfg: KernelConfig, acts: nat -> Action) {
    forall n: nat :: Enabled(cfg, acts(n)) && !acts(n).Feed?
  }

  lemma {:induction false} OnwardsLegal(cfg: KernelConfig, schedule: seq<Action>, acts: nat -> Action, n: nat)
    requires Legal(cfg, schedule) && Steady(cfg, acts)
    ensures Legal(cfg, schedule + Prefix(acts, n)) && NoFeed(Prefix(acts, n))
    ensures schedule + Prefix(acts, n + 1) == schedule + Prefix(acts, n) + [acts(n)]
  {
  }

  /** The state after the schedule and `n` of the actions. */
  ghost function Onwards(cfg: KernelConfig, schedule: seq<Action>, acts: nat -> Action): nat -> State
    requires KernelOk(cfg)
  {
    (n: nat) => if Legal(cfg, schedule + Prefix(acts, n)) then Run(cfg, schedule + Prefix(acts, n)) else Init(cfg)
  }

  lemma {:induction false} OnwardsStep(cfg: KernelConfig, p: seq<Action>, a: Action)
    requires KernelOk(cfg) && Legal(cfg, p) && Enabled(cfg, a) && !a.Feed?
    ensures Legal(cfg, p + [a]) && StepsTo(cfg, Run(cfg, p), a, Run(cfg, p + [a]))
  {
    OneMore(cfg, p, a);
  }

  lemma {:induction false} OnwardsEndless(cfg: KernelConfig, schedule: seq<Action>, acts: nat -> Action)
    requires KernelOk(cfg) && Legal(cfg, schedule) && Steady(cfg, acts)
    ensures Endless(cfg, Onwards(cfg, schedule, acts), acts)
  {
    forall n: nat
      ensures StepAt(Stepping(cfg), Onwards(cfg, schedule, acts), acts, n)
    {
      OnwardsLegal(cfg, schedule, acts, n);
      OnwardsStep(cfg, schedule + Prefix(acts, n), acts(n));
    }
  }

  /** After any schedule, going on fairly without further input ends in idle states. */
  lemma {:induction false} FairlyIdle(cfg: KernelConfig, schedule: seq<Action>, acts: nat -> Action)
    requires KernelOk(cfg) && Legal(cfg, schedule) && Steady(cfg, acts) && Fair(cfg, acts)
    ensures exists k: nat :: IdleFrom(cfg, Onwards(cfg, schedule, acts), k)
  {
    OnwardsEndless(cfg, schedule, acts);
    FairRunsFinish(cfg, Onwards(cfg, schedule, acts), acts);
  }
}
