/**
 A lexicographic measure of the work left in the kernel, which every action that moves
 data decreases. So whatever has happened, some continuation without further input ends in
 a state in which no stage can move. `Fairness` says it of every infinite run.
 */
module Liveness {
  import opened Streams
  import opened Monoids
  import opened Funnel
  import opened Collecting
  import opened Network
  import opened Joined
  import opened Compose
  import opened Kernel
  import opened KernelSafety
  import opened KernelResults

  // Work left within the network, sketch by sketch and row by row.

  function Left<T>(): Fifo<T> -> nat {
    (f: Fifo<T>) => |f.log| - f.rd
  }

  function HashedLeft(): Sketch -> nat {
    (sk: Sketch) => SumOver(Left(), sk.hashed)
  }

  function KeyedLeft(): Row -> nat {
    (row: Row) => SumOver(Left(), row.keyed)
  }

  function DumpLeft(): Unit -> nat {
    (u: Unit) => if u.dump && u.ptr < |u.mem.cells| then |u.mem.cells| - u.ptr else 0
  }

  function DumpsLeft(): Row -> nat {
    (row: Row) => SumOver(DumpLeft(), row.units)
  }

  function CountsLeft(): Row -> nat {
    (row: Row) => SumOver(Left(), row.counts)
  }

  function JoinedLeft(): Row -> nat {
    (row: Row) => |row.joined.log| - row.joined.rd
  }

  function OfSketch(g: Row -> nat): Sketch -> nat {
    (sk: Sketch) => SumOver(g, sk.rows)
  }

  function OverRows(g: Row -> nat, net: Net): nat {
    SumOver(OfSketch(g), net.sketches)
  }

  /** The measure of the network, upstream first. */
  datatype NetWork = NetWork(src: nat, buffer: nat, lanes: nat, hashed: nat, keyed: nat, dumps: nat, counts: nat)

  function NetWorkOf(net: Net): NetWork {
    NetWork(Left()(net.src), |net.q|, SumOver(Left(), net.lanes), SumOver(HashedLeft(), net.sketches),
            OverRows(KeyedLeft(), net), OverRows(DumpsLeft(), net), OverRows(CountsLeft(), net))
  }

  predicate NetLess(w: NetWork, v: NetWork) {
    w.src < v.src || (w.src == v.src && (
    w.buffer < v.buffer || (w.buffer == v.buffer && (
    w.lanes < v.lanes || (w.lanes == v.lanes && (
    w.hashed < v.hashed || (w.hashed == v.hashed && (
    w.keyed < v.keyed || (w.keyed == v.keyed && (
    w.dumps < v.dumps || (w.dumps == v.dumps &&
    w.counts < v.counts)))))))))))
  }

  /** What becomes less for one element and not more for the others becomes less in sum. */
  lemma {:induction false} SumOverLess<T>(f: T -> nat, s: seq<T>, t: seq<T>)
    requires |s| == |t| && forall i :: 0 <= i < |s| ==> f(t[i]) <= f(s[i])
    ensures SumOver(f, t) <= SumOver(f, s)
    ensures (exists i :: 0 <= i < |s| && f(t[i]) < f(s[i])) ==> SumOver(f, t) < SumOver(f, s)
    decreases |s|
  {
    if s != [] {
      var n := |s| - 1;
      SumOverLess(f, s[..n], t[..n]);
      if exists i :: 0 <= i < |s| && f(t[i]) < f(s[i]) {
        var i :| 0 <= i < |s| && f(t[i]) < f(s[i]);
        if i < n {
          assert f(t[..n][i]) < f(s[..n][i]);
        }
      }
    }
  }

  lemma {:induction false} RowSum(g: Row -> nat, net: Net, k: nat, r: nat, row: Row)
    requires k < |net.sketches| && r < |net.sketches[k].rows|
    ensures OverRows(g, UpdateRow(net, k, r, row)) + g(net.sketches[k].rows[r]) == OverRows(g, net) + g(row)
  {
    var sk := net.sketches[k];
    SumOverUpdate(g, sk.rows, r, row);
    SumOverUpdate(OfSketch(g), net.sketches, k, sk.(rows := sk.rows[r := row]));
  }

  lemma {:induction false} RowKeepsHashed(net: Net, k: nat, r: nat, row: Row)
    requires k < |net.sketches| && r < |net.sketches[k].rows|
    ensures SumOver(HashedLeft(), UpdateRow(net, k, r, row).sketches) == SumOver(HashedLeft(), net.sketches)
  {
    var sk := net.sketches[k];
    SumOverUpdate(HashedLeft(), net.sketches, k, sk.(rows := sk.rows[r := row]));
  }

  lemma {:induction false} DeliverLess(cfg: Config, net: Net)
    requires NetInv(cfg, net) && !FunnelIdle(cfg.N, cfg.K, net.q, net.src)
    ensures NetLess(NetWorkOf(NetStep(cfg, net, Deliver)), NetWorkOf(net))
  {
  }

  lemma {:induction false} DistributeLess(cfg: Config, net: Net)
    requires NetInv(cfg, net) && exists i :: 0 <= i < |net.lanes| && !net.lanes[i].Empty()
    ensures NetLess(NetWorkOf(NetStep(cfg, net, Distribute)), NetWorkOf(net))
  {
    var lanes := NetStep(cfg, net, Distribute).lanes;
    var i :| 0 <= i < |net.lanes| && !net.lanes[i].Empty();
    assert Left()(lanes[i]) < Left()(net.lanes[i]);
    SumOverLess(Left(), net.lanes, lanes);
  }

  lemma {:induction false} KeyLess(cfg: Config, net: Net, k: nat, i: nat)
    requires NetInv(cfg, net) && Possible(cfg, Key(k, i))
    requires SketchInv(cfg, cfg.sketches[k], net.sketches[k], net.lanes) && !net.sketches[k].hashed[i].Empty()
    ensures NetLess(NetWorkOf(NetStep(cfg, net, Key(k, i))), NetWorkOf(net))
  {
    var sk := net.sketches[k];
    SumOverUpdate(Left(), sk.hashed, i, sk.hashed[i].Read());
    SumOverUpdate(HashedLeft(), net.sketches, k, KeyStep(cfg.sketches[k], sk, i));
  }

  /** A row has less left to do in its keyed words, its dumps or its counts, in this order. */
  predicate RowLess(row': Row, row: Row) {
    KeyedLeft()(row') < KeyedLeft()(row) || (KeyedLeft()(row') == KeyedLeft()(row) && (
    DumpsLeft()(row') < DumpsLeft()(row) || (DumpsLeft()(row') == DumpsLeft()(row) &&
    CountsLeft()(row') < CountsLeft()(row))))
  }

  lemma {:induction false} RowLessNet(net: Net, k: nat, r: nat, row': Row)
    requires k < |net.sketches| && r < |net.sketches[k].rows| && RowLess(row', net.sketches[k].rows[r])
    ensures NetLess(NetWorkOf(UpdateRow(net, k, r, row')), NetWorkOf(net))
  {
    RowKeepsHashed(net, k, r, row');
    RowSum(KeyedLeft(), net, k, r, row');
    RowSum(DumpsLeft(), net, k, r, row');
    RowSum(CountsLeft(), net, k, r, row');
  }

  lemma {:induction false} CollectRowLess(spec: RowSpec, row: Row, i: nat, vis: Visibility)
    requires i < |row.keyed| == |row.units| == |row.counts|
    requires UnitOk(row.units[i], spec.M) && KeysBelow(row.keyed[i], spec.M)
    requires row.units[i].dump || !row.keyed[i].Empty()
    ensures RowLess(CollectStep(spec, row, i, vis), row)
  {
    var row' := CollectStep(spec, row, i, vis);
    SumOverUpdate(Left(), row.keyed, i, row'.keyed[i]);
    SumOverUpdate(DumpLeft(), row.units, i, row'.units[i]);
  }

  lemma {:induction false} CountLess(cfg: Config, net: Net, k: nat, r: nat, i: nat, vis: Visibility)
    requires NetInv(cfg, net) && Possible(cfg, Count(k, r, i, vis)) && r < |net.sketches[k].rows|
    requires RowInv(cfg.K, cfg.sketches[k][r], net.sketches[k].rows[r], net.sketches[k].hashed)
    requires net.sketches[k].rows[r].units[i].dump || !net.sketches[k].rows[r].keyed[i].Empty()
    ensures NetLess(NetWorkOf(NetStep(cfg, net, Count(k, r, i, vis))), NetWorkOf(net))
  {
    var spec, row := cfg.sketches[k][r], net.sketches[k].rows[r];
    RowCollectInv(cfg.K, spec, row, net.sketches[k].hashed, i, vis);
    assert LaneInv(spec, row.keyed[i], row.units[i], row.counts[i], net.sketches[k].hashed[i]);
    CollectRowLess(spec, row, i, vis);
    RowLessNet(net, k, r, CollectStep(spec, row, i, vis));
  }

  lemma {:induction false} ReduceRowLess(m: Monoid, row: Row)
    requires |row.counts| > 0 && AllReady(row.counts)
    ensures var (counts, joined) := ReduceStep(m, row.counts, row.joined);
            RowLess(row.(counts := counts, joined := joined), row)
  {
    var counts := ReduceStep(m, row.counts, row.joined).0;
    assert Left()(counts[0]) < Left()(row.counts[0]);
    SumOverLess(Left(), row.counts, counts);
  }

  lemma {:induction false} ReduceLess(cfg: Config, net: Net, k: nat, r: nat)
    requires NetInv(cfg, net) && Possible(cfg, Reduce(k, r)) && r < |net.sketches[k].rows|
    requires |net.sketches[k].rows[r].counts| == cfg.K && AllReady(net.sketches[k].rows[r].counts)
    ensures NetLess(NetWorkOf(NetStep(cfg, net, Reduce(k, r))), NetWorkOf(net))
  {
    var row, m := net.sketches[k].rows[r], cfg.sketches[k][r].m;
    ReduceRowLess(m, row);
    var (counts, joined) := ReduceStep(m, row.counts, row.joined);
    RowLessNet(net, k, r, row.(counts := counts, joined := joined));
  }

  /** Every step of the network that moves data decreases its work. */
  lemma {:induction false} NetStepLess(cfg: Config, net: Net, c: Choice)
    requires NetInv(cfg, net) && Possible(cfg, c)
    requires (Shaped(cfg, net); Productive(cfg, net, c))
    ensures NetLess(NetWorkOf(NetStep(cfg, net, c)), NetWorkOf(net))
  {
    match c {
      case Deliver => DeliverLess(cfg, net);
      case Distribute => DistributeLess(cfg, net);
      case Key(k, i) =>
        assert SketchInv(cfg, cfg.sketches[k], net.sketches[k], net.lanes);
        KeyLess(cfg, net, k, i);
      case Count(k, r, i, vis) =>
        RowHolds(cfg, net, k, r);
        CountLess(cfg, net, k, r, i, vis);
      case Reduce(k, r) =>
        RowHolds(cfg, net, k, r);
        ReduceLess(cfg, net, k, r);
    }
  }

  // Work left within the kernel.

  /** The measure of the kernel: the source, the basic metrics, the network, its results. */
  datatype Work = Work(front: nat, basic: nat, net: NetWork, joined: nat, results: nat)

  /** A flit costs the mapping one step, the accumulation another, and four more if it is dumped. */
  function BasicWork(s: State): nat {
    6 * Left()(s.flat0) + 5 * Left()(s.basicIn) + if s.basic.dump && s.basic.didx < 4 then 4 - s.basic.didx else 0
  }

  function ResultsLeft(i: Inputs): nat {
    SumOver(Left(), i.agms) + Left()(i.basic) + Left()(i.card) + Left()(i.cm)
  }

  function WorkOf(s: State): Work {
    Work(Left()(s.srcbuf), BasicWork(s), NetWorkOf(s.net), OverRows(JoinedLeft(), s.net), ResultsLeft(s.res))
  }

  predicate Less(w: Work, v: Work) {
    w.front < v.front || (w.front == v.front && (
    w.basic < v.basic || (w.basic == v.basic && (
    NetLess(w.net, v.net) || (w.net == v.net && (
    w.joined < v.joined || (w.joined == v.joined &&
    w.results < v.results)))))))
  }

  predicate NetShape(cfg: Config, net: Net) {
    && |net.sketches| == |cfg.sketches|
    && (forall k :: 0 <= k < |cfg.sketches| ==>
          |net.sketches[k].rows| == |cfg.sketches[k]| && |net.sketches[k].hashed| == cfg.K)
    && (forall k, r :: 0 <= k < |cfg.sketches| && 0 <= r < |cfg.sketches[k]| ==>
          var row := net.sketches[k].rows[r];
          |row.keyed| == |row.units| == |row.counts| == cfg.K)
  }

  /** The action moves data. */
  predicate Moves(cfg: KernelConfig, s: State, a: Action)
    requires HasShape(cfg, s) && NetShape(cfg.net, s.net)
  {
    Enabled(cfg, a) &&
    match a
    case Feed(_) => false
    case Split => !s.srcbuf.Empty()
    case MapBasic => !s.flat0.Empty()
    case StepBasic => s.basic.dump || !s.basicIn.Empty()
    case Inner(c) => Productive(cfg.net, s.net, c)
    case Estimate => !JoinedAt(s.net, HLL, 0).Empty()
    case FoldRow(r) => !JoinedAt(s.net, AGMS, r).Empty()
    case StepConcat => !JoinedAt(s.net, CM, s.idx).Empty()
    case StepCompose => Ready(s.comp, s.res)
  }

  lemma {:induction false} AllShapes(cfg: KernelConfig, s: State)
    requires Inv(cfg, s)
    ensures HasShape(cfg, s) && NetShape(cfg.net, s.net)
  {
    Shapes(cfg, s);
    Shaped(cfg.net, s.net);
  }

  /** Reading from a joined stream leaves the network's own work as it is. */
  lemma {:induction false} ReadJoined(net: Net, k: nat, r: nat)
    requires k < |net.sketches| && r < |net.sketches[k].rows| && !JoinedAt(net, k, r).Empty()
    ensures var net' := SetJoined(net, k, r, JoinedAt(net, k, r).Read());
            && NetWorkOf(net') == NetWorkOf(net)
            && OverRows(JoinedLeft(), net') < OverRows(JoinedLeft(), net)
  {
    var row := net.sketches[k].rows[r];
    var row' := row.(joined := row.joined.Read());
    RowKeepsHashed(net, k, r, row');
    RowSum(KeyedLeft(), net, k, r, row');
    RowSum(DumpsLeft(), net, k, r, row');
    RowSum(CountsLeft(), net, k, r, row');
    RowSum(JoinedLeft(), net, k, r, row');
  }

  lemma {:induction false} ComposeLess(comp: Composer, i: Inputs, dst: Fifo<Flit<int>>)
    requires comp.idx <= |i.agms| + 2 && Ready(comp, i)
    ensures ResultsLeft(ComposeStep(comp, i, dst).1) < ResultsLeft(i)
  {
    if comp.idx < |i.agms| {
      SumOverUpdate(Left(), i.agms, comp.idx, i.agms[comp.idx].Read());
    }
  }

  // The stages outside the network.

  lemma {:induction false} SplitLess(s: State)
    requires !s.srcbuf.Empty()
    ensures Less(WorkOf(SplitBufStep(s)), WorkOf(s))
  {
  }

  lemma {:induction false} BasicLess(cfg: KernelConfig, s: State)
    requires s.basic.didx < 4
    ensures !s.flat0.Empty() ==> Less(WorkOf(MapBasicStep(cfg.c, s)), WorkOf(s))
    ensures s.basic.dump || !s.basicIn.Empty() ==> Less(WorkOf(BasicKernelStep(cfg.net.N, s)), WorkOf(s))
  {
  }

  lemma {:induction false} EstimateLess(cfg: KernelConfig, s: State)
    requires HasShape(cfg, s) && !JoinedAt(s.net, HLL, 0).Empty()
    ensures Less(WorkOf(EstimateStep(cfg, s)), WorkOf(s))
  {
    ReadJoined(s.net, HLL, 0);
  }

  lemma {:induction false} FoldRowLess(cfg: KernelConfig, s: State, r: nat)
    requires HasShape(cfg, s) && r < |s.folds| && !JoinedAt(s.net, AGMS, r).Empty()
    ensures Less(WorkOf(FoldRowStep(s, r)), WorkOf(s))
  {
    ReadJoined(s.net, AGMS, r);
  }

  lemma {:induction false} ConcatLess(cfg: KernelConfig, s: State)
    requires HasShape(cfg, s) && !JoinedAt(s.net, CM, s.idx).Empty()
    ensures Less(WorkOf(ConcatKernelStep(s)), WorkOf(s))
  {
    ReadJoined(s.net, CM, s.idx);
  }

  lemma {:induction false} ComposeKernelLess(s: State)
    requires s.comp.idx <= |s.res.agms| + 2 && Ready(s.comp, s.res)
    ensures Less(WorkOf(ComposeKernelStep(s)), WorkOf(s))
  {
    ComposeLess(s.comp, s.res, s.dst);
  }

  lemma {:induction false} OuterLess(cfg: KernelConfig, s: State, a: Action)
    requires HasShape(cfg, s) && NetShape(cfg.net, s.net) && Moves(cfg, s, a) && !a.Inner?
    requires s.basic.didx < 4 && s.comp.idx <= |s.res.agms| + 2
    ensures Less(WorkOf(Outer(cfg, s, a)), WorkOf(s))
  {
    match a {
      case Split => SplitLess(s);
      case MapBasic => BasicLess(cfg, s);
      case StepBasic => BasicLess(cfg, s);
      case Estimate => EstimateLess(cfg, s);
      case FoldRow(r) => FoldRowLess(cfg, s, r);
      case StepConcat => ConcatLess(cfg, s);
      case StepCompose => ComposeKernelLess(s);
    }
  }

  lemma {:induction false} InnerLess(cfg: KernelConfig, s: State, c: Choice)
    requires NetInv(cfg.net, s.net) && NetShape(cfg.net, s.net) && Possible(cfg.net, c) && Productive(cfg.net, s.net, c)
    ensures Less(WorkOf(InnerStep(cfg, s, c)), WorkOf(s))
  {
    NetStepLess(cfg.net, s.net, c);
  }

  lemma {:induction false} Indices(cfg: KernelConfig, s: State)
    requires Inv(cfg, s)
    ensures s.basic.didx < 4 && s.comp.idx <= |s.res.agms| + 2
  {
  }

  /** Every action that moves data, whichever it is, decreases the work left. */
  lemma {:induction false} WorkDecreases(cfg: KernelConfig, s: State, a: Action)
    requires Inv(cfg, s)
    requires (AllShapes(cfg, s); Moves(cfg, s, a))
    ensures Less(WorkOf(Next(cfg, s, a)), WorkOf(s))
  {
    AllShapes(cfg, s);
    if a.Inner? {
      assert Next(cfg, s, a) == InnerStep(cfg, s, a.c);
      InnerLess(cfg, s, a.c);
    } else {
      Indices(cfg, s);
      assert Next(cfg, s, a) == Outer(cfg, s, a);
      OuterLess(cfg, s, a);
    }
  }

  // Idle states.

  ghost predicate Stuck(cfg: KernelConfig, s: State)
    requires HasShape(cfg, s) && NetShape(cfg.net, s.net)
  {
    forall a :: !Moves(cfg, s, a)
  }

  lemma {:induction false} StuckParts(cfg: KernelConfig, s: State)
    requires HasShape(cfg, s) && NetShape(cfg.net, s.net) && Stuck(cfg, s)
    ensures s.srcbuf.Empty() && s.flat0.Empty() && !s.basic.dump && s.basicIn.Empty()
    ensures forall c :: Possible(cfg.net, c) ==> !Productive(cfg.net, s.net, c)
    ensures JoinedAt(s.net, HLL, 0).Empty() && JoinedAt(s.net, CM, s.idx).Empty() && !Ready(s.comp, s.res)
    ensures forall r :: 0 <= r < |s.net.sketches[AGMS].rows| ==> JoinedAt(s.net, AGMS, r).Empty()
  {
    assert !Moves(cfg, s, Split) && !Moves(cfg, s, MapBasic) && !Moves(cfg, s, StepBasic);
    assert !Moves(cfg, s, Estimate) && !Moves(cfg, s, StepConcat) && !Moves(cfg, s, StepCompose);
    forall c | Possible(cfg.net, c)
      ensures !Productive(cfg.net, s.net, c)
    {
      assert !Moves(cfg, s, Inner(c));
    }
    forall r | 0 <= r < |s.net.sketches[AGMS].rows|
      ensures JoinedAt(s.net, AGMS, r).Empty()
    {
      assert !Moves(cfg, s, FoldRow(r));
    }
  }

  /** A state is idle if no action moves data. */
  lemma {:induction false} StuckIsIdle(cfg: KernelConfig, s: State)
    requires Inv(cfg, s)
    requires (AllShapes(cfg, s); Stuck(cfg, s))
    ensures Idle(cfg, s)
  {
    AllShapes(cfg, s);
    StuckParts(cfg, s);
  }

  // Every run can be finished.

  predicate NoFeed(schedule: seq<Action>) {
    forall i :: 0 <= i < |schedule| ==> !schedule[i].Feed?
  }

  lemma {:induction false} NothingFed(schedule: seq<Action>, rest: seq<Action>)
    requires NoFeed(rest)
    ensures Fed(schedule + rest) == Fed(schedule)
    decreases |rest|
  {
    if rest == [] {
      assert schedule + rest == schedule;
    } else {
      var n := |rest| - 1;
      NothingFed(schedule, rest[..n]);
      assert (schedule + rest)[..|schedule + rest| - 1] == schedule + rest[..n];
    }
  }

  /** Action `a` continues the schedule and leaves less work. */
  ghost predicate Advances(cfg: KernelConfig, schedule: seq<Action>, a: Action)
    requires KernelOk(cfg) && Legal(cfg, schedule)
  {
    !a.Feed? && Legal(cfg, schedule + [a]) && Less(WorkOf(Run(cfg, schedule + [a])), WorkOf(Run(cfg, schedule)))
  }

  /** Nothing is left to do after the schedule. */
  ghost predicate Done(cfg: KernelConfig, schedule: seq<Action>)
    requires KernelOk(cfg) && Legal(cfg, schedule)
  {
    forall a :: !Advances(cfg, schedule, a)
  }

  lemma {:induction false} DoneIsIdle(cfg: KernelConfig, schedule: seq<Action>)
    requires KernelOk(cfg) && Legal(cfg, schedule) && Done(cfg, schedule)
    ensures Idle(cfg, Run(cfg, schedule))
  {
    var s := Run(cfg, schedule);
    AllShapes(cfg, s);
    if !Stuck(cfg, s) {
      var a :| Moves(cfg, s, a);
      WorkDecreases(cfg, s, a);
      OneMore(cfg, schedule, a);
      assert Advances(cfg, schedule, a);
    }
    StuckIsIdle(cfg, s);
  }

  // Descent, for any steps that leave less work.

  ghost predicate Descends(good: seq<Action> -> bool, step: (seq<Action>, Action) -> bool, work: seq<Action> -> Work) {
    forall t, a {:trigger step(t, a)} :: good(t) && step(t, a) ==>
             good(t + [a]) && !a.Feed? && Less(work(t + [a]), work(t))
  }

  /** After `rest`, without further input, no step is left to do. */
  ghost predicate Rests(good: seq<Action> -> bool, step: (seq<Action>, Action) -> bool, t: seq<Action>,
        rest: seq<Action>) {
    NoFeed(rest) && good(t + rest) && forall a :: !step(t + rest, a)
  }

  lemma {:induction false} RestsLater(good: seq<Action> -> bool, step: (seq<Action>, Action) -> bool,
        t: seq<Action>, a: Action, rest: seq<Action>)
    requires !a.Feed? && Rests(good, step, t + [a], rest)
    ensures Rests(good, step, t, [a] + rest)
  {
    assert t + [a] + rest == t + ([a] + rest);
  }

  lemma {:induction false} Descend(good: seq<Action> -> bool, step: (seq<Action>, Action) -> bool,
        work: seq<Action> -> Work, t: seq<Action>, w: Work)
    requires Descends(good, step, work) && good(t) && w == work(t)
    ensures exists rest :: Rests(good, step, t, rest)
    decreases w.front, w.basic, w.net.src, w.net.buffer, w.net.lanes, w.net.hashed, w.net.keyed, w.net.dumps,
              w.net.counts, w.joined, w.results
  {
    if a :| step(t, a) {
      Descend(good, step, work, t + [a], work(t + [a]));
      var rest :| Rests(good, step, t + [a], rest);
      RestsLater(good, step, t, a, rest);
    } else {
      assert t + [] == t;
      assert Rests(good, step, t, []);
    }
  }

  // Every run can be finished.

  ghost function Playable(cfg: KernelConfig): seq<Action> -> bool {
    (t: seq<Action>) => KernelOk(cfg) && Legal(cfg, t)
  }

  ghost function Advancing(cfg: KernelConfig): (seq<Action>, Action) -> bool {
    (t: seq<Action>, a: Action) => KernelOk(cfg) && Legal(cfg, t) && Advances(cfg, t, a)
  }

  ghost function WorkAfter(cfg: KernelConfig): seq<Action> -> Work {
    (t: seq<Action>) =>
      if KernelOk(cfg) && Legal(cfg, t) then WorkOf(Run(cfg, t)) else Work(0, 0, NetWork(0, 0, 0, 0, 0, 0, 0), 0, 0)
  }

  lemma {:induction false} KernelDescends(cfg: KernelConfig)
    ensures Descends(Playable(cfg), Advancing(cfg), WorkAfter(cfg))
  {
  }

  /** Whatever has happened so far, there is a way on, without further input, to an idle state. */
  lemma {:induction false} CanFinish(cfg: KernelConfig, schedule: seq<Action>)
    requires KernelOk(cfg) && Legal(cfg, schedule)
    ensures exists rest :: NoFeed(rest) && Legal(cfg, schedule + rest) && Idle(cfg, Run(cfg, schedule + rest))
  {
    KernelDescends(cfg);
    Descend(Playable(cfg), Advancing(cfg), WorkAfter(cfg), schedule, WorkAfter(cfg)(schedule));
    var rest :| Rests(Playable(cfg), Advancing(cfg), schedule, rest);
    assert Playable(cfg)(schedule + rest);
    forall a
      ensures !Advances(cfg, schedule + rest, a)
    {
      assert !Advancing(cfg)(schedule + rest, a);
    }
    DoneIsIdle(cfg, schedule + rest);
  }
}
