/**
 The whole kernel as a network of stages that advance in any order.

 `KernelSafety.Run` plays an arbitrary schedule: source flits may arrive at any time, every stage may
 idle for any number of cycles, and each memory read may miss any of the writes still
 under way. `KernelCorrect` and `KernelComplete` hold for all of them. `Inv` is what every
 schedule keeps; `WellFramed`, that the output is cut into records, depends on `Paired`.
 */
module Kernel {
  import opened Streams
  import opened Lanes
  import opened Funnel
  import opened Collecting
  import opened Network
  import opened Results
  import opened Basic
  import opened Compose
  import opened Records
  import opened HllEstimation

  /** The network, the estimator's format, the flit sums' spare bits, and the conversion of the estimate. */
  datatype KernelConfig = KernelConfig(net: Config, P: nat, L: nat, c: nat, card: Estimator -> int)

  const HLL := 0
  const AGMS := 1
  const CM := 2

  function Cells(rows: seq<RowSpec>): nat {
    if rows == [] then 0 else Cells(rows[..|rows| - 1]) + rows[|rows| - 1].M
  }

  ghost predicate KernelOk(cfg: KernelConfig) {
    && ConfigOk(cfg.net)
    && |cfg.net.sketches| == 3
    && |cfg.net.sketches[HLL]| == 1
    && |cfg.net.sketches[CM]| > 0
  }

  /** The Count-Min cells of a job can be packed two by two. */
  ghost predicate Paired(cfg: KernelConfig)
    requires KernelOk(cfg)
  {
    Cells(cfg.net.sketches[CM]) % 2 == 0
  }

  function Same(): int -> int {
    (a: int) => a
  }

  datatype State = State(
    srcbuf: Fifo<Wide>,
    src_last: bool,
    flat0: Fifo<Wide>,                      // to the basic metrics; net.src is the other copy
    basicIn: Fifo<Flit<Summary>>,
    basic: BasicState,
    net: Net,
    est: Estimator,
    folds: seq<int>,
    idx: nat,                               // Concat
    comp: Composer,
    res: Inputs,                            // the result FIFOs in front of the composition
    dst: Fifo<Flit<int>>)

  datatype Action =
    | Feed(x: Wide)
    | Split
    | MapBasic
    | StepBasic
    | Inner(c: Choice)
    | Estimate
    | FoldRow(r: nat)
    | StepConcat
    | StepCompose

  predicate Enabled(cfg: KernelConfig, a: Action) {
    match a
    case Feed(x) => |x.val| == cfg.net.N
    case Inner(c) => Possible(cfg.net, c)
    case FoldRow(r) => |cfg.net.sketches| == 3 && r < |cfg.net.sketches[AGMS]|
    case _ => true
  }

  // Access to the joined streams.

  function JoinedAt(net: Net, k: nat, r: nat): Fifo<Flit<int>>
    requires k < |net.sketches| && r < |net.sketches[k].rows|
  {
    net.sketches[k].rows[r].joined
  }

  function JoinedRows(net: Net, k: nat): (s: seq<Fifo<Flit<int>>>)
    requires k < |net.sketches|
    ensures |s| == |net.sketches[k].rows|
  {
    seq(|net.sketches[k].rows|, r requires 0 <= r < |net.sketches[k].rows| => net.sketches[k].rows[r].joined)
  }

  function SetJoined(net: Net, k: nat, r: nat, f: Fifo<Flit<int>>): Net
    requires k < |net.sketches| && r < |net.sketches[k].rows|
  {
    UpdateRow(net, k, r, net.sketches[k].rows[r].(joined := f))
  }

  // The invariant.

  ghost predicate FrontInv(cfg: KernelConfig, s: State) {
    && WidthIs(cfg.net.N, s.srcbuf.log)
    && s.flat0.log == s.srcbuf.Consumed() == s.net.src.log
    && s.basicIn.log == MapFlit((w: seq<Word>) => SummaryOf(cfg.c, w), s.flat0.Consumed())
    && BasicInv(cfg.net.N, s.basic, s.basicIn.Consumed(), s.res.basic.log)
  }

  ghost predicate FoldsInv(net: Net, folds: seq<int>, agms: seq<Fifo<int>>) {
    && AGMS < |net.sketches|
    && |folds| == |agms| == |net.sketches[AGMS].rows|
    && forall r :: 0 <= r < |folds| ==>
         FoldInv(AddSquare(), 0, Same(), folds[r], JoinedAt(net, AGMS, r).Consumed(), agms[r].log)
  }

  ghost predicate ResultsInv(cfg: KernelConfig, s: State) {
    && |s.net.sketches| == 3 && |s.net.sketches[HLL].rows| == 1
    && FoldInv(Absorb(cfg.P, cfg.L), RESET, cfg.card, s.est, JoinedAt(s.net, HLL, 0).Consumed(), s.res.card.log)
    && FoldsInv(s.net, s.folds, s.res.agms)
    && ConcatInv(s.idx, JoinedRows(s.net, CM), s.res.cm.log)
  }

  ghost predicate Inv(cfg: KernelConfig, s: State) {
    && KernelOk(cfg)
    && NetInv(cfg.net, s.net)
    && FrontInv(cfg, s)
    && ResultsInv(cfg, s)
    && s.comp.idx <= |s.res.agms| + 2
  }

  /** The output consists of complete records and the beginning of the next one. */
  ghost predicate WellFramed(s: State) {
    ComposeInv(s.comp, s.res, s.dst.log)
  }

  // Steps.

  function SplitBufStep(s: State): State {
    if s.srcbuf.Empty() then s
    else
      var x := s.srcbuf.Peek();
      s.(srcbuf := s.srcbuf.Read(),
         src_last := x.last,
         res := s.res.(tick := if s.src_last then s.res.tick.Write(true) else s.res.tick),
         flat0 := s.flat0.Write(x),
         net := s.net.(src := s.net.src.Write(x)))
  }

  function MapBasicStep(c: nat, s: State): State {
    if s.flat0.Empty() then s
    else
      var x := s.flat0.Peek();
      s.(flat0 := s.flat0.Read(), basicIn := s.basicIn.Write(Flit(x.last, SummaryOf(c, x.val))))
  }

  function BasicKernelStep(N: nat, s: State): State {
    var (b, i, o) := BasicStep(N, s.basic, s.basicIn, s.res.basic);
    s.(basic := b, basicIn := i, res := s.res.(basic := o))
  }

  function EstimateStep(cfg: KernelConfig, s: State): State
    requires |s.net.sketches| == 3 && |s.net.sketches[HLL].rows| == 1
  {
    var (e, i, o) := FoldStep(Absorb(cfg.P, cfg.L), RESET, cfg.card, s.est, JoinedAt(s.net, HLL, 0), s.res.card);
    s.(est := e, net := SetJoined(s.net, HLL, 0, i), res := s.res.(card := o))
  }

  function FoldRowStep(s: State, r: nat): State
    requires |s.net.sketches| == 3 && r < |s.folds| == |s.res.agms| == |s.net.sketches[AGMS].rows|
  {
    var (f, i, o) := FoldStep(AddSquare(), 0, Same(), s.folds[r], JoinedAt(s.net, AGMS, r), s.res.agms[r]);
    s.(folds := s.folds[r := f], net := SetJoined(s.net, AGMS, r, i), res := s.res.(agms := s.res.agms[r := o]))
  }

  function ConcatKernelStep(s: State): State
    requires |s.net.sketches| == 3 && s.idx < |s.net.sketches[CM].rows|
  {
    var (idx, srcs, o) := ConcatStep(s.idx, JoinedRows(s.net, CM), s.res.cm);
    s.(idx := idx, net := SetJoined(s.net, CM, s.idx, srcs[s.idx]), res := s.res.(cm := o))
  }

  function ComposeKernelStep(s: State): State {
    var (c, i, o) := ComposeStep(s.comp, s.res, s.dst);
    s.(comp := c, res := i, dst := o)
  }

  predicate HasShape(cfg: KernelConfig, s: State) {
    && |s.net.sketches| == |cfg.net.sketches| == 3 && |s.net.sketches[HLL].rows| == 1
    && |s.folds| == |s.res.agms| == |s.net.sketches[AGMS].rows| == |cfg.net.sketches[AGMS]|
    && s.idx < |s.net.sketches[CM].rows| == |cfg.net.sketches[CM]|
  }

  lemma {:induction false} Shapes(cfg: KernelConfig, s: State)
    requires Inv(cfg, s)
    ensures HasShape(cfg, s)
  {
    assert SketchInv(cfg.net, cfg.net.sketches[AGMS], s.net.sketches[AGMS], s.net.lanes);
    assert SketchInv(cfg.net, cfg.net.sketches[CM], s.net.sketches[CM], s.net.lanes);
  }

  /** The actions outside the network. */
  function Outer(cfg: KernelConfig, s: State, a: Action): (s': State)
    requires HasShape(cfg, s) && Enabled(cfg, a) && !a.Inner?
    ensures s'.srcbuf.log == s.srcbuf.log + if a.Feed? then [a.x] else []
  {
    match a
    case Feed(x) => s.(srcbuf := s.srcbuf.Write(x))
    case Split => SplitBufStep(s)
    case MapBasic => MapBasicStep(cfg.c, s)
    case StepBasic => BasicKernelStep(cfg.net.N, s)
    case Estimate => EstimateStep(cfg, s)
    case FoldRow(r) => FoldRowStep(s, r)
    case StepConcat => ConcatKernelStep(s)
    case StepCompose => ComposeKernelStep(s)
  }

  function InnerStep(cfg: KernelConfig, s: State, c: Choice): (s': State)
    requires NetInv(cfg.net, s.net) && Possible(cfg.net, c)
    ensures s'.srcbuf == s.srcbuf
  {
    s.(net := NetStep(cfg.net, s.net, c))
  }

  function Next(cfg: KernelConfig, s: State, a: Action): State
    requires Inv(cfg, s) && Enabled(cfg, a)
  {
    if a.Inner? then
        InnerStep(cfg, s, a.c)
    else
      Shapes(cfg, s);
      Outer(cfg, s, a)
  }

  function Init(cfg: KernelConfig): State
    requires KernelOk(cfg)
  {
    var K := cfg.net.K;
    State(Queue([], 0), true, Queue([], 0), Queue([], 0), BasicState(CLEAR, false, 0),
          Net(Queue([], 0), [], seq(K, _ => Queue([], 0)),
              seq(3, k requires 0 <= k < 3 =>
                Sketch(seq(K, _ => Queue([], 0)),
                       seq(|cfg.net.sketches[k]|, r requires 0 <= r < |cfg.net.sketches[k]| =>
                         InitRow(K, cfg.net.sketches[k][r].M))))),
          RESET, seq(|cfg.net.sketches[AGMS]|, _ => 0), 0, Composer(0, None, 0, []),
          Inputs(Queue([], 0), seq(|cfg.net.sketches[AGMS]|, _ => Queue([], 0)),
                 Queue([], 0), Queue([], 0), Queue([], 0)),
          Queue([], 0))
  }

  function InitUnit(M: nat): Unit {
    Unit(false, 0, Memory(seq(M, _ => 0), Write(0, 0), Write(0, 0), Write(0, 0)), Write(0, 0), Write(0, 0), Write(0, 0))
  }

  function InitRow(K: nat, M: nat): Row {
    Row(seq(K, _ => Queue([], 0)), seq(K, _ => InitUnit(M)), seq(K, _ => Queue([], 0)), Queue([], 0))
  }
}
