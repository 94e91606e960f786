/**
 The sketching network: funnel, hash distribution, K collectors per sketch row and the
 reduction of their dumps, connected by FIFOs and advanced in any order.

 `NetInv` holds under every step of every stage. From it follows `JoinedIsSketch`: what a
 row's reduction emits for a job is the sequential sketch of exactly that job.
 */
module Network {
  import opened Streams
  import opened Monoids
  import opened Lanes
  import opened Funnel
  import opened Collecting

  /** One row of a sketch: key and increment are read off the hash. */
  datatype RowSpec = RowSpec(M: nat, m: Monoid, kv: nat -> KV, g: nat -> int)

  /** Flit width, lane count, hash function and the rows of every sketch. */
  datatype Config = Config(N: nat, K: nat, hash: Word -> nat, sketches: seq<seq<RowSpec>>)

  ghost predicate RowSpecOk(r: RowSpec) {
    r.M > 0 && GoodIncrement(r.m, r.g) && forall h: nat :: r.kv(h).key < r.M
  }

  ghost predicate ConfigOk(cfg: Config) {
    && 0 < cfg.K <= cfg.N
    && forall k, r :: 0 <= k < |cfg.sketches| && 0 <= r < |cfg.sketches[k]| ==> RowSpecOk(cfg.sketches[k][r])
  }

  // The sequential sketch.

  function Contribution(hash: Word -> nat, spec: RowSpec, key: nat): Word -> int {
    (w: Word) => if spec.kv(hash(w)).key == key then spec.g(spec.kv(hash(w)).inc) else 0
  }

  /** The value of cell `key` after sketching `words` one by one, starting from 0. */
  function Cell(hash: Word -> nat, spec: RowSpec, words: seq<Word>, key: nat): int {
    Sum(spec.m, Contribution(hash, spec, key), words)
  }

  lemma {:induction false} WordContributionInDom(hash: Word -> nat, spec: RowSpec, key: nat)
    requires RowSpecOk(spec)
    ensures InDom(spec.m, Contribution(hash, spec, key))
  {
    forall w: Word
      ensures spec.m.dom(Contribution(hash, spec, key)(w))
    {
      assert spec.m.dom(spec.g(spec.kv(hash(w)).inc));
    }
  }

  // The network.

  datatype Row = Row(keyed: seq<Fifo<Flit<KV>>>, units: seq<Unit>, counts: seq<Fifo<Flit<int>>>,
           joined: Fifo<Flit<int>>)

  datatype Sketch = Sketch(hashed: seq<Fifo<Flit<nat>>>, rows: seq<Row>)

  datatype Net = Net(src: Fifo<Wide>, q: seq<Item>, lanes: seq<Fifo<Item>>, sketches: seq<Sketch>)

  /** Fold the flits of all lanes; the last lane determines the flag. */
  function ReduceFold(m: Monoid, xs: seq<Flit<int>>): Flit<int> {
    if xs == [] then Flit(false, 0)
    else
      var x := xs[|xs| - 1];
      Flit(x.last, m.op(ReduceFold(m, xs[..|xs| - 1]).val, x.val))
  }

  /** The `t`-th flit of every lane. */
  function Column(counts: seq<Fifo<Flit<int>>>, t: nat): (r: seq<Flit<int>>)
    requires forall i :: 0 <= i < |counts| ==> t < |counts[i].log|
    ensures |r| == |counts|
  {
    seq(|counts|, i requires 0 <= i < |counts| => counts[i].log[t])
  }

  ghost predicate LaneInv(spec: RowSpec, keyed: Fifo<Flit<KV>>, u: Unit, counts: Fifo<Flit<int>>,
        hashed: Fifo<Flit<nat>>) {
    && UnitOk(u, spec.M)
    && keyed.log == MapFlit(spec.kv, hashed.Consumed())
    && CollectInv(spec.m, spec.g, Abstract(u), keyed.Consumed(), counts.log)
  }

  ghost predicate JoinInv(spec: RowSpec, counts: seq<Fifo<Flit<int>>>, joined: seq<Flit<int>>) {
    && (forall i :: 0 <= i < |counts| ==> counts[i].rd == |joined|)
    && (forall t :: 0 <= t < |joined| ==> joined[t] == ReduceFold(spec.m, Column(counts, t)))
  }

  ghost predicate RowInv(K: nat, spec: RowSpec, row: Row, hashed: seq<Fifo<Flit<nat>>>) {
    && |row.keyed| == |row.units| == |row.counts| == |hashed| == K
    && (forall i :: 0 <= i < K ==> LaneInv(spec, row.keyed[i], row.units[i], row.counts[i], hashed[i]))
    && JoinInv(spec, row.counts, row.joined.log)
  }

  ghost predicate SketchInv(cfg: Config, specs: seq<RowSpec>, sk: Sketch, lanes: seq<Fifo<Item>>) {
    && |sk.hashed| == |lanes| == cfg.K && |sk.rows| == |specs|
    && (forall i :: 0 <= i < cfg.K ==> sk.hashed[i].log == MapFlit(cfg.hash, lanes[i].Consumed()))
    && (forall r :: 0 <= r < |specs| ==> RowInv(cfg.K, specs[r], sk.rows[r], sk.hashed))
  }

  ghost predicate NetInv(cfg: Config, net: Net) {
    && ConfigOk(cfg) && WidthIs(cfg.N, net.src.log)
    && FunnelInv(cfg.N, cfg.K, net.src.Consumed(), net.q, net.lanes)
    && |net.sketches| == |cfg.sketches|
    && forall k :: 0 <= k < |net.sketches| ==> SketchInv(cfg, cfg.sketches[k], net.sketches[k], net.lanes)
  }

  // The stages.

  /** `distribute`: every lane that has an item sends its hash to all sketches. */
  function HashLane(hash: Word -> nat, lane: Fifo<Item>, hashed: Fifo<Flit<nat>>): Fifo<Flit<nat>> {
    if lane.Empty() then hashed else hashed.Write(Flit(lane.Peek().last, hash(lane.Peek().val)))
  }

  function Advance<T>(f: Fifo<T>): Fifo<T> {
    if f.Empty() then f else f.Read()
  }

  function DistributeSketch(cfg: Config, sk: Sketch, lanes: seq<Fifo<Item>>): Sketch
    requires |sk.hashed| == |lanes|
  {
    sk.(hashed := seq(|lanes|, i requires 0 <= i < |lanes| => HashLane(cfg.hash, lanes[i], sk.hashed[i])))
  }

  function DistributeStep(cfg: Config, net: Net): Net
    requires forall k :: 0 <= k < |net.sketches| ==> |net.sketches[k].hashed| == |net.lanes|
  {
    net.(lanes := seq(|net.lanes|, i requires 0 <= i < |net.lanes| => Advance(net.lanes[i])),
         sketches := seq(|net.sketches|, k requires 0 <= k < |net.sketches| =>
           DistributeSketch(cfg, net.sketches[k], net.lanes)))
  }

  /** `split` (or `map` for a single row): one hash of lane `i` becomes a key for every row. */
  function KeyRow(spec: RowSpec, row: Row, i: nat, x: Flit<nat>): Row
    requires i < |row.keyed|
  {
    row.(keyed := row.keyed[i := row.keyed[i].Write(Flit(x.last, spec.kv(x.val)))])
  }

  function KeyStep(specs: seq<RowSpec>, sk: Sketch, i: nat): Sketch
    requires i < |sk.hashed| && |sk.rows| == |specs|
    requires forall r :: 0 <= r < |specs| ==> i < |sk.rows[r].keyed|
  {
    if sk.hashed[i].Empty() then sk
    else
      Sketch(sk.hashed[i := sk.hashed[i].Read()],
             seq(|specs|, r requires 0 <= r < |specs| => KeyRow(specs[r], sk.rows[r], i, sk.hashed[i].Peek())))
  }

  function CollectStep(spec: RowSpec, row: Row, i: nat, vis: Visibility): Row
    requires i < |row.keyed| == |row.units| == |row.counts|
    requires UnitOk(row.units[i], spec.M) && KeysBelow(row.keyed[i], spec.M)
  {
    var (u, src, dst) := UnitStep(spec.m, spec.g, row.units[i], row.keyed[i], row.counts[i], vis);
    row.(keyed := row.keyed[i := src], units := row.units[i := u], counts := row.counts[i := dst])
  }

  predicate AllReady(counts: seq<Fifo<Flit<int>>>) {
    forall i :: 0 <= i < |counts| ==> !counts[i].Empty()
  }

  function Heads(counts: seq<Fifo<Flit<int>>>): (r: seq<Flit<int>>)
    requires AllReady(counts)
    ensures |r| == |counts|
  {
    seq(|counts|, i requires 0 <= i < |counts| => counts[i].Peek())
  }

  function ReduceStep(m: Monoid, counts: seq<Fifo<Flit<int>>>,
        joined: Fifo<Flit<int>>): (r: (seq<Fifo<Flit<int>>>, Fifo<Flit<int>>))
    ensures |r.0| == |counts|
  {
    if AllReady(counts) then
      (seq(|counts|, i requires 0 <= i < |counts| => counts[i].Read()), joined.Write(ReduceFold(m, Heads(counts))))
    else
      (counts, joined)
  }

  // Every stage keeps the invariant.

  lemma {:induction false} KeyedBelow(spec: RowSpec, keyed: Fifo<Flit<KV>>, hashed: seq<Flit<nat>>)
    requires RowSpecOk(spec) && keyed.log == MapFlit(spec.kv, hashed)
    ensures KeysBelow(keyed, spec.M)
  {
    forall i | 0 <= i < |keyed.log|
      ensures keyed.log[i].val.key < spec.M
    {
      assert spec.kv(hashed[i].val).key < spec.M;
    }
  }

  lemma {:induction false} LaneCollect(spec: RowSpec, keyed: Fifo<Flit<KV>>, u: Unit, counts: Fifo<Flit<int>>,
        hashed: Fifo<Flit<nat>>, vis: Visibility)
    requires RowSpecOk(spec) && LaneInv(spec, keyed, u, counts, hashed)
    ensures KeysBelow(keyed, spec.M)
    ensures var (u', src, dst) := UnitStep(spec.m, spec.g, u, keyed, counts, vis);
            LaneInv(spec, src, u', dst, hashed) && counts.log <= dst.log && counts.rd == dst.rd
  {
    KeyedBelow(spec, keyed, hashed.Consumed());
    UnitRefinesIdeal(spec.m, spec.g, u, keyed, counts, vis);
    CollectStepInv(spec.m, spec.g, Abstract(u), keyed, counts);
  }

  /** Columns already joined are not affected by further counts. */
  lemma {:induction false} JoinGrows(spec: RowSpec, counts: seq<Fifo<Flit<int>>>, counts': seq<Fifo<Flit<int>>>,
        joined: seq<Flit<int>>)
    requires JoinInv(spec, counts, joined) && |counts| == |counts'|
    requires forall i :: 0 <= i < |counts| ==> counts[i].log <= counts'[i].log && counts[i].rd == counts'[i].rd
    ensures JoinInv(spec, counts', joined)
  {
    forall t | 0 <= t < |joined|
      ensures joined[t] == ReduceFold(spec.m, Column(counts', t))
    {
      assert Column(counts', t) == Column(counts, t);
    }
  }

  lemma {:induction false} RowCollectInv(K: nat, spec: RowSpec, row: Row, hashed: seq<Fifo<Flit<nat>>>, i: nat,
        vis: Visibility)
    requires RowSpecOk(spec) && RowInv(K, spec, row, hashed) && i < K
    ensures KeysBelow(row.keyed[i], spec.M)
    ensures RowInv(K, spec, CollectStep(spec, row, i, vis), hashed)
    ensures CollectStep(spec, row, i, vis).joined == row.joined
  {
    assert LaneInv(spec, row.keyed[i], row.units[i], row.counts[i], hashed[i]);
    LaneCollect(spec, row.keyed[i], row.units[i], row.counts[i], hashed[i], vis);
    JoinGrows(spec, row.counts, CollectStep(spec, row, i, vis).counts, row.joined.log);
  }

  lemma {:induction false} RowReduceInv(K: nat, spec: RowSpec, row: Row, hashed: seq<Fifo<Flit<nat>>>)
    requires RowInv(K, spec, row, hashed)
    ensures var (counts, joined) := ReduceStep(spec.m, row.counts, row.joined);
            RowInv(K, spec, row.(counts := counts, joined := joined), hashed)
  {
    if AllReady(row.counts) {
      var (counts, joined) := ReduceStep(spec.m, row.counts, row.joined);
      JoinReduced(spec, row.counts, row.joined);
      forall i | 0 <= i < K
        ensures LaneInv(spec, row.keyed[i], row.units[i], counts[i], hashed[i])
      {
        assert counts[i].log == row.counts[i].log;
      }
    }
  }

  lemma {:induction false} JoinReduced(spec: RowSpec, counts: seq<Fifo<Flit<int>>>, joined: Fifo<Flit<int>>)
    requires JoinInv(spec, counts, joined.log) && AllReady(counts)
    ensures var (counts', joined') := ReduceStep(spec.m, counts, joined); JoinInv(spec, counts', joined'.log)
  {
    var (counts', joined') := ReduceStep(spec.m, counts, joined);
    forall t | 0 <= t < |joined'.log|
      ensures joined'.log[t] == ReduceFold(spec.m, Column(counts', t))
    {
      if t < |joined.log| {
        assert Column(counts', t) == Column(counts, t);
      } else {
        assert Column(counts', t) == Heads(counts);
      }
    }
  }

  lemma {:induction false} RowKeyInv(K: nat, spec: RowSpec, row: Row, hashed: seq<Fifo<Flit<nat>>>, i: nat)
    requires RowInv(K, spec, row, hashed) && i < K && !hashed[i].Empty()
    ensures RowInv(K, spec, KeyRow(spec, row, i, hashed[i].Peek()), hashed[i := hashed[i].Read()])
  {
    MapFlitSnoc(spec.kv, hashed[i].Consumed(), hashed[i].Peek());
    assert LaneInv(spec, row.keyed[i], row.units[i], row.counts[i], hashed[i]);
  }

  /** Hashes written to a FIFO do not disturb the rows that read from it. */
  lemma {:induction false} RowHashInv(K: nat, spec: RowSpec, row: Row, hashed: seq<Fifo<Flit<nat>>>,
        hashed': seq<Fifo<Flit<nat>>>)
    requires RowInv(K, spec, row, hashed) && |hashed'| == K
    requires forall i :: 0 <= i < K ==> hashed'[i].Consumed() == hashed[i].Consumed()
    ensures RowInv(K, spec, row, hashed')
  {
    forall i | 0 <= i < K
      ensures LaneInv(spec, row.keyed[i], row.units[i], row.counts[i], hashed'[i])
    {
      assert LaneInv(spec, row.keyed[i], row.units[i], row.counts[i], hashed[i]);
    }
  }

  lemma {:induction false} SketchDistributeInv(cfg: Config, specs: seq<RowSpec>, sk: Sketch, lanes: seq<Fifo<Item>>)
    requires SketchInv(cfg, specs, sk, lanes)
    ensures SketchInv(cfg, specs, DistributeSketch(cfg, sk, lanes),
                      seq(|lanes|, i requires 0 <= i < |lanes| => Advance(lanes[i])))
  {
    var sk' := DistributeSketch(cfg, sk, lanes);
    forall i | 0 <= i < cfg.K
      ensures sk'.hashed[i].log == MapFlit(cfg.hash, Advance(lanes[i]).Consumed())
    {
      if !lanes[i].Empty() {
        MapFlitSnoc(cfg.hash, lanes[i].Consumed(), lanes[i].Peek());
      }
    }
    forall r | 0 <= r < |specs|
      ensures RowInv(cfg.K, specs[r], sk'.rows[r], sk'.hashed)
    {
      RowHashInv(cfg.K, specs[r], sk.rows[r], sk.hashed, sk'.hashed);
    }
  }

  /** Items written to the lanes do not disturb the sketches that read from them. */
  lemma {:induction false} SketchLanesInv(cfg: Config, specs: seq<RowSpec>, sk: Sketch, lanes: seq<Fifo<Item>>,
        lanes': seq<Fifo<Item>>)
    requires SketchInv(cfg, specs, sk, lanes) && |lanes'| == |lanes|
    requires forall i :: 0 <= i < |lanes| ==> lanes'[i].Consumed() == lanes[i].Consumed()
    ensures SketchInv(cfg, specs, sk, lanes')
  {
  }

  lemma {:induction false} FunnelOnlyWrites(N: nat, q: seq<Item>, src: Fifo<Wide>, lanes: seq<Fifo<Item>>)
    ensures var (q', src', lanes') := FunnelStep(N, q, src, lanes);
            && src'.log == src.log
            && |lanes'| == |lanes|
            && forall i :: 0 <= i < |lanes| ==> lanes'[i].Consumed() == lanes[i].Consumed()
  {
  }

  lemma {:induction false} SketchKeyInv(cfg: Config, specs: seq<RowSpec>, sk: Sketch, lanes: seq<Fifo<Item>>, i: nat)
    requires SketchInv(cfg, specs, sk, lanes) && i < cfg.K
    ensures SketchInv(cfg, specs, KeyStep(specs, sk, i), lanes)
  {
    if !sk.hashed[i].Empty() {
      forall r | 0 <= r < |specs|
        ensures RowInv(cfg.K, specs[r], KeyStep(specs, sk, i).rows[r], KeyStep(specs, sk, i).hashed)
      {
        RowKeyInv(cfg.K, specs[r], sk.rows[r], sk.hashed, i);
      }
    }
  }

  // The network as a whole.

  datatype Choice =
    | Deliver                                             // the funnel
    | Distribute
    | Key(k: nat, i: nat)                                 // sketch, lane
    | Count(k: nat, r: nat, i: nat, vis: Visibility)      // sketch, row, lane
    | Reduce(k: nat, r: nat)                              // sketch, row

  predicate Possible(cfg: Config, c: Choice) {
    match c
    case Deliver => true
    case Distribute => true
    case Key(k, i) => k < |cfg.sketches| && i < cfg.K
    case Count(k, r, i, _) => k < |cfg.sketches| && r < |cfg.sketches[k]| && i < cfg.K
    case Reduce(k, r) => k < |cfg.sketches| && r < |cfg.sketches[k]|
  }

  function UpdateRow(net: Net, k: nat, r: nat, row: Row): Net
    requires k < |net.sketches| && r < |net.sketches[k].rows|
  {
    net.(sketches := net.sketches[k := net.sketches[k].(rows := net.sketches[k].rows[r := row])])
  }

  function NetStep(cfg: Config, net: Net, c: Choice): Net
    requires NetInv(cfg, net) && Possible(cfg, c)
  {
    match c
    case Deliver =>
      var (q, src, lanes) := FunnelStep(cfg.N, net.q, net.src, net.lanes);
      net.(q := q, src := src, lanes := lanes)
    case Distribute =>
      DistributeStep(cfg, net)
    case Key(k, i) =>
      net.(sketches := net.sketches[k := KeyStep(cfg.sketches[k], net.sketches[k], i)])
    case Count(k, r, i, vis) =>
      var row := net.sketches[k].rows[r];
      assert RowInv(cfg.K, cfg.sketches[k][r], row, net.sketches[k].hashed);
      RowCollectInv(cfg.K, cfg.sketches[k][r], row, net.sketches[k].hashed, i, vis);
      UpdateRow(net, k, r, CollectStep(cfg.sketches[k][r], row, i, vis))
    case Reduce(k, r) =>
      var row := net.sketches[k].rows[r];
      var (counts, joined) := ReduceStep(cfg.sketches[k][r].m, row.counts, row.joined);
      UpdateRow(net, k, r, row.(counts := counts, joined := joined))
  }

  lemma {:induction false} UpdateRowInv(cfg: Config, net: Net, k: nat, r: nat, row: Row)
    requires NetInv(cfg, net) && k < |cfg.sketches| && r < |cfg.sketches[k]|
    requires RowInv(cfg.K, cfg.sketches[k][r], row, net.sketches[k].hashed)
    ensures NetInv(cfg, UpdateRow(net, k, r, row))
  {
  }

  lemma {:induction false} DeliverInv(cfg: Config, net: Net)
    requires NetInv(cfg, net)
    ensures NetInv(cfg, NetStep(cfg, net, Deliver))
  {
    FunnelStepInv(cfg.N, cfg.K, net.q, net.src, net.lanes);
    FunnelOnlyWrites(cfg.N, net.q, net.src, net.lanes);
    var net' := NetStep(cfg, net, Deliver);
    forall k | 0 <= k < |net.sketches|
      ensures SketchInv(cfg, cfg.sketches[k], net'.sketches[k], net'.lanes)
    {
      SketchLanesInv(cfg, cfg.sketches[k], net.sketches[k], net.lanes, net'.lanes);
    }
  }

  lemma {:induction false} DistributeInv(cfg: Config, net: Net)
    requires NetInv(cfg, net)
    ensures NetInv(cfg, NetStep(cfg, net, Distribute))
  {
    var net' := NetStep(cfg, net, Distribute);
    forall k | 0 <= k < |net.sketches|
      ensures SketchInv(cfg, cfg.sketches[k], net'.sketches[k], net'.lanes)
    {
      SketchDistributeInv(cfg, cfg.sketches[k], net.sketches[k], net.lanes);
    }
    assert Logs(net'.lanes) == Logs(net.lanes);
  }

  lemma {:induction false} NetStepInv(cfg: Config, net: Net, c: Choice)
    requires NetInv(cfg, net) && Possible(cfg, c)
    ensures NetInv(cfg, NetStep(cfg, net, c))
  {
    match c
    case Deliver =>
      DeliverInv(cfg, net);
    case Distribute =>
      DistributeInv(cfg, net);
    case Key(k, i) =>
      SketchKeyInv(cfg, cfg.sketches[k], net.sketches[k], net.lanes, i);
    case Count(k, r, i, vis) =>
      var spec, row := cfg.sketches[k][r], net.sketches[k].rows[r];
      RowCollectInv(cfg.K, spec, row, net.sketches[k].hashed, i, vis);
      UpdateRowInv(cfg, net, k, r, CollectStep(spec, row, i, vis));
    case Reduce(k, r) =>
      var spec, row := cfg.sketches[k][r], net.sketches[k].rows[r];
      RowReduceInv(cfg.K, spec, row, net.sketches[k].hashed);
      var (counts, joined) := ReduceStep(spec.m, row.counts, row.joined);
      UpdateRowInv(cfg, net, k, r, row.(counts := counts, joined := joined));
  }
}
