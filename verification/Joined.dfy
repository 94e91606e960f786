/**
 What the network computes: the sequential sketch of every job, whatever the schedule,
 and all of it once no stage can move.
 */
module Joined {
  import opened Streams
  import opened Monoids
  import opened Lanes
  import opened Funnel
  import opened Collecting
  import opened Network

  /** A collector's jobs are its lane's jobs, hashed and keyed. */
  lemma {:induction false} LaneJobs(cfg: Config, net: Net, k: nat, r: nat, i: nat)
    requires NetInv(cfg, net) && Possible(cfg, Reduce(k, r)) && i < cfg.K
    ensures var js, ls := Jobs(net.sketches[k].rows[r].keyed[i].Consumed()), Jobs(net.lanes[i].log);
            && |js| <= |ls|
            && forall j :: 0 <= j < |js| ==> js[j] == Map(cfg.sketches[k][r].kv, Map(cfg.hash, ls[j]))
  {
    var lane, hashed, keyed := net.lanes[i], net.sketches[k].hashed[i], net.sketches[k].rows[r].keyed[i];
    assert SketchInv(cfg, cfg.sketches[k], net.sketches[k], net.lanes);
    assert RowInv(cfg.K, cfg.sketches[k][r], net.sketches[k].rows[r], net.sketches[k].hashed);
    assert LaneInv(cfg.sketches[k][r], keyed, net.sketches[k].rows[r].units[i], net.sketches[k].rows[r].counts[i],
           hashed);
    JobsPrefix(keyed.Consumed(), keyed.log);
    JobsMap(cfg.sketches[k][r].kv, hashed.Consumed());
    JobsPrefix(hashed.Consumed(), hashed.log);
    JobsMap(cfg.hash, lane.Consumed());
    JobsPrefix(lane.Consumed(), lane.log);
  }

  lemma {:induction false} KeyedCell(hash: Word -> nat, spec: RowSpec, words: seq<Word>, key: nat)
    ensures CellOf(spec.m, spec.g, Map(spec.kv, Map(hash, words)), key)
         == Sum(spec.m, Contribution(hash, spec, key), words)
  {
    var g1 := KVContribution(spec.g, key);
    var g2: nat -> int := (h: nat) => g1(spec.kv(h));
    SumMap(spec.m, spec.kv, g1, g2, Map(hash, words));
    SumMap(spec.m, hash, g2, Contribution(hash, spec, key), words);
  }

  lemma {:induction false} ReduceSums(m: Monoid, g: Word -> int, xs: seq<Flit<int>>, parts: seq<seq<Word>>)
    requires |xs| == |parts|
    requires forall i :: 0 <= i < |xs| ==> xs[i].val == Sum(m, g, parts[i])
    ensures ReduceFold(m, xs).val == SumOfSums(m, g, parts)
    decreases |xs|
  {
    if xs != [] {
      ReduceSums(m, g, xs[..|xs| - 1], parts[..|parts| - 1]);
    }
  }

  /** Reducing the shares of a job over the lanes gives the sketch of the job. */
  lemma {:induction false} ReducePartition(hash: Word -> nat, spec: RowSpec, key: nat, xs: seq<Flit<int>>,
        parts: seq<seq<Word>>, job: seq<Word>)
    requires RowSpecOk(spec) && |xs| == |parts| > 0
    requires forall i :: 0 <= i < |xs| ==>
               xs[i] == Flit(key == spec.M - 1, Sum(spec.m, Contribution(hash, spec, key), parts[i]))
    requires multiset(Flatten(parts)) == multiset(job)
    ensures ReduceFold(spec.m, xs) == Flit(key == spec.M - 1, Cell(hash, spec, job, key))
  {
    var g := Contribution(hash, spec, key);
    ReduceSums(spec.m, g, xs, parts);
    WordContributionInDom(hash, spec, key);
    SumFlatten(spec.m, g, parts);
    SumPermutation(spec.m, g, Flatten(parts), job);
  }

  lemma {:induction false} RowHolds(cfg: Config, net: Net, k: nat, r: nat)
    requires NetInv(cfg, net) && Possible(cfg, Reduce(k, r))
    ensures RowSpecOk(cfg.sketches[k][r])
    ensures |net.sketches[k].hashed| == |net.lanes| == cfg.K && r < |net.sketches[k].rows|
    ensures RowInv(cfg.K, cfg.sketches[k][r], net.sketches[k].rows[r], net.sketches[k].hashed)
  {
    assert SketchInv(cfg, cfg.sketches[k], net.sketches[k], net.lanes);
  }

  /** The flit that lane `i` contributes to position `t` of a row's output. */
  lemma {:induction false} LaneDump(cfg: Config, net: Net, k: nat, r: nat, i: nat, t: nat, j: nat, key: nat)
    requires NetInv(cfg, net) && Possible(cfg, Reduce(k, r)) && i < cfg.K
    requires t < |net.sketches[k].rows[r].counts[i].log|
    requires cfg.sketches[k][r].M > 0 && j == t / cfg.sketches[k][r].M && key == t % cfg.sketches[k][r].M
    ensures j < |Jobs(net.lanes[i].log)|
    ensures net.sketches[k].rows[r].counts[i].log[t] ==
            Flit(key == cfg.sketches[k][r].M - 1,
                 Sum(cfg.sketches[k][r].m, Contribution(cfg.hash, cfg.sketches[k][r], key), Jobs(net.lanes[i].log)[j]))
  {
    var spec, row := cfg.sketches[k][r], net.sketches[k].rows[r];
    RowHolds(cfg, net, k, r);
    assert LaneInv(spec, row.keyed[i], row.units[i], row.counts[i], net.sketches[k].hashed[i]);
    assert row.counts[i].log[t] == DumpAt(spec.m, spec.g, spec.M, Jobs(row.keyed[i].Consumed()), t);
    LaneJobs(cfg, net, k, r, i);
    KeyedCell(cfg.hash, spec, Jobs(net.lanes[i].log)[j], key);
  }

  lemma {:induction false} JobWordsPrefix(a: seq<Wide>, b: seq<Wide>)
    requires a <= b
    ensures JobWords(a) <= JobWords(b)
  {
    JobsPrefix(a, b);
  }

  /** Flit `t` of a row, `t` being `j * M + key`, is cell `key` of the sketch of job `j`. */
  lemma {:induction false} JoinedIsSketch(cfg: Config, net: Net, k: nat, r: nat, t: nat, j: nat, key: nat)
    requires NetInv(cfg, net) && Possible(cfg, Reduce(k, r))
    requires t < |net.sketches[k].rows[r].joined.log|
    requires cfg.sketches[k][r].M > 0 && j == t / cfg.sketches[k][r].M && key == t % cfg.sketches[k][r].M
    ensures j < |JobWords(net.src.log)|
    ensures net.sketches[k].rows[r].joined.log[t] ==
            Flit(key == cfg.sketches[k][r].M - 1, Cell(cfg.hash, cfg.sketches[k][r], JobWords(net.src.log)[j], key))
  {
    var spec, row := cfg.sketches[k][r], net.sketches[k].rows[r];
    RowHolds(cfg, net, k, r);
    forall i | 0 <= i < cfg.K
      ensures j < |Jobs(net.lanes[i].log)|
    {
      LaneDump(cfg, net, k, r, i, t, j, key);
    }
    var column := Column(row.counts, t);
    var parts := JobParts(net.lanes, j);
    forall i | 0 <= i < cfg.K
      ensures column[i] == Flit(key == spec.M - 1, Sum(spec.m, Contribution(cfg.hash, spec, key), parts[i]))
    {
      LaneDump(cfg, net, k, r, i, t, j, key);
    }
    LanesPartitionJob(cfg.N, cfg.K, net.src.Consumed(), net.q, net.lanes, j);
    JobWordsPrefix(net.src.Consumed(), net.src.log);
    ReducePartition(cfg.hash, spec, key, column, parts, JobWords(net.src.log)[j]);
  }

  // The same statement job by job.

  /** A stream of vectors of `M` values, each closed by a `last` flag. */
  predicate Framed(M: nat, s: seq<Flit<int>>) {
    M > 0 && forall t :: 0 <= t < |s| ==> (s[t].last <==> t % M == M - 1)
  }

  /** The flags count rows: quotient and remainder of the length are the closed jobs and the open values. */
  lemma {:induction false} FramedLength(M: nat, s: seq<Flit<int>>)
    requires Framed(M, s)
    ensures |s| / M == |Jobs(s)| && |s| % M == |Open(s)|
    decreases |s|
  {
    if |s| == 0 {
      DivModUnique(0, 0, M);
    } else {
      var p, x := s[..|s| - 1], s[|s| - 1];
      FramedLength(M, p);
      JobsSnoc(p, x);
      assert s == p + [x];
      NextIndex(|p|, M);
    }
  }

  lemma {:induction false} NextIndex(t: nat, M: nat)
    requires M > 0
    ensures if t % M == M - 1 then (t + 1) / M == t / M + 1 && (t + 1) % M == 0
            else (t + 1) / M == t / M && (t + 1) % M == t % M + 1
  {
    NextOf(t, t / M, t % M, M);
  }

  lemma {:induction false} NextOf(t: nat, q: nat, r: nat, M: nat)
    requires r < M && t == q * M + r
    ensures if r == M - 1 then (t + 1) / M == q + 1 && (t + 1) % M == 0
            else (t + 1) / M == q && (t + 1) % M == r + 1
  {
    if r == M - 1 {
      assert t + 1 == (q + 1) * M + 0;
      DivModUnique(q + 1, 0, M);
    } else {
      assert t + 1 == q * M + (r + 1);
      DivModUnique(q, r + 1, M);
    }
  }

  /** Each flit carries the value that `v` prescribes for its place in its job. */
  ghost predicate Prescribed(M: nat, s: seq<Flit<int>>, v: (nat, nat) -> int) {
    forall t :: 0 <= t < |s| ==>
      s[t] == Flit(|Open(s[..t])| == M - 1, v(|Jobs(s[..t])|, |Open(s[..t])|))
  }

  function Filled(M: nat, v: (nat, nat) -> int, j: nat): (r: seq<int>)
    ensures |r| == M
  {
    seq(M, key requires 0 <= key < M => v(j, key))
  }

  ghost predicate FilledJobs(M: nat, s: seq<Flit<int>>, v: (nat, nat) -> int) {
    && |Open(s)| < M && Open(s) == Filled(M, v, |Jobs(s)|)[..|Open(s)|]
    && forall j :: 0 <= j < |Jobs(s)| ==> Jobs(s)[j] == Filled(M, v, j)
  }

  lemma {:induction false} PrescribedStep(M: nat, p: seq<Flit<int>>, x: Flit<int>, v: (nat, nat) -> int)
    requires FilledJobs(M, p, v) && x == Flit(|Open(p)| == M - 1, v(|Jobs(p)|, |Open(p)|))
    ensures FilledJobs(M, p + [x], v)
  {
    JobsSnoc(p, x);
    assert Open(p) + [x.val] == Filled(M, v, |Jobs(p)|)[..|Open(p)| + 1];
  }

  lemma {:induction false} PrescribedJobs(M: nat, s: seq<Flit<int>>, v: (nat, nat) -> int)
    requires M > 0 && Prescribed(M, s, v)
    ensures FilledJobs(M, s, v)
    decreases |s|
  {
    if |s| > 0 {
      var p, x := s[..|s| - 1], s[|s| - 1];
      assert p == s[..|p|];
      forall t | 0 <= t < |p|
        ensures p[t] == Flit(|Open(p[..t])| == M - 1, v(|Jobs(p[..t])|, |Open(p[..t])|))
      {
        assert p[..t] == s[..t];
      }
      PrescribedJobs(M, p, v);
      PrescribedStep(M, p, x, v);
      assert s == p + [x];
    }
  }

  /** All cells of the sketch of `words`. */
  function Vector(hash: Word -> nat, spec: RowSpec, words: seq<Word>): (v: seq<int>)
    ensures |v| == spec.M
  {
    seq(spec.M, key requires 0 <= key < spec.M => Cell(hash, spec, words, key))
  }

  function CellTable(hash: Word -> nat, spec: RowSpec, jobs: seq<seq<Word>>): (nat, nat) -> int {
    (j: nat, key: nat) => if j < |jobs| then Cell(hash, spec, jobs[j], key) else 0
  }

  lemma {:induction false} JoinedFramed(cfg: Config, net: Net, k: nat, r: nat)
    requires NetInv(cfg, net) && Possible(cfg, Reduce(k, r))
    ensures Framed(cfg.sketches[k][r].M, net.sketches[k].rows[r].joined.log)
  {
    var spec, s := cfg.sketches[k][r], net.sketches[k].rows[r].joined.log;
    RowHolds(cfg, net, k, r);
    forall t | 0 <= t < |s|
      ensures s[t].last <==> t % spec.M == spec.M - 1
    {
      DivNat(t, spec.M);
      JoinedIsSketch(cfg, net, k, r, t, t / spec.M, t % spec.M);
    }
  }

  lemma {:induction false} JoinedPrescribed(cfg: Config, net: Net, k: nat, r: nat)
    requires NetInv(cfg, net) && Possible(cfg, Reduce(k, r))
    ensures Prescribed(cfg.sketches[k][r].M, net.sketches[k].rows[r].joined.log,
                       CellTable(cfg.hash, cfg.sketches[k][r], JobWords(net.src.log)))
  {
    var spec, s := cfg.sketches[k][r], net.sketches[k].rows[r].joined.log;
    RowHolds(cfg, net, k, r);
    JoinedFramed(cfg, net, k, r);
    forall t | 0 <= t < |s|
      ensures s[t] == Flit(|Open(s[..t])| == spec.M - 1,
                           CellTable(cfg.hash, spec, JobWords(net.src.log))(|Jobs(s[..t])|, |Open(s[..t])|))
    {
      FramedLength(spec.M, s[..t]);
      JoinedIsSketch(cfg, net, k, r, t, |Jobs(s[..t])|, |Open(s[..t])|);
    }
  }

  lemma {:induction false} FramedJobCount(M: nat, s: seq<Flit<int>>, n: nat)
    requires Framed(M, s) && |s| > 0 && (|s| - 1) / M < n
    ensures |Jobs(s)| <= n
  {
    var p, x := s[..|s| - 1], s[|s| - 1];
    FramedLength(M, p);
    JobsSnoc(p, x);
    assert s == p + [x];
  }

  /** No row closes a job before the source has. */
  lemma {:induction false} JoinedJobCount(cfg: Config, net: Net, k: nat, r: nat)
    requires NetInv(cfg, net) && Possible(cfg, Reduce(k, r))
    ensures |Jobs(net.sketches[k].rows[r].joined.log)| <= |JobWords(net.src.log)|
  {
    var M, s := cfg.sketches[k][r].M, net.sketches[k].rows[r].joined.log;
    RowHolds(cfg, net, k, r);
    JoinedFramed(cfg, net, k, r);
    if |s| > 0 {
      JoinedIsSketch(cfg, net, k, r, |s| - 1, (|s| - 1) / M, (|s| - 1) % M);
      FramedJobCount(M, s, |JobWords(net.src.log)|);
    }
  }

  /** For every schedule, job `j` of a row's output is the sequential sketch of job `j` of the source. */
  lemma {:induction false} JoinedJobs(cfg: Config, net: Net, k: nat, r: nat)
    requires NetInv(cfg, net) && Possible(cfg, Reduce(k, r))
    ensures var s, jobs := net.sketches[k].rows[r].joined.log, JobWords(net.src.log);
            && |Jobs(s)| <= |jobs|
            && forall j :: 0 <= j < |Jobs(s)| ==> Jobs(s)[j] == Vector(cfg.hash, cfg.sketches[k][r], jobs[j])
  {
    var spec, s, jobs := cfg.sketches[k][r], net.sketches[k].rows[r].joined.log, JobWords(net.src.log);
    RowHolds(cfg, net, k, r);
    JoinedJobCount(cfg, net, k, r);
    JoinedPrescribed(cfg, net, k, r);
    PrescribedJobs(spec.M, s, CellTable(cfg.hash, spec, jobs));
    forall j | 0 <= j < |Jobs(s)|
      ensures Jobs(s)[j] == Vector(cfg.hash, spec, jobs[j])
    {
      assert Jobs(s)[j] == Filled(spec.M, CellTable(cfg.hash, spec, jobs), j);
    }
  }

  // Completeness.

  /** The step would move data. */
  predicate Productive(cfg: Config, net: Net, c: Choice)
    requires Possible(cfg, c) && |net.sketches| == |cfg.sketches|
    requires forall k :: 0 <= k < |cfg.sketches| ==>
               |net.sketches[k].rows| == |cfg.sketches[k]| && |net.sketches[k].hashed| == cfg.K
    requires forall k, r :: 0 <= k < |cfg.sketches| && 0 <= r < |cfg.sketches[k]| ==>
               var row := net.sketches[k].rows[r];
               |row.keyed| == |row.units| == |row.counts| == cfg.K
  {
    match c
    case Deliver => !FunnelIdle(cfg.N, cfg.K, net.q, net.src)
    case Distribute => exists i :: 0 <= i < |net.lanes| && !net.lanes[i].Empty()
    case Key(k, i) => !net.sketches[k].hashed[i].Empty()
    case Count(k, r, i, _) => net.sketches[k].rows[r].units[i].dump || !net.sketches[k].rows[r].keyed[i].Empty()
    case Reduce(k, r) => AllReady(net.sketches[k].rows[r].counts)
  }

  lemma {:induction false} Shaped(cfg: Config, net: Net)
    requires NetInv(cfg, net)
    ensures |net.sketches| == |cfg.sketches|
    ensures forall k :: 0 <= k < |cfg.sketches| ==>
              |net.sketches[k].rows| == |cfg.sketches[k]| && |net.sketches[k].hashed| == cfg.K
    ensures forall k, r :: 0 <= k < |cfg.sketches| && 0 <= r < |cfg.sketches[k]| ==>
              var row := net.sketches[k].rows[r];
              |row.keyed| == |row.units| == |row.counts| == cfg.K
  {
    forall k | 0 <= k < |cfg.sketches|
      ensures |net.sketches[k].rows| == |cfg.sketches[k]| && |net.sketches[k].hashed| == cfg.K
      ensures forall r :: 0 <= r < |cfg.sketches[k]| ==>
                var row := net.sketches[k].rows[r];
                |row.keyed| == |row.units| == |row.counts| == cfg.K
    {
      assert SketchInv(cfg, cfg.sketches[k], net.sketches[k], net.lanes);
      forall r | 0 <= r < |cfg.sketches[k]|
        ensures var row := net.sketches[k].rows[r];
                |row.keyed| == |row.units| == |row.counts| == cfg.K
      {
        assert RowInv(cfg.K, cfg.sketches[k][r], net.sketches[k].rows[r], net.sketches[k].hashed);
      }
    }
  }

  ghost predicate NetIdle(cfg: Config, net: Net)
    requires NetInv(cfg, net)
  {
    Shaped(cfg, net);
    forall c :: Possible(cfg, c) ==> !Productive(cfg, net, c)
  }

  /** With nothing left to do, the queues along a lane are empty. */
  lemma {:induction false} IdleQueues(cfg: Config, net: Net, k: nat, r: nat, i: nat)
    requires NetInv(cfg, net) && NetIdle(cfg, net) && Possible(cfg, Reduce(k, r)) && i < cfg.K
    requires |net.sketches| == |cfg.sketches| && |net.sketches[k].hashed| == |net.lanes| == cfg.K
    requires r < |net.sketches[k].rows|
    requires var row := net.sketches[k].rows[r]; |row.keyed| == |row.units| == cfg.K
    ensures FunnelIdle(cfg.N, cfg.K, net.q, net.src) && net.lanes[i].Empty() && net.sketches[k].hashed[i].Empty()
    ensures var row := net.sketches[k].rows[r]; row.keyed[i].Empty() && !row.units[i].dump
  {
    Shaped(cfg, net);
    assert !Productive(cfg, net, Deliver) && !Productive(cfg, net, Distribute) && !Productive(cfg, net, Key(k, i))
        && !Productive(cfg, net, Count(k, r, i, Visibility(true, true, true)));
  }

  lemma {:induction false} LaneDone(hash: Word -> nat, spec: RowSpec, lane: Fifo<Item>, hashed: Fifo<Flit<nat>>,
                                    keyed: Fifo<Flit<KV>>, u: Unit, counts: Fifo<Flit<int>>)
    requires LaneInv(spec, keyed, u, counts, hashed) && hashed.log == MapFlit(hash, lane.Consumed())
    requires lane.Empty() && hashed.Empty() && keyed.Empty() && !u.dump
    ensures |counts.log| == |Jobs(lane.log)| * spec.M
  {
    assert lane.Consumed() == lane.log && hashed.Consumed() == hashed.log && keyed.Consumed() == keyed.log;
    JobsMap(hash, lane.log);
    JobsMap(spec.kv, hashed.log);
  }

  /** With nothing left to do, a lane has dumped its share of every job. */
  lemma {:induction false} IdleLane(cfg: Config, net: Net, k: nat, r: nat, i: nat)
    requires NetInv(cfg, net) && NetIdle(cfg, net) && Possible(cfg, Reduce(k, r)) && i < cfg.K
    requires RowInv(cfg.K, cfg.sketches[k][r], net.sketches[k].rows[r], net.sketches[k].hashed)
    ensures |net.sketches[k].rows[r].counts[i].log| == |JobWords(net.src.log)| * cfg.sketches[k][r].M
  {
    var spec, row, hashed := cfg.sketches[k][r], net.sketches[k].rows[r], net.sketches[k].hashed[i];
    IdleQueues(cfg, net, k, r, i);
    IdleMeansDelivered(cfg.N, cfg.K, net.q, net.src, net.lanes);
    assert net.src.Consumed() == net.src.log;
    LaneDone(cfg.hash, spec, net.lanes[i], hashed, row.keyed[i], row.units[i], row.counts[i]);
  }

  /** With nothing left to do, every row has emitted the whole sketch of every complete job. */
  lemma {:induction false} IdleIsComplete(cfg: Config, net: Net, k: nat, r: nat)
    requires NetInv(cfg, net) && NetIdle(cfg, net) && Possible(cfg, Reduce(k, r))
    ensures |net.sketches[k].rows[r].joined.log| == |JobWords(net.src.log)| * cfg.sketches[k][r].M
  {
    var row := net.sketches[k].rows[r];
    assert SketchInv(cfg, cfg.sketches[k], net.sketches[k], net.lanes);
    assert RowInv(cfg.K, cfg.sketches[k][r], row, net.sketches[k].hashed);
    Shaped(cfg, net);
    assert !Productive(cfg, net, Reduce(k, r));
    var i :| 0 <= i < cfg.K && row.counts[i].Empty();
    IdleLane(cfg, net, k, r, i);
  }

  /** With nothing left to do, a row has closed as many jobs as the source. */
  lemma {:induction false} IdleJobs(cfg: Config, net: Net, k: nat, r: nat)
    requires NetInv(cfg, net) && NetIdle(cfg, net) && Possible(cfg, Reduce(k, r))
    ensures |Jobs(net.sketches[k].rows[r].joined.log)| == |JobWords(net.src.log)|
  {
    RowHolds(cfg, net, k, r);
    IdleIsComplete(cfg, net, k, r);
    JoinedFramed(cfg, net, k, r);
    FramedLength(cfg.sketches[k][r].M, net.sketches[k].rows[r].joined.log);
    DivModUnique(|JobWords(net.src.log)|, 0, cfg.sketches[k][r].M);
  }
}
