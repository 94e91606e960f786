/**
 The two multi-threaded drivers: each thread collects one slice of the input into a
 collector of its own, and the partial tables are merged into the first one.

 A schedule says whose turn it is, item by item. Threads share nothing but the input
 (`Team`), so that the result is the same for every schedule.
 */
module Drivers {
  import opened Streams
  import opened Monoids
  import opened Lanes
  import opened Network
  import opened Sketches
  import opened BitSlices
  import opened SoftwareCollector
  import opened Agreement
  import opened SecondMoment

  // Slices.

  /** Where slice `i` of `n` ends: the file client cuts between items, the benchmark between blocks. */
  function Cut(i: nat, n: nat, units: nat, perUnit: nat): nat
    requires n > 0
  {
    ((i * units) / n) * perUnit
  }

  function Cuts(n: nat, units: nat, perUnit: nat): (cuts: seq<nat>)
    requires n > 0
    ensures |cuts| == n + 1
  {
    seq(n + 1, i requires 0 <= i < n + 1 => Cut(i, n, units, perUnit))
  }

  /** Cuts from 0 to `len` that never go back. */
  ghost predicate CutsOk(cuts: seq<nat>, len: nat) {
    && |cuts| > 0 && cuts[0] == 0 && cuts[|cuts| - 1] == len
    && forall i, j :: 0 <= i <= j < |cuts| ==> cuts[i] <= cuts[j]
  }

  lemma {:induction false} DivMonotone(a: nat, b: nat, n: nat)
    requires n > 0 && a <= b
    ensures a / n <= b / n
  {
    DivNat(b, n);
    assert a < (b / n + 1) * n;
    QuotientBound(a, b / n + 1, n);
  }

  lemma {:induction false} CutMonotone(i: nat, j: nat, n: nat, units: nat, perUnit: nat)
    requires n > 0 && i <= j
    ensures Cut(i, n, units, perUnit) <= Cut(j, n, units, perUnit)
  {
    MulMonotone(i, j, units);
    DivMonotone(i * units, j * units, n);
    MulMonotone((i * units) / n, (j * units) / n, perUnit);
  }

  lemma {:induction false} CutEnds(n: nat, units: nat, perUnit: nat)
    requires n > 0
    ensures Cut(0, n, units, perUnit) == 0 && Cut(n, n, units, perUnit) == units * perUnit
  {
    DivModUnique(units, 0, n);
    assert n * units == units * n;
    DivModUnique(0, 0, n);
  }

  /** For any number of threads the slices cover the input without gap or overlap. */
  lemma {:induction false} CutsPartition(n: nat, units: nat, perUnit: nat)
    requires n > 0
    ensures CutsOk(Cuts(n, units, perUnit), units * perUnit)
  {
    var cuts, len := Cuts(n, units, perUnit), units * perUnit;
    forall i, j | 0 <= i <= j < |cuts|
      ensures cuts[i] <= cuts[j]
    {
      CutMonotone(i, j, n, units, perUnit);
    }
    assert cuts[0] == 0 && cuts[n] == len by {
      CutEnds(n, units, perUnit);
    }
  }

  /** The floor of a sum is that of the parts, or one more. */
  lemma {:induction false} FloorOfSum(a: nat, b: nat, n: nat)
    requires n > 0
    ensures (a + b) / n == a / n + b / n || (a + b) / n == a / n + b / n + 1
  {
    var q, r, s, t := a / n, a % n, b / n, b % n;
    DivNat(a, n);
    DivNat(b, n);
    Monoids.Distribute(q, s, n);
    if r + t < n {
      DivModUnique(q + s, r + t, n);
    } else {
      NextMultiple(q + s, n);
      DivModUnique(q + s + 1, r + t - n, n);
    }
  }

  lemma {:induction false} UnitsEven(i: nat, n: nat, units: nat)
    requires n > 0
    ensures ((i + 1) * units) / n == (i * units) / n + units / n
         || ((i + 1) * units) / n == (i * units) / n + units / n + 1
  {
    NextMultiple(i, units);
    FloorOfSum(i * units, units, n);
  }

  /** Slice `i` consists of `k` whole units, which is the same for all slices or one more for some. */
  lemma {:induction false} CutsEven(i: nat, n: nat, units: nat, perUnit: nat) returns (k: nat)
    requires i < n
    ensures k == units / n || k == units / n + 1
    ensures Cut(i + 1, n, units, perUnit) == Cut(i, n, units, perUnit) + k * perUnit
  {
    UnitsEven(i, n, units);
    var a, b := (i * units) / n, ((i + 1) * units) / n;
    k := b - a;
    Monoids.Distribute(a, k, perUnit);
  }

  // Collectors of one kind that share nothing.

  datatype Settings = Settings(W: nat, hash: Word -> nat, hp: nat, ar: nat, ap: nat, cr: nat, cp: nat)

  /** Settings with which items can be collected. */
  ghost predicate SettingsOk(g: Settings) {
    0 < g.hp <= g.W && 0 < g.ap && forall w: Word :: g.hash(w) < Pow2(g.W)
  }

  ghost predicate Made(c: SktCollector, g: Settings) {
    && c.W == g.W && c.hash == g.hash
    && c.p_hll == g.hp && c.r_agms == g.ar && c.p_agms == g.ap && c.r_cm == g.cr && c.p_cm == g.cp
  }

  ghost predicate Team(cs: seq<SktCollector>, g: Settings) {
    && (forall i :: 0 <= i < |cs| ==> Made(cs[i], g))
    && forall i, j :: 0 <= i < j < |cs| ==> cs[i].Repr() !! cs[j].Repr()
  }

  /** The collector's tables are the sketch of `s`. */
  ghost predicate Holds(c: SktCollector, s: seq<Word>)
    reads c.Repr()
  {
    c.Valid() && c.items == s
  }

  function Footprint(cs: seq<SktCollector>): (r: set<object>)
    ensures forall i :: 0 <= i < |cs| ==> cs[i].Repr() <= r
  {
    if cs == [] then {} else Footprint(cs[..|cs| - 1]) + cs[|cs| - 1].Repr()
  }

  ghost predicate AllHold(cs: seq<SktCollector>, parts: seq<seq<Word>>)
    reads Footprint(cs)
  {
    |parts| == |cs| && forall i :: 0 <= i < |cs| ==> Holds(cs[i], parts[i])
  }

  function Nothing(n: nat): (parts: seq<seq<Word>>)
    ensures |parts| == n
  {
    seq(n, _ => [])
  }

  /** One collector takes one more item; the others do not notice. */
  method CollectOne(cs: seq<SktCollector>, i: nat, x: Word, ghost parts: seq<seq<Word>>, ghost g: Settings)
    requires i < |cs| && SettingsOk(g) && Team(cs, g) && AllHold(cs, parts)
    modifies cs[i].Repr()
    ensures AllHold(cs, parts[i := parts[i] + [x]])
  {
    assert Holds(cs[i], parts[i]);
    cs[i].CollectItem(x);
    forall k | 0 <= k < |cs| && k != i
      ensures Holds(cs[k], parts[k])
    {
      assert cs[i].Repr() !! cs[k].Repr();
      assert old(Holds(cs[k], parts[k]));
    }
  }

  method MergeOne(cs: seq<SktCollector>, i: nat, ghost parts: seq<seq<Word>>, ghost g: Settings)
    requires 0 < i < |cs| && Team(cs, g) && AllHold(cs, parts)
    modifies cs[0].Repr()
    ensures AllHold(cs, parts[0 := parts[0] + parts[i]])
  {
    assert cs[0].Repr() !! cs[i].Repr();
    assert Holds(cs[0], parts[0]) && Holds(cs[i], parts[i]);
    cs[0].EqualHashes(cs[i]);
    var done := cs[0].Merge(cs[i]);
    forall k | 1 <= k < |cs|
      ensures Holds(cs[k], parts[k])
    {
      assert cs[0].Repr() !! cs[k].Repr();
      assert old(Holds(cs[k], parts[k]));
    }
  }

  // Schedules.

  /** A worker collects the next item of its slice, or the main thread joins and merges the next worker. */
  datatype Turn = Item(thread: nat) | Join

  /** `next[k]` is the item that worker `k` takes next; the first `joined` workers have been joined and merged. */
  datatype Progress = Progress(next: seq<nat>, joined: nat)

  ghost predicate ProgressOk(cuts: seq<nat>, p: Progress) {
    && |p.next| + 1 == |cuts| && p.joined <= |p.next|
    && (forall k :: 0 <= k < |p.next| ==> cuts[k] <= p.next[k] <= cuts[k + 1])
    && forall k :: 0 <= k < p.joined ==> p.next[k] == cuts[k + 1]
  }

  /** A turn that is not possible changes nothing: a worker at its end, or a join that has to wait. */
  function After(cuts: seq<nat>, p: Progress, turn: Turn): Progress
    requires |p.next| + 1 == |cuts|
  {
    match turn {
      case Item(i) => if i < |p.next| && p.next[i] < cuts[i + 1] then p.(next := p.next[i := p.next[i] + 1]) else p
      case Join =>
        if p.joined < |p.next| && p.next[p.joined] == cuts[p.joined + 1] then p.(joined := p.joined + 1) else p
    }
  }

  /** What each collector has seen: the first one everything merged, the others what their workers have taken. */
  ghost function Parts(data: seq<Word>, cuts: seq<nat>, p: Progress): (parts: seq<seq<Word>>)
    requires CutsOk(cuts, |data|) && ProgressOk(cuts, p)
    ensures |parts| == |p.next|
  {
    seq(|p.next|, k requires 0 <= k < |p.next| =>
      assert cuts[k + 1] <= cuts[|cuts| - 1];
      if k == 0 && p.joined > 0 then data[..cuts[p.joined]] else data[cuts[k]..p.next[k]])
  }

  lemma {:induction false} ItemProgress(cuts: seq<nat>, p: Progress, i: nat)
    requires ProgressOk(cuts, p) && i < |p.next| && p.next[i] < cuts[i + 1]
    ensures ProgressOk(cuts, After(cuts, p, Item(i)))
  {
  }

  lemma {:induction false} ItemParts(data: seq<Word>, cuts: seq<nat>, p: Progress, i: nat)
    requires CutsOk(cuts, |data|) && ProgressOk(cuts, p) && i < |p.next| && p.next[i] < cuts[i + 1]
    ensures ProgressOk(cuts, After(cuts, p, Item(i)))
    ensures var parts := Parts(data, cuts, p);
            Parts(data, cuts, After(cuts, p, Item(i))) == parts[i := parts[i] + [data[p.next[i]]]]
  {
    ItemProgress(cuts, p, i);
    var x := p.next[i];
    assert cuts[i + 1] <= cuts[|cuts| - 1];
    assert data[cuts[i]..x + 1] == data[cuts[i]..x] + [data[x]];
    assert i == 0 ==> p.joined == 0;
  }

  /** Merging the next worker's items makes the items merged so far those of one more slice. */
  lemma {:induction false} JoinParts(data: seq<Word>, cuts: seq<nat>, p: Progress)
    requires CutsOk(cuts, |data|) && ProgressOk(cuts, p) && p.joined < |p.next|
    requires p.next[p.joined] == cuts[p.joined + 1]
    ensures ProgressOk(cuts, After(cuts, p, Join))
    ensures var parts := Parts(data, cuts, p);
            Parts(data, cuts, After(cuts, p, Join))
            == if p.joined == 0 then parts else parts[0 := parts[0] + parts[p.joined]]
  {
    var m := p.joined;
    assert data[..cuts[m + 1]] == data[..cuts[m]] + data[cuts[m]..cuts[m + 1]];
  }

  /** Take one turn. */
  method Take(cs: seq<SktCollector>, data: seq<Word>, cuts: seq<nat>, p: Progress, turn: Turn,
        ghost g: Settings) returns (p': Progress)
    requires SettingsOk(g) && Team(cs, g) && CutsOk(cuts, |data|) && ProgressOk(cuts, p)
    requires AllHold(cs, Parts(data, cuts, p))
    modifies Footprint(cs)
    ensures p' == After(cuts, p, turn) && ProgressOk(cuts, p') && AllHold(cs, Parts(data, cuts, p'))
  {
    p' := After(cuts, p, turn);
    ghost var parts := Parts(data, cuts, p);
    match turn {
      case Item(i) =>
        if i < |p.next| && p.next[i] < cuts[i + 1] {
          ItemParts(data, cuts, p, i);
          CollectOne(cs, i, data[p.next[i]], parts, g);
        }
      case Join =>
        if p.joined < |p.next| && p.next[p.joined] == cuts[p.joined + 1] {
          JoinParts(data, cuts, p);
          if p.joined > 0 {
            MergeOne(cs, p.joined, parts, g);
          }
        }
    }
  }

  ghost predicate WorkersDone(cuts: seq<nat>, p: Progress, n: nat)
    requires |p.next| + 1 == |cuts|
  {
    forall k :: 0 <= k < n && k < |p.next| ==> p.next[k] == cuts[k + 1]
  }

  /** Let one worker finish. */
  method FinishWorker(cs: seq<SktCollector>, data: seq<Word>, cuts: seq<nat>, start: Progress, i: nat,
        ghost g: Settings) returns (p: Progress)
    requires SettingsOk(g) && Team(cs, g) && CutsOk(cuts, |data|) && ProgressOk(cuts, start)
    requires AllHold(cs, Parts(data, cuts, start)) && i < |cs| && WorkersDone(cuts, start, i)
    modifies Footprint(cs)
    ensures ProgressOk(cuts, p) && AllHold(cs, Parts(data, cuts, p)) && WorkersDone(cuts, p, i + 1)
  {
    p := start;
    while p.next[i] < cuts[i + 1]
      invariant ProgressOk(cuts, p) && AllHold(cs, Parts(data, cuts, p)) && WorkersDone(cuts, p, i)
      decreases cuts[i + 1] - p.next[i]
    {
      p := Take(cs, data, cuts, p, Item(i), g);
    }
  }

  method FinishWorkers(cs: seq<SktCollector>, data: seq<Word>, cuts: seq<nat>, start: Progress,
        ghost g: Settings) returns (p: Progress)
    requires SettingsOk(g) && Team(cs, g) && CutsOk(cuts, |data|) && ProgressOk(cuts, start)
    requires AllHold(cs, Parts(data, cuts, start))
    modifies Footprint(cs)
    ensures ProgressOk(cuts, p) && AllHold(cs, Parts(data, cuts, p)) && WorkersDone(cuts, p, |cs|)
  {
    p := start;
    for i := 0 to |cs|
      invariant ProgressOk(cuts, p) && AllHold(cs, Parts(data, cuts, p)) && WorkersDone(cuts, p, i)
    {
      p := FinishWorker(cs, data, cuts, p, i, g);
    }
  }

  lemma {:induction false} JoinAdvances(cuts: seq<nat>, p: Progress)
    requires |p.next| + 1 == |cuts| && WorkersDone(cuts, p, |p.next|) && p.joined < |p.next|
    ensures var p' := After(cuts, p, Join);
            p'.joined == p.joined + 1 && p'.next == p.next && WorkersDone(cuts, p', |p.next|)
  {
  }

  /** Join and merge the workers that are left, all of them being done. */
  method JoinAll(cs: seq<SktCollector>, data: seq<Word>, cuts: seq<nat>, start: Progress,
        ghost g: Settings) returns (p: Progress)
    requires SettingsOk(g) && Team(cs, g) && CutsOk(cuts, |data|) && ProgressOk(cuts, start)
    requires AllHold(cs, Parts(data, cuts, start)) && WorkersDone(cuts, start, |cs|)
    modifies Footprint(cs)
    ensures ProgressOk(cuts, p) && p.joined == |cs| && AllHold(cs, Parts(data, cuts, p))
  {
    p := start;
    while p.joined < |cs|
      invariant ProgressOk(cuts, p) && AllHold(cs, Parts(data, cuts, p)) && WorkersDone(cuts, p, |cs|)
      decreases |cs| - p.joined
    {
      JoinAdvances(cuts, p);
      p := Take(cs, data, cuts, p, Join, g);
    }
  }

  /**
   Collect and merge: for any number of threads and any schedule the first collector ends up
   with the tables a single thread would have filled. What the schedule leaves is done in order.
   */
  method Compact(cs: seq<SktCollector>, data: seq<Word>, units: nat, perUnit: nat, schedule: seq<Turn>,
        ghost g: Settings)
    requires |cs| > 0 && SettingsOk(g) && Team(cs, g) && AllHold(cs, Nothing(|cs|)) && units * perUnit == |data|
    modifies Footprint(cs)
    ensures Holds(cs[0], data) && forall i :: 0 <= i < |cs| ==> cs[i].Sized()
  {
    CutsPartition(|cs|, units, perUnit);
    var cuts := Cuts(|cs|, units, perUnit);
    var p := Progress(cuts[..|cs|], 0);
    assert Parts(data, cuts, p) == Nothing(|cs|);
    for t := 0 to |schedule|
      invariant ProgressOk(cuts, p) && AllHold(cs, Parts(data, cuts, p))
    {
      p := Take(cs, data, cuts, p, schedule[t], g);
    }
    p := FinishWorkers(cs, data, cuts, p, g);
    p := JoinAll(cs, data, cuts, p, g);
    assert Holds(cs[0], Parts(data, cuts, p)[0]);
    assert data[..|data|] == data;
    assert forall i :: 0 <= i < |cs| ==> Holds(cs[i], Parts(data, cuts, p)[i]);
  }

  lemma {:induction false} TeamGrows(cs: seq<SktCollector>, c: SktCollector, g: Settings)
    requires Team(cs, g) && Made(c, g) && forall i :: 0 <= i < |cs| ==> cs[i].Repr() !! c.Repr()
    ensures Team(cs + [c], g)
    ensures Footprint(cs + [c]) == Footprint(cs) + c.Repr()
  {
    assert (cs + [c])[..|cs|] == cs;
  }

  method NewCollector(g: Settings) returns (c: SktCollector)
    requires SettingsOk(g)
    ensures fresh(c.Repr()) && Made(c, g) && Holds(c, [])
  {
    c := new SktCollector(g.W, g.hash, g.hp, g.ar, g.ap, g.cr, g.cp);
  }

  method AddCollector(cs: seq<SktCollector>, g: Settings) returns (c: SktCollector)
    requires SettingsOk(g) && Team(cs, g) && AllHold(cs, Nothing(|cs|))
    ensures fresh(c.Repr()) && Team(cs + [c], g) && Footprint(cs + [c]) == Footprint(cs) + c.Repr()
    ensures AllHold(cs + [c], Nothing(|cs| + 1))
  {
    ghost var foot: set<object> := Footprint(cs);
    assert allocated(foot);
    c := NewCollector(g);
    TeamGrows(cs, c, g);
    forall k | 0 <= k < |cs|
      ensures Holds(cs[k], [])
    {
      assert old(Holds(cs[k], Nothing(|cs|)[k]));
    }
  }

  method NewCollectors(n: nat, g: Settings) returns (cs: seq<SktCollector>)
    requires SettingsOk(g)
    ensures |cs| == n && Team(cs, g) && fresh(Footprint(cs))
    ensures AllHold(cs, Nothing(n))
  {
    cs := [];
    for i := 0 to n
      invariant |cs| == i && Team(cs, g) && fresh(Footprint(cs))
      invariant AllHold(cs, Nothing(i))
    {
      var c := AddCollector(cs, g);
      cs := cs + [c];
    }
  }

  /** The file client: one collector per thread, filled and merged as the workers end, for any schedule. */
  method FileClient(idata: seq<Word>, nthreads: nat, schedule: seq<Turn>,
        g: Settings) returns (master: Option<SktCollector>)
    requires SettingsOk(g)
    ensures master.None? <==> nthreads < 1
    ensures master.Some? ==> Made(master.value, g) && fresh(master.value.Repr()) && Holds(master.value, idata)
  {
    if nthreads < 1 {
      return None;
    }
    var collectors := NewCollectors(nthreads, g);
    Compact(collectors, idata, |idata|, 1, schedule, g);
    return Some(collectors[0]);
  }

  // The benchmark.

  const PER_BLOCK := 8

  /** What one repetition leaves in the first collector, the squares of its AGMS rows, and twice their median. */
  datatype Run = Run(hll: seq<int>, agms: seq<int>, cm: seq<int>, squares: seq<int>, median: int)

  /** A run's tables are the sketch of the input, its squares those of the AGMS rows, its median that of these. */
  ghost predicate RunOf(r: Run, g: Settings, input: seq<Word>)
    requires g.hp <= g.W
  {
    && |r.hll| == Pow2(g.hp) && RowsHold(r.hll, Pow2(g.hp), [HllRow(g.W, g.hp)], g.hash, input)
    && |r.agms| == Pow2(g.ap) * g.ar && RowsHold(r.agms, Pow2(g.ap), AgmsRows(g.ar, g.ap, COUNTER_BITS), g.hash, input)
    && |r.cm| == Pow2(g.cp) * g.cr && RowsHold(r.cm, Pow2(g.cp), CmRows(g.cr, g.cp, COUNTER_BITS), g.hash, input)
    && r.median == (if r.squares == [] then 0 else TwiceMedian(r.squares))
    && |r.squares| == g.ar && forall i :: 0 <= i < g.ar ==> r.squares[i] == AddSquares(0, RowOf(r.agms, i, Pow2(g.ap)))
  }

  /** A run's squares are the pairs of items sharing a cell if and only if these stay below 2^31. */
  ghost predicate MomentsOf(r: Run, g: Settings, input: seq<Word>)
    requires |r.squares| == g.ar
  {
    forall i :: 0 <= i < g.ar ==>
      var pairs := Pairs(g.hash, g.ap, i, input, input);
      && (r.squares[i] == pairs <==> pairs < 0x8000_0000)
      && (CollisionFree(g.hash, g.ap, i, input) ==> pairs == Moment2(input))
  }

  lemma {:induction false} RunMoments(r: Run, g: Settings, input: seq<Word>)
    requires g.hp <= g.W && RunOf(r, g, input)
    ensures MomentsOf(r, g, input)
  {
    forall i | 0 <= i < g.ar
      ensures r.squares[i] == Register(Pairs(g.hash, g.ap, i, input, input))
    {
      assert RowIs(r.agms, Pow2(g.ap), i, g.hash, AgmsRows(g.ar, g.ap, COUNTER_BITS)[i], input);
      SoftwareMoment(r.agms, g.ap, i, g.hash, input);
    }
    forall i | 0 <= i < g.ar
      ensures var pairs := Pairs(g.hash, g.ap, i, input, input);
              && (Register(pairs) == pairs <==> pairs < 0x8000_0000)
              && (CollisionFree(g.hash, g.ap, i, input) ==> pairs == Moment2(input))
    {
      MomentFitsIff(g.hash, g.ap, i, input);
    }
  }

  lemma {:induction false} BucketsDetermined(t: seq<int>, t': seq<int>, g: Settings, a: seq<Word>, b: seq<Word>)
    requires g.hp <= g.W && multiset(a) == multiset(b) && |t| == |t'| == Pow2(g.hp)
    requires RowsHold(t, Pow2(g.hp), [HllRow(g.W, g.hp)], g.hash, a)
    requires RowsHold(t', Pow2(g.hp), [HllRow(g.W, g.hp)], g.hash, b)
    ensures t == t'
  {
    HllRowOk(g.W, g.hp);
    RowsDetermine(t, t', Pow2(g.hp), [HllRow(g.W, g.hp)], g.hash, a, b);
  }

  lemma {:induction false} CountersDetermined(t: seq<int>, t': seq<int>, g: Settings, a: seq<Word>, b: seq<Word>)
    requires multiset(a) == multiset(b) && |t| == |t'| == Pow2(g.ap) * g.ar
    requires RowsHold(t, Pow2(g.ap), AgmsRows(g.ar, g.ap, COUNTER_BITS), g.hash, a)
    requires RowsHold(t', Pow2(g.ap), AgmsRows(g.ar, g.ap, COUNTER_BITS), g.hash, b)
    ensures t == t'
  {
    AgmsRowsOk(g.ar, g.ap, COUNTER_BITS);
    RowsDetermine(t, t', Pow2(g.ap), AgmsRows(g.ar, g.ap, COUNTER_BITS), g.hash, a, b);
  }

  lemma {:induction false} CountsDetermined(t: seq<int>, t': seq<int>, g: Settings, a: seq<Word>, b: seq<Word>)
    requires multiset(a) == multiset(b) && |t| == |t'| == Pow2(g.cp) * g.cr
    requires RowsHold(t, Pow2(g.cp), CmRows(g.cr, g.cp, COUNTER_BITS), g.hash, a)
    requires RowsHold(t', Pow2(g.cp), CmRows(g.cr, g.cp, COUNTER_BITS), g.hash, b)
    ensures t == t'
  {
    CmRowsOk(g.cr, g.cp, COUNTER_BITS);
    RowsDetermine(t, t', Pow2(g.cp), CmRows(g.cr, g.cp, COUNTER_BITS), g.hash, a, b);
  }

  lemma {:induction false} SquaresAgree(r: Run, r': Run, g: Settings, a: seq<Word>, b: seq<Word>)
    requires g.hp <= g.W && RunOf(r, g, a) && RunOf(r', g, b) && r.agms == r'.agms
    ensures r.squares == r'.squares && r.median == r'.median
  {
    assert |r.squares| == |r'.squares| == g.ar;
  }

  /** Runs on the same items, in whatever order and by however many threads, yield the same. */
  lemma {:induction false} RunsAgree(r: Run, r': Run, g: Settings, a: seq<Word>, b: seq<Word>)
    requires g.hp <= g.W && RunOf(r, g, a) && RunOf(r', g, b) && multiset(a) == multiset(b)
    ensures r == r'
  {
    BucketsDetermined(r.hll, r'.hll, g, a, b);
    CountersDetermined(r.agms, r'.agms, g, a, b);
    CountsDetermined(r.cm, r'.cm, g, a, b);
    SquaresAgree(r, r', g, a, b);
  }

  /** A collector for row squares only; it never collects, and has neither buckets to speak of nor Count-Min rows. */
  method NewColumns(g: Settings) returns (cols: SktCollector)
    requires SettingsOk(g)
    ensures fresh(cols.Repr()) && Holds(cols, []) && cols.agms.Length == 2 * g.ar && cols.r_agms == g.ar
  {
    cols := new SktCollector(g.W, g.hash, 0, g.ar, 1, 0, 0);
    assert Pow2(1) == 2;
  }

  /** Clean all collectors. */
  method CleanAll(cs: seq<SktCollector>, ghost g: Settings)
    requires Team(cs, g) && forall i :: 0 <= i < |cs| ==> cs[i].Sized()
    modifies Footprint(cs)
    ensures AllHold(cs, Nothing(|cs|))
  {
    for i := 0 to |cs|
      invariant forall k :: 0 <= k < i ==> Holds(cs[k], [])
    {
      label Before:
      cs[i].Clean();
      forall k | 0 <= k < i
        ensures Holds(cs[k], [])
      {
        assert cs[k].Repr() !! cs[i].Repr();
        assert old@Before(Holds(cs[k], []));
      }
    }
  }

  /** Take the squares of a collector's rows. */
  method Squares(cols: SktCollector, c: SktCollector, ghost g: Settings, ghost data: seq<Word>) returns (r: Run)
    requires Holds(cols, []) && cols.Repr() !! c.Repr() && cols.agms.Length == 2 * g.ar
    requires g.hp <= g.W && Made(c, g) && Holds(c, data) && cols.r_agms == g.ar > 0
    modifies cols.Repr()
    ensures RunOf(r, g, data) && Holds(cols, [])
  {
    ghost var zero := cols.agms[..];
    AllZero(cols);
    cols.MergeColumns(c);
    var squares := cols.agms[..c.r_agms];
    var median := cols.GetMedian();
    r := Run(c.hll[..], c.agms[..], c.cm[..], squares, median);
    cols.Clean();
  }

  /** A collector that has seen nothing holds zeros. */
  lemma {:induction false} AllZero(c: SktCollector)
    requires Holds(c, [])
    ensures forall i :: 0 <= i < c.agms.Length ==> c.agms[i] == 0
  {
    forall i | 0 <= i < c.agms.Length
      ensures c.agms[i] == 0
    {
      var M := Pow2(c.p_agms);
      var (j, k) := RowMajor(i, c.r_agms, M);
      assert RowIs(c.agms[..], M, j, c.hash, c.AgmsSpecs()[j], []);
      assert c.agms[..][Idx(j, k, M)] == Cell(c.hash, c.AgmsSpecs()[j], [], k);
    }
  }

  /** The turns of a repetition: workers only, because all are joined before the first merge. */
  function Workers(threads: seq<nat>): (turns: seq<Turn>)
    ensures |turns| == |threads|
  {
    seq(|threads|, t requires 0 <= t < |threads| => Item(threads[t]))
  }

  /** One repetition: collect, merge, take the row squares, and clean everything. */
  method Repetition(cs: seq<SktCollector>, cols: SktCollector, input: seq<Word>, schedule: seq<nat>,
        ghost g: Settings) returns (run: Run)
    requires |cs| > 0 && SettingsOk(g) && Team(cs, g) && AllHold(cs, Nothing(|cs|)) && |input| % PER_BLOCK == 0
    requires Holds(cols, []) && cols.agms.Length == 2 * g.ar && cols.r_agms == g.ar > 0 && Footprint(cs) !! cols.Repr()
    modifies Footprint(cs), cols.Repr()
    ensures RunOf(run, g, input) && AllHold(cs, Nothing(|cs|)) && Holds(cols, [])
  {
    Compact(cs, input, |input| / PER_BLOCK, PER_BLOCK, Workers(schedule), g);
    run := Squares(cols, cs[0], g, input);
    CleanAll(cs, g);
  }

  /** The runs of the benchmark, or why there are none. */
  datatype Outcome = Refused | NothingMeasured | NoCollector | ShiftTooWide | Runs(runs: seq<Run>)

  /** The argument check. */
  predicate Admitted(items: nat, g: Settings) {
    items % PER_BLOCK == 0 && g.hp <= 16 && 1 <= g.ar <= 8 && 4 <= g.ap <= 16 && 1 <= g.cr <= 8 && 4 <= g.cp <= 16
  }

  /** All repetitions, each starting clean. */
  method Repeat(cs: seq<SktCollector>, cols: SktCollector, input: seq<Word>, repetitions: nat,
        schedule: nat -> seq<nat>, ghost g: Settings)
    returns (runs: seq<Run>)
    requires |cs| > 0 && SettingsOk(g) && Team(cs, g) && AllHold(cs, Nothing(|cs|)) && |input| % PER_BLOCK == 0
    requires Holds(cols, []) && cols.agms.Length == 2 * g.ar && cols.r_agms == g.ar > 0 && Footprint(cs) !! cols.Repr()
    modifies Footprint(cs), cols.Repr()
    ensures |runs| == repetitions
    ensures forall i :: 0 <= i < repetitions ==>
              RunOf(runs[i], g, input) && MomentsOf(runs[i], g, input)
  {
    runs := [];
    for r := 0 to repetitions
      invariant AllHold(cs, Nothing(|cs|)) && Holds(cols, [])
      invariant |runs| == r && forall i :: 0 <= i < r ==> RunOf(runs[i], g, input) && MomentsOf(runs[i], g, input)
    {
      var run := Repetition(cs, cols, input, schedule(r), g);
      RunMoments(run, g, input);
      runs := runs + [run];
    }
  }

  /**
   The benchmark, for any settings and a schedule per repetition. There is one collector per
   thread but at most one per block; with none, the program indexes an empty vector in its first
   repetition. Without bucket bits, collecting shifts a hash by its whole width. Without
   repetitions, the report indexes an empty vector of measurements.
   */
  method Bench(input: seq<Word>, threads: nat, repetitions: nat, schedule: nat -> seq<nat>,
        g: Settings) returns (o: Outcome)
    requires g.W >= 16 && forall w: Word :: g.hash(w) < Pow2(g.W)
    ensures o.Refused? <==> |input| % 8 != 0 || g.hp > 16 || g.ar < 1 || g.ar > 8 || g.ap < 4 || g.ap > 16
                            || g.cr < 1 || g.cr > 8 || g.cp < 4 || g.cp > 16
    ensures o.Runs? <==> !o.Refused? && repetitions > 0 && threads > 0 && input != [] && g.hp > 0
    ensures o.NothingMeasured? <==> !o.Refused? && repetitions == 0
    ensures o.NoCollector? <==> !o.Refused? && repetitions > 0 && (threads == 0 || input == [])
    ensures o.Runs? ==> |o.runs| == repetitions
    ensures o.Runs? ==> forall i :: 0 <= i < repetitions ==>
              RunOf(o.runs[i], g, input) && MomentsOf(o.runs[i], g, input)
  {
    if !Admitted(|input|, g) {
      return Refused;
    }
    var blocks := |input| / PER_BLOCK;
    var team := if blocks < threads then blocks else threads;
    if repetitions == 0 {
      return NothingMeasured;
    }
    if team == 0 {
      return NoCollector;
    }
    if g.hp == 0 {
      return ShiftTooWide;
    }
    var collectors := NewCollectors(team, g);
    ghost var foot: set<object> := Footprint(collectors);
    assert allocated(foot);
    var cols := NewColumns(g);
    var runs := Repeat(collectors, cols, input, repetitions, schedule, g);
    return Runs(runs);
  }
}
