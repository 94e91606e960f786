/**
 What the server computes: however its threads interleave, item by item and over all
 connections, the merged tables are those of one collector that has seen all words of all
 streams.
 */
module ServerResult {
  import opened Streams
  import opened Monoids
  import opened Lanes
  import opened Network
  import opened Sketches
  import opened Reassembly
  import opened SoftwareCollector
  import opened Drivers
  import opened Connections
  import opened Server
  import opened ServerSchedules
  import BitSlices

  // What has been delivered.

  /** The words of all streams, connection by connection. */
  function AllWords(streams: seq<seq<Byte>>): seq<Word> {
    if streams == [] then [] else AllWords(streams[..|streams| - 1]) + Words(streams[|streams| - 1])
  }

  /** What the collectors have seen, connection by connection. */
  function AllCollected(finals: seq<State>): seq<seq<Word>> {
    if finals == [] then [] else AllCollected(finals[..|finals| - 1]) + finals[|finals| - 1].collected
  }

  function ItemCount(finals: seq<State>): nat {
    if finals == [] then 0 else ItemCount(finals[..|finals| - 1]) + finals[|finals| - 1].items
  }

  /** Every connection has gone through some run to its end. */
  ghost predicate AllServed(M: nat, streams: seq<seq<Byte>>, finals: seq<State>) {
    && |streams| == |finals|
    && forall t :: 0 <= t < |finals| ==> Reached(M, streams[t], finals[t]) && Final(M, finals[t])
  }

  lemma {:induction false} BothDelivered(a: seq<seq<Word>>, b: seq<seq<Word>>, s: seq<Word>, t: seq<Word>)
    requires multiset(Flatten(a)) == multiset(s) && multiset(Flatten(b)) == multiset(t)
    ensures multiset(Flatten(a + b)) == multiset(s + t)
  {
    FlattenConcat(a, b);
  }

  lemma {:induction false} OneMoreDelivered(streams: seq<seq<Byte>>, finals: seq<State>)
    requires 0 < |streams| == |finals|
    ensures var n := |finals| - 1;
            && AllCollected(finals) == AllCollected(finals[..n]) + finals[n].collected
            && AllWords(streams) == AllWords(streams[..n]) + Words(streams[n])
            && ItemCount(finals) == ItemCount(finals[..n]) + finals[n].items
  {
  }

  lemma {:induction false} AllDelivered(M: nat, streams: seq<seq<Byte>>, finals: seq<State>)
    requires M > 0 && AllServed(M, streams, finals)
    ensures multiset(Flatten(AllCollected(finals))) == multiset(AllWords(streams))
    ensures ItemCount(finals) == |AllWords(streams)|
    decreases |finals|
  {
    if finals != [] {
      var n := |finals| - 1;
      var a, b := AllCollected(finals[..n]), finals[n].collected;
      var s, t := AllWords(streams[..n]), Words(streams[n]);
      AllDelivered(M, streams[..n], finals[..n]);
      OneDelivered(M, streams[n], finals[n]);
      BothDelivered(a, b, s, t);
      OneMoreDelivered(streams, finals);
    }
  }

  lemma {:induction false} OneDelivered(M: nat, stream: seq<Byte>, s: State)
    requires M > 0 && Reached(M, stream, s) && Final(M, s)
    ensures multiset(Flatten(s.collected)) == multiset(Words(stream)) && s.items == |Words(stream)|
  {
    ReachedInv(M, stream, s);
    Delivered(M, stream, s);
  }

  /** A table depends only on the multiset of the items. */
  lemma {:induction false} RowsPermuted(t: seq<int>, M: nat, specs: seq<RowSpec>, hash: Word -> nat,
        a: seq<Word>, b: seq<Word>)
    requires forall j :: 0 <= j < |specs| ==> RowSpecOk(specs[j])
    requires RowsHold(t, M, specs, hash, a) && multiset(a) == multiset(b)
    ensures RowsHold(t, M, specs, hash, b)
  {
    forall j, k | 0 <= j < |specs| && 0 <= k < M
      ensures Idx(j, k, M) < |t| && t[Idx(j, k, M)] == Cell(hash, specs[j], b, k)
    {
      assert RowIs(t, M, j, hash, specs[j], a);
      CellPermutation(hash, specs[j], a, b, k);
    }
  }

  /** Merge all partial tables into the first. */
  method MergeAll(cs: seq<SktCollector>, ghost parts: seq<seq<Word>>, ghost g: Settings)
    requires |cs| > 0 && Team(cs, g) && AllHold(cs, parts)
    modifies Footprint(cs)
    ensures AllHold(cs, parts[0 := Flatten(parts)])
  {
    FlattenSnoc([], parts[0]);
    assert [] + [parts[0]] == parts[..1];
    assert Flatten(parts[..1]) == parts[0];
    for i := 1 to |cs|
      invariant AllHold(cs, parts[0 := Flatten(parts[..i])])
    {
      MergeOne(cs, i, parts[0 := Flatten(parts[..i])], g);
      assert parts[..i + 1] == parts[..i] + [parts[i]];
      FlattenSnoc(parts[..i], parts[i]);
      assert parts[0 := Flatten(parts[..i])][0 := Flatten(parts[..i]) + parts[i]]
             == parts[0 := Flatten(parts[..i + 1])];
    }
    assert parts[..|cs|] == parts;
  }

  /** The tables of `c` are the sketch of `words`. */
  ghost predicate Sketch(c: SktCollector, words: seq<Word>)
    reads c.Repr()
  {
    c.Sized() && c.Represent(c.hll[..], c.agms[..], c.cm[..], words)
  }

  /** Tables are the sketch of the items in any order. */
  lemma {:induction false} Resketch(c: SktCollector, words: seq<Word>)
    requires c.Valid() && multiset(c.items) == multiset(words)
    ensures Sketch(c, words)
  {
    HllRowOk(c.W, c.p_hll);
    RowsPermuted(c.hll[..], Pow2(c.p_hll), [c.HllSpec()], c.hash, c.items, words);
    AgmsRowsOk(c.r_agms, c.p_agms, COUNTER_BITS);
    RowsPermuted(c.agms[..], Pow2(c.p_agms), c.AgmsSpecs(), c.hash, c.items, words);
    CmRowsOk(c.r_cm, c.p_cm, COUNTER_BITS);
    RowsPermuted(c.cm[..], Pow2(c.p_cm), c.CmSpecs(), c.hash, c.items, words);
  }

  /** Merge the collectors of all connections into the first. */
  method Compact(cs: seq<SktCollector>, M: nat, ghost streams: seq<seq<Byte>>, ghost finals: seq<State>,
        ghost g: Settings)
    requires M > 0 && |streams| > 0 && AllServed(M, streams, finals) && |cs| > 0
    requires SettingsOk(g) && Team(cs, g) && AllHold(cs, AllCollected(finals))
    modifies Footprint(cs)
    ensures Sketch(cs[0], AllWords(streams))
  {
    AllDelivered(M, streams, finals);
    ghost var parts := AllCollected(finals);
    MergeAll(cs, parts, g);
    assert Holds(cs[0], Flatten(parts));
    Resketch(cs[0], AllWords(streams));
  }

  // All connections.

  /** Connections of their own, with all of their objects in `room`. */
  ghost predicate AllBuilt(ps: seq<Party>, M: nat, room: set<object>) {
    && (forall i :: 0 <= i < |ps| ==> Built(ps[i], M) && ps[i].c.repr <= room)
    && forall i, j :: 0 <= i < j < |ps| ==> ps[i].c.repr !! ps[j].c.repr
  }

  /** Connection `i` and its buffers are as `vs[i]` says. */
  ghost predicate AllAt(ps: seq<Party>, M: nat, room: set<object>, vs: seq<Snapshot>)
    requires AllBuilt(ps, M, room)
    reads room
  {
    |ps| == |vs| && forall i :: 0 <= i < |ps| ==> IsAt(ps[i], vs[i])
  }

  /** The protocol can get into all of these states. */
  ghost predicate AllReached(M: nat, streams: seq<seq<Byte>>, vs: seq<Snapshot>) {
    |streams| == |vs| && forall i :: 0 <= i < |vs| ==> Reached(M, streams[i], vs[i].state)
  }

  /** It is the turn of one thread of one connection; the other connections do not notice. */
  method TurnOf(ps: seq<Party>, i: nat, move: Move, ghost M: nat, ghost room: set<object>,
        ghost streams: seq<seq<Byte>>, ghost vs: seq<Snapshot>)
    returns (item: Option<(nat, Word)>)
    requires AllBuilt(ps, M, room) && AllAt(ps, M, room, vs) && AllReached(M, streams, vs)
    requires i < |ps| && Shape(M, vs[i].state)
    modifies ps[i].c.repr
    ensures AllAt(ps, M, room, vs[i := Moved(M, vs[i], move)]) && item == ItemOf(vs[i], move)
  {
    assert IsAt(ps[i], vs[i]);
    item := TakeTurn(ps[i], move, vs[i], streams[i]);
    forall k | 0 <= k < |ps| && k != i
      ensures IsAt(ps[k], vs[k])
    {
      assert ps[i].c.repr !! ps[k].c.repr;
      assert old(IsAt(ps[k], vs[k]));
    }
  }

  // The collectors, M to a connection.

  ghost predicate Regular<T>(ss: seq<seq<T>>, M: nat) {
    forall i :: 0 <= i < |ss| ==> |ss[i]| == M
  }

  lemma {:induction false} FlattenRegular<T>(ss: seq<seq<T>>, M: nat)
    requires Regular(ss, M)
    ensures |Flatten(ss)| == |ss| * M
    decreases |ss|
  {
    if ss != [] {
      FlattenRegular(ss[..|ss| - 1], M);
      NextMultiple(|ss| - 1, M);
    }
  }

  /** Element `w` of part `i` comes after all elements of the parts before. */
  lemma {:induction false} FlattenUpdate<T>(ss: seq<seq<T>>, i: nat, w: nat, v: T)
    requires i < |ss| && w < |ss[i]|
    ensures var whole, k := Flatten(ss), |Flatten(ss[..i])| + w;
            k < |whole| && whole[k] == ss[i][w] && Flatten(ss[i := ss[i][w := v]]) == whole[k := v]
    decreases |ss|
  {
    var n := |ss| - 1;
    var p, ss' := ss[..n], ss[i := ss[i][w := v]];
    if i < n {
      FlattenUpdate(p, i, w, v);
      assert ss'[..n] == p[i := p[i][w := v]] && p[..i] == ss[..i];
    } else {
      assert ss'[..n] == p;
    }
  }

  /** What the collectors have seen, connection by connection. */
  function PartsIn(vs: seq<Snapshot>): (r: seq<seq<seq<Word>>>)
    ensures |r| == |vs|
  {
    seq(|vs|, i requires 0 <= i < |vs| => vs[i].parts)
  }

  /** The objects of all collectors are in `foot`, and these have seen `parts`. */
  ghost predicate BankHolds(collectors: seq<SktCollector>, foot: set<object>, parts: seq<seq<seq<Word>>>)
    requires Footprint(collectors) <= foot
    reads foot
  {
    AllHold(collectors, Flatten(parts))
  }

  /** An item for worker `w` of connection `i` is one for collector `i * M + w`. */
  lemma {:induction false} AddedAt(parts: seq<seq<seq<Word>>>, M: nat, i: nat, item: (nat, Word))
    requires Regular(parts, M) && i < |parts| && item.0 < M
    ensures var whole, k := Flatten(parts), i * M + item.0;
            k < |whole| && Flatten(parts[i := Added(parts[i], Some(item))]) == whole[k := whole[k] + [item.1]]
  {
    var (w, x) := item;
    assert |parts[i]| == M;
    FlattenRegular(parts[..i], M);
    FlattenUpdate(parts, i, w, parts[i][w] + [x]);
  }

  /** One item for worker `w` of connection `i`. */
  method CollectAt(collectors: seq<SktCollector>, ghost foot: set<object>, i: nat, item: Option<(nat, Word)>, M: nat,
                   ghost parts: seq<seq<seq<Word>>>, ghost g: Settings)
    requires i < |parts| && Regular(parts, M) && (item.Some? ==> item.value.0 < M) && SettingsOk(g)
    requires Footprint(collectors) <= foot && Team(collectors, g) && BankHolds(collectors, foot, parts)
    modifies foot
    ensures BankHolds(collectors, foot, parts[i := Added(parts[i], item)])
  {
    if item.Some? {
      AddedAt(parts, M, i, item.value);
      CollectOne(collectors, i * M + item.value.0, item.value.1, Flatten(parts), g);
    } else {
      assert parts[i := parts[i]] == parts;
    }
  }

  lemma {:induction false} ReachedUpdate(M: nat, streams: seq<seq<Byte>>, vs: seq<Snapshot>, i: nat, v: Snapshot)
    requires i < |vs| && AllReached(M, streams, vs) && Reached(M, streams[i], v.state)
    ensures AllReached(M, streams, vs[i := v])
  {
  }

  lemma {:induction false} PartsUpdate(M: nat, vs: seq<Snapshot>, i: nat, v: Snapshot, item: Option<(nat, Word)>)
    requires i < |vs| && Regular(PartsIn(vs), M) && v.parts == Added(vs[i].parts, item)
    ensures Regular(PartsIn(vs[i := v]), M)
    ensures PartsIn(vs[i := v]) == PartsIn(vs)[i := Added(PartsIn(vs)[i], item)]
  {
    assert |PartsIn(vs)[i]| == M;
    var parts := PartsIn(vs)[i := Added(PartsIn(vs)[i], item)];
    assert PartsIn(vs[i := v]) == parts && Regular(parts, M);
  }

  lemma {:induction false} MoveKeeps(M: nat, streams: seq<seq<Byte>>, vs: seq<Snapshot>, turn: (nat, Move))
    requires turn.0 < |vs| && AllReached(M, streams, vs) && Regular(PartsIn(vs), M)
    ensures Shape(M, vs[turn.0].state)
    ensures AllReached(M, streams, MovedAt(M, vs, turn)) && Regular(PartsIn(MovedAt(M, vs, turn)), M)
    ensures PartsIn(MovedAt(M, vs, turn))
         == PartsIn(vs)[turn.0 := Added(PartsIn(vs)[turn.0], ItemOf(vs[turn.0], turn.1))]
  {
    var (i, move) := turn;
    ReachedAfter(M, streams[i], vs[i], move);
    ReachedUpdate(M, streams, vs, i, Moved(M, vs[i], move));
    PartsUpdate(M, vs, i, Moved(M, vs[i], move), ItemOf(vs[i], move));
  }

  /** Connections and collectors are where the snapshots say, and these are states the protocol can reach. */
  ghost predicate At(ps: seq<Party>, collectors: seq<SktCollector>, room: set<object>, foot: set<object>, M: nat,
                     streams: seq<seq<Byte>>, vs: seq<Snapshot>)
    requires AllBuilt(ps, M, room) && Footprint(collectors) <= foot
    reads room, foot
  {
    && AllAt(ps, M, room, vs) && BankHolds(collectors, foot, PartsIn(vs))
    && AllReached(M, streams, vs) && Regular(PartsIn(vs), M)
  }

  /** A turn of one thread of one connection, and of the collector it belongs to. */
  method TurnAt(ps: seq<Party>, collectors: seq<SktCollector>, ghost room: set<object>, ghost foot: set<object>,
                turn: (nat, Move), M: nat, ghost streams: seq<seq<Byte>>, ghost vs: seq<Snapshot>, ghost g: Settings)
    requires AllBuilt(ps, M, room) && Footprint(collectors) <= foot && room !! foot
    requires Team(collectors, g) && SettingsOk(g)
    requires At(ps, collectors, room, foot, M, streams, vs)
    modifies room, foot
    ensures At(ps, collectors, room, foot, M, streams, MovedAt(M, vs, turn))
  {
    if turn.0 < |ps| {
      MoveKeeps(M, streams, vs, turn);
      var item := TurnOf(ps, turn.0, turn.1, M, room, streams, vs);
      CollectAt(collectors, foot, turn.0, item, M, PartsIn(vs), g);
    }
  }

  /** Play a schedule: whose turn it is, and what to do. */
  method Play(ps: seq<Party>, collectors: seq<SktCollector>, ghost room: set<object>, ghost foot: set<object>,
              schedule: seq<(nat, Move)>, M: nat, ghost streams: seq<seq<Byte>>, ghost start: seq<Snapshot>,
              ghost g: Settings)
    requires AllBuilt(ps, M, room) && Footprint(collectors) <= foot && room !! foot
    requires Team(collectors, g) && SettingsOk(g)
    requires At(ps, collectors, room, foot, M, streams, start)
    modifies room, foot
    ensures At(ps, collectors, room, foot, M, streams, Played(M, start, schedule))
  {
    for t := 0 to |schedule|
      invariant At(ps, collectors, room, foot, M, streams, Played(M, start, schedule[..t]))
    {
      TurnAt(ps, collectors, room, foot, schedule[t], M, streams, Played(M, start, schedule[..t]), g);
      PlayedNext(M, start, schedule, t);
    }
    assert schedule[..|schedule|] == schedule;
  }

  // From the beginning to the end.

  method AddParty(ps: seq<Party>, ghost room: set<object>, ghost vs: seq<Snapshot>, M: nat,
        stream: seq<Byte>) returns (p: Party)
    requires AllBuilt(ps, M, room) && AllAt(ps, M, room, vs)
    ensures fresh(p.c.repr) && AllBuilt(ps + [p], M, room + p.c.repr)
    ensures AllAt(ps + [p], M, room + p.c.repr, vs + [Start(M, stream)])
  {
    assert forall k :: 0 <= k < |ps| ==> IsAt(ps[k], vs[k]);
    assert allocated(room);
    p := Connect(M, stream);
    assert room !! p.c.repr;
    forall k | 0 <= k < |ps|
      ensures ps[k].c.repr !! p.c.repr && IsAt(ps[k], vs[k])
    {
      assert old(IsAt(ps[k], vs[k]));
    }
  }

  method ConnectAll(M: nat, streams: seq<seq<Byte>>) returns (ps: seq<Party>, ghost room: set<object>)
    ensures |ps| == |streams| && fresh(room) && AllBuilt(ps, M, room) && AllAt(ps, M, room, Starts(M, streams))
  {
    ps, room := [], {};
    for i := 0 to |streams|
      invariant |ps| == i && fresh(room) && AllBuilt(ps, M, room) && AllAt(ps, M, room, Starts(M, streams)[..i])
    {
      var p := AddParty(ps, room, Starts(M, streams)[..i], M, streams[i]);
      ps, room := ps + [p], room + p.c.repr;
      assert Starts(M, streams)[..i + 1] == Starts(M, streams)[..i] + [Start(M, streams[i])];
    }
    assert Starts(M, streams)[..|streams|] == Starts(M, streams);
  }

  lemma {:induction false} StartsOk(M: nat, streams: seq<seq<Byte>>)
    ensures AllReached(M, streams, Starts(M, streams)) && Regular(PartsIn(Starts(M, streams)), M)
    ensures Flatten(PartsIn(Starts(M, streams))) == Nothing(|streams| * M)
  {
    forall i | 0 <= i < |streams|
      ensures Reached(M, streams[i], Starts(M, streams)[i].state)
    {
      ReachedInit(M, streams[i]);
    }
    NothingYet(PartsIn(Starts(M, streams)), M);
  }

  lemma {:induction false} NothingYet(parts: seq<seq<seq<Word>>>, M: nat)
    requires forall i :: 0 <= i < |parts| ==> parts[i] == Nothing(M)
    ensures Flatten(parts) == Nothing(|parts| * M)
    decreases |parts|
  {
    if parts != [] {
      NothingYet(parts[..|parts| - 1], M);
      NextMultiple(|parts| - 1, M);
    }
  }

  function States(vs: seq<Snapshot>): (r: seq<State>)
    ensures |r| == |vs|
  {
    seq(|vs|, i requires 0 <= i < |vs| => vs[i].state)
  }

  lemma {:induction false} CollectedIsParts(parts: seq<seq<seq<Word>>>, finals: seq<State>)
    requires |parts| == |finals| && forall i :: 0 <= i < |parts| ==> parts[i] == finals[i].collected
    ensures Flatten(parts) == AllCollected(finals)
    decreases |parts|
  {
    if parts != [] {
      CollectedIsParts(parts[..|parts| - 1], finals[..|finals| - 1]);
    }
  }

  lemma {:induction false} EndCollected(ps: seq<Party>, M: nat, room: set<object>, vs: seq<Snapshot>)
    requires AllBuilt(ps, M, room) && AllAt(ps, M, room, vs) && AllFinal(M, vs)
    ensures Flatten(PartsIn(vs)) == AllCollected(States(vs))
  {
    forall i | 0 <= i < |vs|
      ensures PartsIn(vs)[i] == States(vs)[i].collected
    {
      EndParts(ps[i], vs[i]);
    }
    CollectedIsParts(PartsIn(vs), States(vs));
  }

  method Look(p: Party, ghost v: Snapshot) returns (over: bool, items: nat)
    requires Built(p, p.c.M) && IsAt(p, v)
    ensures (over <==> Final(p.c.M, v.state)) && items == v.state.items
  {
    over, items := Over(p.c), p.c.items;
  }

  lemma {:induction false} OneMoreState(M: nat, vs: seq<Snapshot>, i: nat)
    requires i < |vs|
    ensures AllFinal(M, vs[..i + 1]) <==> AllFinal(M, vs[..i]) && Final(M, vs[i].state)
    ensures ItemCount(States(vs[..i + 1])) == ItemCount(States(vs[..i])) + vs[i].state.items
  {
    assert vs[..i + 1] == vs[..i] + [vs[i]];
    assert States(vs[..i + 1])[..i] == States(vs[..i]);
  }

  /** Wait for all threads: whether all connections have ended, and how many items they have counted. */
  method Join(ps: seq<Party>, ghost M: nat, ghost room: set<object>,
        ghost vs: seq<Snapshot>) returns (over: bool, items: nat)
    requires AllBuilt(ps, M, room) && AllAt(ps, M, room, vs)
    ensures over <==> AllFinal(M, vs)
    ensures items == ItemCount(States(vs))
  {
    over, items := true, 0;
    for i := 0 to |ps|
      invariant over <==> AllFinal(M, vs[..i])
      invariant items == ItemCount(States(vs[..i]))
    {
      var o, n := Look(ps[i], vs[i]);
      OneMoreState(M, vs, i);
      over, items := over && o, items + n;
    }
    assert vs[..|ps|] == vs;
  }

  /** All connections, from their beginning through the schedule, with the given collectors. */
  method RunAll(collectors: seq<SktCollector>, ghost foot: set<object>, streams: seq<seq<Byte>>, M: nat,
                schedule: seq<(nat, Move)>, ghost g: Settings)
    returns (over: bool, items: nat)
    requires Footprint(collectors) <= foot && allocated(foot) && Team(collectors, g) && SettingsOk(g)
    requires AllHold(collectors, Nothing(|streams| * M))
    modifies foot
    ensures var vs := AllAfter(M, streams, schedule);
            && AllReached(M, streams, vs) && BankHolds(collectors, foot, PartsIn(vs))
            && (over <==> AllFinal(M, vs)) && items == ItemCount(States(vs))
            && (over ==> Flatten(PartsIn(vs)) == AllCollected(States(vs)))
  {
    var ps;
    ghost var room;
    ps, room := ConnectAll(M, streams);
    StartsOk(M, streams);
    Play(ps, collectors, room, foot, schedule, M, streams, Starts(M, streams), g);
    ghost var vs := AllAfter(M, streams, schedule);
    over, items := Join(ps, M, room, vs);
    if over {
      EndCollected(ps, M, room, vs);
    }
  }

  /**
   The server: a team of M workers with a collector each for every connection. For every schedule
   of all threads, item by item, there is a result exactly if the schedule has brought all
   connections to their end. It is the sketch of all words of all streams, and their number.
   */
  method Serve(streams: seq<seq<Byte>>, M: nat, schedule: seq<(nat, Move)>, g: Settings)
    returns (first: Option<SktCollector>, items: nat)
    requires M > 0 && |streams| > 0 && SettingsOk(g)
    ensures first.Some? <==> AllFinal(M, AllAfter(M, streams, schedule))
    ensures first.Some? ==> Made(first.value, g) && fresh(first.value.Repr())
    ensures first.Some? ==> Sketch(first.value, AllWords(streams)) && items == |AllWords(streams)|
  {
    BitSlices.MulMonotone(1, |streams|, M);
    var collectors := NewCollectors(|streams| * M, g);
    var over;
    over, items := RunAll(collectors, Footprint(collectors), streams, M, schedule, g);
    if !over {
      return None, items;
    }
    ghost var finals := States(AllAfter(M, streams, schedule));
    AllDelivered(M, streams, finals);
    Compact(collectors, M, streams, finals, g);
    return Some(collectors[0]), items;
  }
}
