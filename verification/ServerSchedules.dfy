/**
 Schedules of the server: what they make of all connections, turn by turn, and that every one
 of them can be continued to the end of all connections.
 */
module ServerSchedules {
  import opened Reassembly
  import opened Server
  import opened Connections

  // What a schedule does.

  /** A turn in one connection. */
  ghost function MovedBy(M: nat, v: Snapshot, move: Move): Snapshot {
    if Shape(M, v.state) then Moved(M, v, move) else v
  }

  /** The turn of a thread in connection `turn.0`; for a connection that does not exist, nothing. */
  ghost function MovedAt(M: nat, vs: seq<Snapshot>, turn: (nat, Move)): (r: seq<Snapshot>)
    ensures |r| == |vs|
  {
    if turn.0 < |vs| then vs[turn.0 := MovedBy(M, vs[turn.0], turn.1)] else vs
  }

  ghost function Moving(M: nat): (Snapshot, Move) -> Snapshot {
    (v: Snapshot, move: Move) => MovedBy(M, v, move)
  }

  ghost function MovingAll(M: nat): (seq<Snapshot>, (nat, Move)) -> seq<Snapshot> {
    (vs: seq<Snapshot>, turn: (nat, Move)) => MovedAt(M, vs, turn)
  }

  /** One turn after the other. */
  function Iterate<S, A>(step: (S, A) -> S, s: S, turns: seq<A>): S {
    if turns == [] then s else step(Iterate(step, s, turns[..|turns| - 1]), turns[|turns| - 1])
  }

  lemma {:induction false} IterateSnoc<S, A>(step: (S, A) -> S, s: S, turns: seq<A>, a: A)
    ensures Iterate(step, s, turns + [a]) == step(Iterate(step, s, turns), a)
  {
    assert (turns + [a])[..|turns|] == turns;
  }

  lemma {:induction false} IterateConcat<S, A>(step: (S, A) -> S, s: S, t: seq<A>, u: seq<A>)
    ensures Iterate(step, s, t + u) == Iterate(step, Iterate(step, s, t), u)
    decreases |u|
  {
    if u == [] {
      assert t + u == t;
    } else {
      var p, a := u[..|u| - 1], u[|u| - 1];
      IterateConcat(step, s, t, p);
      IterateSnoc(step, s, t + p, a);
      assert t + u == (t + p) + [a];
    }
  }

  /** All turns of a schedule. */
  ghost function Played(M: nat, vs: seq<Snapshot>, schedule: seq<(nat, Move)>): (r: seq<Snapshot>)
    ensures |r| == |vs|
  {
    SameNumber(M, vs, schedule);
    Iterate(MovingAll(M), vs, schedule)
  }

  lemma {:induction false} SameNumber(M: nat, vs: seq<Snapshot>, schedule: seq<(nat, Move)>)
    ensures |Iterate(MovingAll(M), vs, schedule)| == |vs|
    decreases |schedule|
  {
    if schedule != [] {
      SameNumber(M, vs, schedule[..|schedule| - 1]);
    }
  }

  lemma {:induction false} PlayedSnoc(M: nat, vs: seq<Snapshot>, schedule: seq<(nat, Move)>, turn: (nat, Move))
    ensures Played(M, vs, schedule + [turn]) == MovedAt(M, Played(M, vs, schedule), turn)
  {
    IterateSnoc(MovingAll(M), vs, schedule, turn);
  }

  lemma {:induction false} PlayedNext(M: nat, vs: seq<Snapshot>, schedule: seq<(nat, Move)>, t: nat)
    requires t < |schedule|
    ensures Played(M, vs, schedule[..t + 1]) == MovedAt(M, Played(M, vs, schedule[..t]), schedule[t])
  {
    assert schedule[..t + 1] == schedule[..t] + [schedule[t]];
    PlayedSnoc(M, vs, schedule[..t], schedule[t]);
  }

  lemma {:induction false} PlayedConcat(M: nat, vs: seq<Snapshot>, a: seq<(nat, Move)>, b: seq<(nat, Move)>)
    ensures Played(M, vs, a + b) == Played(M, Played(M, vs, a), b)
  {
    IterateConcat(MovingAll(M), vs, a, b);
  }

  /** All moves of one connection. */
  ghost function PlayedAlone(M: nat, v: Snapshot, moves: seq<Move>): Snapshot {
    Iterate(Moving(M), v, moves)
  }

  lemma {:induction false} AloneSnoc(M: nat, v: Snapshot, moves: seq<Move>, move: Move)
    ensures PlayedAlone(M, v, moves + [move]) == MovedBy(M, PlayedAlone(M, v, moves), move)
  {
    IterateSnoc(Moving(M), v, moves, move);
  }

  lemma {:induction false} AloneConcat(M: nat, v: Snapshot, a: seq<Move>, b: seq<Move>)
    ensures PlayedAlone(M, v, a + b) == PlayedAlone(M, PlayedAlone(M, v, a), b)
  {
    IterateConcat(Moving(M), v, a, b);
  }

  /** The moves of one connection as turns of a schedule. */
  function Tagged(i: nat, moves: seq<Move>): (turns: seq<(nat, Move)>)
    ensures |turns| == |moves|
  {
    seq(|moves|, t requires 0 <= t < |moves| => (i, moves[t]))
  }

  lemma {:induction false} PlayedTagged(M: nat, vs: seq<Snapshot>, i: nat, moves: seq<Move>)
    requires i < |vs|
    ensures Played(M, vs, Tagged(i, moves)) == vs[i := PlayedAlone(M, vs[i], moves)]
    decreases |moves|
  {
    if moves != [] {
      var p, move := moves[..|moves| - 1], moves[|moves| - 1];
      PlayedTagged(M, vs, i, p);
      PlayedSnoc(M, vs, Tagged(i, p), (i, move));
      AloneSnoc(M, vs[i], p, move);
      assert Tagged(i, moves) == Tagged(i, p) + [(i, move)] && moves == p + [move];
    }
  }

  // What every turn keeps.

  /** The protocol can get into this state, and every worker has collected the beginning of its job. */
  ghost predicate Sound(M: nat, stream: seq<Byte>, v: Snapshot) {
    Reached(M, stream, v.state) && InProgress(v.state.workers, v.state.jobs, v.parts, v.done)
  }

  lemma {:induction false} SoundStart(M: nat, stream: seq<Byte>)
    ensures Sound(M, stream, Start(M, stream))
  {
    ReachedInit(M, stream);
  }

  lemma {:induction false} ProgressProtocol(M: nat, stream: seq<Byte>, v: Snapshot, a: Action)
    requires Sound(M, stream, v) && Shape(M, v.state) && Ready(M, v, a)
    ensures var v' := Moved(M, v, Protocol(a));
            InProgress(v'.state.workers, v'.state.jobs, v'.parts, v'.done)
  {
    var s := v.state;
    match a {
      case PopFree =>
      case PushFull =>
      case EndOfStream =>
      case PushNull =>
      case Receive(n) =>
        ReachedFacts(M, stream, s);
        BufferFilled(s.workers, s.jobs, v.parts, v.done, s.receiver.b, Words(s.carry + s.incoming[..n]));
      case PopFull(w) => WorkerTurns(s.workers, s.jobs, v.parts, v.done, w, Got(s.full[0]));
      case PushFree(w) => WorkerTurns(s.workers, s.jobs, v.parts, v.done, w, Waiting);
      case Collect(w) => JobIsDone(s.workers, s.jobs, v.parts, v.done, w);
    }
  }

  lemma {:induction false} ProgressItem(M: nat, v: Snapshot, w: nat)
    requires Shape(M, v.state) && InProgress(v.state.workers, v.state.jobs, v.parts, v.done) && HasItem(v, w)
    ensures var v' := Moved(M, v, OneItem(w));
            v'.state == v.state && InProgress(v.state.workers, v.state.jobs, v'.parts, v'.done)
  {
    OneMoreItem(v.state.workers, v.state.jobs, v.parts, v.done, w);
  }

  lemma {:induction false} SoundMoved(M: nat, stream: seq<Byte>, v: Snapshot, move: Move)
    requires Sound(M, stream, v)
    ensures Shape(M, v.state) && Sound(M, stream, MovedBy(M, v, move))
  {
    ReachedAfter(M, stream, v, move);
    if move.Protocol? && Ready(M, v, move.a) {
      ProgressProtocol(M, stream, v, move.a);
    } else if move.OneItem? && HasItem(v, move.w) {
      ProgressItem(M, v, move.w);
    }
  }

  // Each connection comes to its end, and cannot be kept from it by turns that change something.

  /** The items worker `w` has still to collect of its job. */
  function ItemsOf(v: Snapshot, w: nat): nat {
    if HasItem(v, w) then |v.state.jobs[v.state.workers[w].b]| - v.done[w] else 0
  }

  function ItemsLeft(v: Snapshot, n: nat): nat {
    if n == 0 then 0 else ItemsLeft(v, n - 1) + ItemsOf(v, n - 1)
  }

  lemma {:induction false} ItemTaken(M: nat, v: Snapshot, w: nat, n: nat)
    requires Shape(M, v.state) && HasItem(v, w)
    ensures ItemsLeft(Moved(M, v, OneItem(w)), n) == ItemsLeft(v, n) - if w < n then 1 else 0
    decreases n
  {
    if n > 0 {
      ItemTaken(M, v, w, n - 1);
      var v' := Moved(M, v, OneItem(w));
      assert v'.state == v.state && v'.done == v.done[w := v.done[w] + 1];
      assert |v'.parts| == |v.parts|;
    }
  }

  /** A turn that changes something leaves fewer steps, or as many and fewer items. */
  lemma {:induction false} TurnDescends(M: nat, stream: seq<Byte>, v: Snapshot, move: Move)
    requires Sound(M, stream, v) && MovedBy(M, v, move) != v
    ensures var v' := MovedBy(M, v, move);
            || 0 <= StepsLeft(M, v'.state) < StepsLeft(M, v.state)
            || (v'.state == v.state && ItemsLeft(v', M) < ItemsLeft(v, M))
  {
    ReachedInv(M, stream, v.state);
    match move {
      case Protocol(a) => StepsLeftNext(M, stream, v.state, a);
      case OneItem(w) => ItemTaken(M, v, w, M);
    }
  }

  lemma {:induction false} EndStands(M: nat, v: Snapshot, move: Move)
    requires Final(M, v.state)
    ensures MovedBy(M, v, move) == v
  {
  }

  /** A worker whose job is not finished has an item to take. */
  lemma {:induction false} ItemWaits(M: nat, stream: seq<Byte>, v: Snapshot, w: nat)
    requires Sound(M, stream, v) && Shape(M, v.state) && Enabled(M, v.state, Collect(w)) && !Ready(M, v, Collect(w))
    ensures HasItem(v, w) && MovedBy(M, v, OneItem(w)) != v
  {
    assert PartOf(v.state.jobs[v.state.workers[w].b], v.parts[w], v.done[w]);
    assert MovedBy(M, v, OneItem(w)).done[w] != v.done[w];
  }

  /** Some turn changes something if and only if the connection is not at its end. */
  lemma {:induction false} TurnPossible(M: nat, stream: seq<Byte>, v: Snapshot)
    requires M > 0 && Sound(M, stream, v)
    ensures (exists move :: MovedBy(M, v, move) != v) <==> !Final(M, v.state)
  {
    if Final(M, v.state) {
      forall move
        ensures MovedBy(M, v, move) == v
      {
        EndStands(M, v, move);
      }
    } else {
      var move := SomeMove(M, stream, v);
    }
  }

  lemma {:induction false} SomeMove(M: nat, stream: seq<Byte>, v: Snapshot) returns (move: Move)
    requires M > 0 && Sound(M, stream, v) && !Final(M, v.state)
    ensures MovedBy(M, v, move) != v
  {
    ReachedInv(M, stream, v.state);
    NoDeadlock(M, stream, v.state);
    var a :| Enabled(M, v.state, a);
    if a.Collect? && !Ready(M, v, a) {
      move := OneItem(a.w);
      ItemWaits(M, stream, v, a.w);
    } else {
      move := Protocol(a);
      StepsLeftNext(M, stream, v.state, a);
    }
  }

  /** `k` items one after the other. */
  function Items(w: nat, k: nat): (moves: seq<Move>)
    ensures |moves| == k
  {
    seq(k, _ => OneItem(w))
  }

  lemma {:induction false} ItemsNext(M: nat, v: Snapshot, w: nat, k: nat)
    requires k > 0
    ensures PlayedAlone(M, v, Items(w, k)) == MovedBy(M, PlayedAlone(M, v, Items(w, k - 1)), OneItem(w))
  {
    assert Items(w, k) == Items(w, k - 1) + [OneItem(w)];
    AloneSnoc(M, v, Items(w, k - 1), OneItem(w));
  }

  /** Worker `w` is in a job with at least `k` items still to take. */
  predicate InJob(v: Snapshot, w: nat, k: nat) {
    && w < |v.state.workers| == |v.done| == |v.parts| && v.state.workers[w].Working?
    && v.state.workers[w].b < |v.state.jobs| && v.done[w] + k <= |v.state.jobs[v.state.workers[w].b]|
  }

  /** `u` is `v` after worker `w` has taken `k` items more. */
  ghost predicate Ahead(M: nat, stream: seq<Byte>, v: Snapshot, u: Snapshot, w: nat, k: nat)
    requires w < |v.done|
  {
    && Sound(M, stream, u) && u.state == v.state
    && u.done == v.done[w := v.done[w] + k] && |u.parts| == |v.parts|
  }

  lemma {:induction false} ItemCounted(M: nat, u: Snapshot, w: nat)
    requires Shape(M, u.state) && HasItem(u, w)
    ensures var u' := MovedBy(M, u, OneItem(w));
            u'.state == u.state && u'.done == u.done[w := u.done[w] + 1] && |u'.parts| == |u.parts|
  {
  }

  lemma {:induction false} ItemMoves(M: nat, stream: seq<Byte>, u: Snapshot, w: nat)
    requires Sound(M, stream, u) && InJob(u, w, 1)
    ensures var u' := MovedBy(M, u, OneItem(w));
            && Sound(M, stream, u') && u'.state == u.state
            && u'.done == u.done[w := u.done[w] + 1] && |u'.parts| == |u.parts|
  {
    SoundMoved(M, stream, u, OneItem(w));
    ItemCounted(M, u, w);
  }

  lemma {:induction false} AheadOn(M: nat, stream: seq<Byte>, v: Snapshot, u: Snapshot, u': Snapshot, w: nat, k: nat)
    requires w < |v.done| && Ahead(M, stream, v, u, w, k) && Sound(M, stream, u')
    requires u'.state == u.state && u'.done == u.done[w := u.done[w] + 1] && |u'.parts| == |u.parts|
    ensures Ahead(M, stream, v, u', w, k + 1)
  {
    assert u'.done == v.done[w := v.done[w] + (k + 1)];
  }

  lemma {:induction false} OneTaken(M: nat, stream: seq<Byte>, v: Snapshot, u: Snapshot, w: nat, k: nat)
    requires InJob(v, w, k + 1) && Ahead(M, stream, v, u, w, k)
    ensures Ahead(M, stream, v, MovedBy(M, u, OneItem(w)), w, k + 1)
  {
    ItemMoves(M, stream, u, w);
    AheadOn(M, stream, v, u, MovedBy(M, u, OneItem(w)), w, k);
  }

  lemma {:induction false} ItemsTaken(M: nat, stream: seq<Byte>, v: Snapshot, w: nat, k: nat)
    requires Sound(M, stream, v) && InJob(v, w, k)
    ensures Ahead(M, stream, v, PlayedAlone(M, v, Items(w, k)), w, k)
    decreases k
  {
    if k > 0 {
      ItemsTaken(M, stream, v, w, k - 1);
      ItemsNext(M, v, w, k);
      OneTaken(M, stream, v, PlayedAlone(M, v, Items(w, k - 1)), w, k - 1);
    }
  }

  lemma {:induction false} JobLeft(v: Snapshot, w: nat) returns (k: nat)
    requires InProgress(v.state.workers, v.state.jobs, v.parts, v.done)
    requires w < |v.state.workers| && v.state.workers[w].Working? && v.state.workers[w].b < |v.state.jobs|
    ensures InJob(v, w, k) && v.done[w] + k == |v.state.jobs[v.state.workers[w].b]|
  {
    var job := v.state.jobs[v.state.workers[w].b];
    assert PartOf(job, v.parts[w], v.done[w]);
    k := |job| - v.done[w];
  }

  lemma {:induction false} RestOfJob(M: nat, stream: seq<Byte>, v: Snapshot, w: nat) returns (items: seq<Move>)
    requires Sound(M, stream, v) && Shape(M, v.state) && Enabled(M, v.state, Collect(w))
    ensures var u := PlayedAlone(M, v, items); u.state == v.state && Sound(M, stream, u) && Ready(M, u, Collect(w))
  {
    var k := JobLeft(v, w);
    items := Items(w, k);
    ItemsTaken(M, stream, v, w, k);
  }

  /** A step of the protocol can be taken, by a worker that is in a job after the rest of its items. */
  lemma {:induction false} StepAttainable(M: nat, stream: seq<Byte>, v: Snapshot, a: Action) returns (moves: seq<Move>)
    requires Sound(M, stream, v) && Shape(M, v.state) && Enabled(M, v.state, a)
    ensures PlayedAlone(M, v, moves).state == Next(M, v.state, a) && Sound(M, stream, PlayedAlone(M, v, moves))
  {
    var items := [];
    if a.Collect? {
      items := RestOfJob(M, stream, v, a.w);
    }
    SoundMoved(M, stream, PlayedAlone(M, v, items), Protocol(a));
    moves := items + [Protocol(a)];
    AloneSnoc(M, v, items, Protocol(a));
  }

  /** As long as a connection is not at its end, some step of the protocol can be taken. */
  lemma {:induction false} EndAlone(M: nat, stream: seq<Byte>, v: Snapshot) returns (moves: seq<Move>)
    requires M > 0 && Sound(M, stream, v)
    ensures Final(M, PlayedAlone(M, v, moves).state)
    decreases StepsLeft(M, v.state)
  {
    moves := [];
    ReachedInv(M, stream, v.state);
    if !Final(M, v.state) {
      NoDeadlock(M, stream, v.state);
      var a :| Enabled(M, v.state, a);
      StepsLeftNext(M, stream, v.state, a);
      var first := StepAttainable(M, stream, v, a);
      var rest := EndAlone(M, stream, PlayedAlone(M, v, first));
      AloneConcat(M, v, first, rest);
      moves := first + rest;
    }
  }

  // All connections.

  ghost predicate AllSound(M: nat, streams: seq<seq<Byte>>, vs: seq<Snapshot>) {
    |streams| == |vs| && forall i :: 0 <= i < |vs| ==> Sound(M, streams[i], vs[i])
  }

  ghost predicate AllFinal(M: nat, vs: seq<Snapshot>) {
    forall i :: 0 <= i < |vs| ==> Final(M, vs[i].state)
  }

  function Starts(M: nat, streams: seq<seq<Byte>>): (r: seq<Snapshot>)
    ensures |r| == |streams|
  {
    seq(|streams|, i requires 0 <= i < |streams| => Start(M, streams[i]))
  }

  /** The state of all connections after a schedule. */
  ghost function AllAfter(M: nat, streams: seq<seq<Byte>>, schedule: seq<(nat, Move)>): (r: seq<Snapshot>)
    ensures |r| == |streams|
  {
    Played(M, Starts(M, streams), schedule)
  }

  lemma {:induction false} SoundAfter(M: nat, streams: seq<seq<Byte>>, schedule: seq<(nat, Move)>)
    ensures AllSound(M, streams, AllAfter(M, streams, schedule))
    decreases |schedule|
  {
    if schedule == [] {
      forall i | 0 <= i < |streams|
        ensures Sound(M, streams[i], Starts(M, streams)[i])
      {
        SoundStart(M, streams[i]);
      }
    } else {
      var p, turn := schedule[..|schedule| - 1], schedule[|schedule| - 1];
      SoundAfter(M, streams, p);
      PlayedSnoc(M, Starts(M, streams), p, turn);
      assert schedule == p + [turn];
      if turn.0 < |streams| {
        SoundMoved(M, streams[turn.0], AllAfter(M, streams, p)[turn.0], turn.1);
      }
    }
  }

  /** The first `n` connections are at their end, the others where they were. */
  ghost predicate Ended(M: nat, vs: seq<Snapshot>, us: seq<Snapshot>, n: nat)
    requires |us| == |vs|
  {
    forall i :: 0 <= i < |vs| ==> if i < n then Final(M, us[i].state) else us[i] == vs[i]
  }

  lemma {:induction false} EndOneMore(M: nat, vs: seq<Snapshot>, first: seq<(nat, Move)>, n: nat, moves: seq<Move>)
    requires n < |vs| && Ended(M, vs, Played(M, vs, first), n) && Final(M, PlayedAlone(M, vs[n], moves).state)
    ensures Ended(M, vs, Played(M, vs, first + Tagged(n, moves)), n + 1)
  {
    var us := Played(M, vs, first);
    PlayedTagged(M, us, n, moves);
    PlayedConcat(M, vs, first, Tagged(n, moves));
  }

  ghost predicate CanEnd(M: nat, v: Snapshot) {
    exists moves :: Final(M, PlayedAlone(M, v, moves).state)
  }

  /** The first `n` connections can be brought to their end. */
  lemma {:induction false} EndFirst(M: nat, vs: seq<Snapshot>, n: nat) returns (schedule: seq<(nat, Move)>)
    requires n <= |vs| && forall i :: 0 <= i < n ==> CanEnd(M, vs[i])
    ensures Ended(M, vs, Played(M, vs, schedule), n)
    decreases n
  {
    if n == 0 {
      schedule := [];
    } else {
      var first := EndFirst(M, vs, n - 1);
      assert CanEnd(M, vs[n - 1]);
      var moves :| Final(M, PlayedAlone(M, vs[n - 1], moves).state);
      EndOneMore(M, vs, first, n - 1, moves);
      schedule := first + Tagged(n - 1, moves);
    }
  }

  lemma {:induction false} AllCanEnd(M: nat, streams: seq<seq<Byte>>, vs: seq<Snapshot>)
    requires M > 0 && AllSound(M, streams, vs)
    ensures forall i :: 0 <= i < |vs| ==> CanEnd(M, vs[i])
  {
    forall i | 0 <= i < |vs|
      ensures CanEnd(M, vs[i])
    {
      var moves := EndAlone(M, streams[i], vs[i]);
    }
  }

  /** Whatever the threads have done so far, they can go on to the end of all connections. */
  lemma {:induction false} EndAttainable(M: nat, streams: seq<seq<Byte>>, schedule: seq<(nat, Move)>)
    requires M > 0
    ensures exists rest :: AllFinal(M, AllAfter(M, streams, schedule + rest))
  {
    SoundAfter(M, streams, schedule);
    AllCanEnd(M, streams, AllAfter(M, streams, schedule));
    var rest := EndFirst(M, AllAfter(M, streams, schedule), |streams|);
    PlayedConcat(M, Starts(M, streams), schedule, rest);
    assert AllFinal(M, AllAfter(M, streams, schedule + rest));
  }

}
