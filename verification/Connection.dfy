/**
 One connection of the server as it runs: the two queues, the buffers, the receiver's
 variables and the collectors of its workers, all updated in place.

 Workers collect item by item. Seen from the protocol (`View`) a job counts as collected
 when the last of its items is, so that every turn is a step of the protocol or none.
 */
module Connections {
  import opened Streams
  import opened Lanes
  import opened Reassembly
  import opened Server
  import opened Drivers

  /** The mutex-protected queue; `pop` waits until there is something to pop. */
  class JobQueue<T> {
    var queue: seq<T>

    constructor (n: nat, pool: seq<T>)
      requires |pool| == n
      ensures queue == pool
    {
      queue := pool;
    }

    method Pop() returns (res: T)
      requires queue != []
      modifies this
      ensures [res] + queue == old(queue)
    {
      res := queue[0];
      queue := queue[1..];
    }

    method Push(job: T)
      modifies this
      ensures queue == old(queue) + [job]
    {
      queue := queue + [job];
    }
  }

  // Buffers.

  function Buffers(pool: seq<Job>): (r: set<object>)
    ensures forall i :: 0 <= i < |pool| ==> pool[i] in r && pool[i].buf in r
  {
    if pool == [] then {} else Buffers(pool[..|pool| - 1]) + {pool[|pool| - 1], pool[|pool| - 1].buf}
  }

  ghost predicate Apart(pool: seq<Job>) {
    forall i, j :: 0 <= i < j < |pool| ==> {pool[i], pool[i].buf} !! {pool[j], pool[j].buf}
  }

  ghost predicate PoolOk(pool: seq<Job>)
    reads Buffers(pool)
  {
    forall i :: 0 <= i < |pool| ==> pool[i].buf.Length == 4 * JOB_SIZE && pool[i].cnt <= JOB_SIZE
  }

  ghost function Contents(pool: seq<Job>): (r: seq<seq<Word>>)
    requires PoolOk(pool)
    reads Buffers(pool)
    ensures |r| == |pool|
  {
    seq(|pool|, i requires 0 <= i < |pool| reads Buffers(pool) requires PoolOk(pool) => pool[i].Items())
  }

  /** Receive into one buffer. */
  method Fill(pool: seq<Job>, b: nat, cnt: nat, cy: Word, data: seq<Byte>) returns (cnt': nat, cy': Word)
    requires PoolOk(pool) && Apart(pool) && b < |pool| && cnt < 4 && 0 < |data| && cnt + |data| <= 4 * JOB_SIZE
    modifies pool[b], pool[b].buf
    ensures PoolOk(pool) && Contents(pool) == old(Contents(pool))[b := Words(ToBytes(cy)[..cnt] + data)]
    ensures cnt' < 4 && ToBytes(cy')[..cnt'] == Rest(ToBytes(cy)[..cnt] + data)
  {
    ghost var before := Contents(pool);
    cnt', cy' := pool[b].Receive(cnt, cy, data);
    forall i | 0 <= i < |pool|
      ensures pool[i].buf.Length == 4 * JOB_SIZE && pool[i].cnt <= JOB_SIZE
      ensures pool[i].Items() == if i == b then Words(ToBytes(cy)[..cnt] + data) else before[i]
    {
      if i != b {
        assert {pool[i], pool[i].buf} !! {pool[b], pool[b].buf};
        assert old(pool[i].Items()) == before[i];
      }
    }
    assert PoolOk(pool);
  }

  method NewPool(n: nat) returns (pool: seq<Job>)
    ensures |pool| == n && Apart(pool) && fresh(Buffers(pool))
    ensures PoolOk(pool) && Contents(pool) == seq(n, _ => [])
  {
    pool := [];
    for i := 0 to n
      invariant |pool| == i && Apart(pool) && fresh(Buffers(pool))
      invariant PoolOk(pool) && forall k :: 0 <= k < i ==> pool[k].cnt == 0
    {
      var job := new Job();
      assert (pool + [job])[..i] == pool;
      pool := pool + [job];
    }
  }

  // Jobs being collected.

  /** Worker `w` has collected the first `done[w]` items of the job it is working on. */
  ghost predicate InProgress(ws: seq<Worker>, jobs: seq<seq<Word>>, parts: seq<seq<Word>>, done: seq<nat>) {
    && |ws| == |parts| == |done|
    && forall w :: 0 <= w < |ws| ==>
         if ws[w].Working? && ws[w].b < |jobs| then PartOf(jobs[ws[w].b], parts[w], done[w]) else done[w] == 0
  }

  predicate PartOf(job: seq<Word>, part: seq<Word>, n: nat) {
    n <= |job| && n <= |part| && part[|part| - n..] == job[..n]
  }

  /** What the workers have collected, without the items of unfinished jobs. */
  function Whole(part: seq<Word>, n: nat): seq<Word> {
    if n <= |part| then part[..|part| - n] else []
  }

  function Wholes(parts: seq<seq<Word>>, done: seq<nat>): (r: seq<seq<Word>>)
    requires |parts| == |done|
    ensures |r| == |parts|
  {
    seq(|parts|, w requires 0 <= w < |parts| => Whole(parts[w], done[w]))
  }

  lemma {:induction false} OneMoreItem(ws: seq<Worker>, jobs: seq<seq<Word>>, parts: seq<seq<Word>>,
        done: seq<nat>, w: nat)
    requires InProgress(ws, jobs, parts, done) && w < |ws| && ws[w].Working? && ws[w].b < |jobs|
    requires done[w] < |jobs[ws[w].b]|
    ensures var parts', done' := parts[w := parts[w] + [jobs[ws[w].b][done[w]]]], done[w := done[w] + 1];
            InProgress(ws, jobs, parts', done') && Wholes(parts', done') == Wholes(parts, done)
  {
    var job, part, n := jobs[ws[w].b], parts[w], done[w];
    var parts', done' := parts[w := part + [job[n]]], done[w := n + 1];
    assert PartOf(job, part, n);
    assert job[..n + 1] == job[..n] + [job[n]];
    assert PartOf(job, part + [job[n]], n + 1) && Whole(part + [job[n]], n + 1) == Whole(part, n);
    assert Wholes(parts', done') == Wholes(parts, done);
  }

  lemma {:induction false} JobIsDone(ws: seq<Worker>, jobs: seq<seq<Word>>, parts: seq<seq<Word>>,
        done: seq<nat>, w: nat)
    requires InProgress(ws, jobs, parts, done) && w < |ws| && ws[w].Working? && ws[w].b < |jobs|
    requires done[w] == |jobs[ws[w].b]|
    ensures InProgress(ws[w := Returning(ws[w].b)], jobs, parts, done[w := 0])
    ensures Wholes(parts, done[w := 0]) == Wholes(parts, done)[w := Wholes(parts, done)[w] + jobs[ws[w].b]]
  {
    var job, part, n := jobs[ws[w].b], parts[w], done[w];
    assert PartOf(job, part, n);
    assert Whole(part, 0) == part == Whole(part, n) + job;
  }

  /** A worker that is not in the middle of a job takes up something else. */
  lemma {:induction false} WorkerTurns(ws: seq<Worker>, jobs: seq<seq<Word>>, parts: seq<seq<Word>>,
        done: seq<nat>, w: nat, x: Worker)
    requires InProgress(ws, jobs, parts, done) && w < |ws| && !ws[w].Working?
    ensures InProgress(ws[w := x], jobs, parts, done)
  {
    var part := parts[w];
    assert part[|part| - 0..] == [];
    assert x.Working? && x.b < |jobs| ==> PartOf(jobs[x.b], part, 0);
  }

  /** A buffer that nobody works on is filled. */
  lemma {:induction false} BufferFilled(ws: seq<Worker>, jobs: seq<seq<Word>>, parts: seq<seq<Word>>,
        done: seq<nat>, b: nat, job: seq<Word>)
    requires InProgress(ws, jobs, parts, done) && b < |jobs|
    requires forall w :: 0 <= w < |ws| && ws[w].Working? ==> ws[w].b != b
    ensures InProgress(ws, jobs[b := job], parts, done)
  {
    forall w | 0 <= w < |ws| && ws[w].Working? && ws[w].b < |jobs|
      ensures jobs[b := job][ws[w].b] == jobs[ws[w].b]
    {
    }
  }

  // The variables of a connection.

  /**
   What receiver and workers share and keep, except the buffers and the collectors themselves:
   of these the ghost fields `jobs` and `parts` say what they hold.
   */
  class Connection {
    const M: nat                            // number of workers
    const free: JobQueue<nat>
    const full: JobQueue<Option<nat>>
    ghost const repr: set<object>           // the connection, its queues and its buffers
    var incoming: seq<Byte>                 // what the network has still to deliver
    var cnt: nat                            // carried bytes: the first `cnt` of `cy`
    var cy: Word
    var items: nat                          // itemCount
    var receiver: Receiver
    var workers: seq<Worker>
    var done: seq<nat>                      // how far each worker is in its job
    ghost var jobs: seq<seq<Word>>
    ghost var parts: seq<seq<Word>>
    ghost var received: seq<Byte>
    ghost var pushed: seq<seq<Word>>
    ghost var owners: seq<nat>

    ghost predicate Valid()
      reads this
    {
      && {this as object} !! {free as object} !! {full as object}
      && cnt < 4 && |workers| == M && InProgress(workers, jobs, parts, done)
    }

    ghost function View(): State
      requires Valid()
      reads this, free, full
    {
      State(received, incoming, ToBytes(cy)[..cnt], free.queue, full.queue, receiver, workers,
            jobs, Wholes(parts, done), items, pushed, owners)
    }

    /** The carry `cy` is not initialised, and not read either while `cnt` is zero. */
    constructor (M: nat, stream: seq<Byte>, ghost buffers: set<object>)
      ensures Valid() && View() == Init(M, stream) && this.M == M && parts == Nothing(M) && done == seq(M, _ => 0)
      ensures fresh(this) && fresh(free) && fresh(full) && repr == {this, free, full} + buffers
    {
      this.M := M;
      free := new JobQueue<nat>(M + 1, Range(M + 1));
      full := new JobQueue<Option<nat>>(0, []);
      incoming, cnt, cy, items := stream, 0, *, 0;
      receiver, workers, done := Popping, seq(M, _ => Waiting), seq(M, _ => 0);
      jobs, parts, received, pushed, owners := seq(M + 1, _ => []), Nothing(M), [], [], [];
      repr := {this, free, full} + buffers;
      new;
      assert Wholes(parts, done) == seq(M, _ => []);
    }

    /** Whether a step of the protocol is possible, by the variables themselves. */
    predicate Able(a: Action)
      requires Valid()
      reads this, free, full
      ensures Able(a) <==> Enabled(M, View(), a)
    {
      match a
      case PopFree => receiver.Popping? && free.queue != []
      case Receive(n) => receiver.Holding? && 0 < n <= |incoming| && cnt + n <= 4 * JOB_SIZE
      case PushFull => receiver.Filled?
      case EndOfStream => receiver.Holding? && incoming == []
      case PushNull => receiver.Ending? && receiver.sent < M
      case PopFull(w) => w < |workers| && workers[w].Waiting? && full.queue != []
      case Collect(w) => w < |workers| && workers[w].Working?
      case PushFree(w) => w < |workers| && workers[w].Returning?
    }

    method PopFree()
      requires Valid() && Shape(M, View()) && Enabled(M, View(), Action.PopFree)
      modifies this, free
      ensures Valid() && View() == Next(M, old(View()), Action.PopFree) && parts == old(parts) && done == old(done)
    {
      var b := free.Pop();
      receiver := Holding(b);
    }

    /** `n` bytes have been received behind the carried ones into the receiver's buffer. */
    method Receive(n: nat, cnt': nat, cy': Word)
      requires Valid() && Shape(M, View()) && Enabled(M, View(), Action.Receive(n))
      requires forall w :: 0 <= w < M && workers[w].Working? ==> workers[w].b != receiver.b
      requires cnt' < 4 && ToBytes(cy')[..cnt'] == Rest(ToBytes(cy)[..cnt] + incoming[..n])
      modifies this
      ensures Valid() && View() == Next(M, old(View()), Action.Receive(n)) && parts == old(parts) && done == old(done)
      ensures jobs == old(jobs[receiver.b := Words(ToBytes(cy)[..cnt] + incoming[..n])])
    {
      ghost var job := Words(ToBytes(cy)[..cnt] + incoming[..n]);
      BufferFilled(workers, jobs, parts, done, receiver.b, job);
      jobs, received := jobs[receiver.b := job], received + incoming[..n];
      cnt, cy, receiver, incoming := cnt', cy', Filled(receiver.b), incoming[n..];
    }

    method PushFull()
      requires Valid() && Shape(M, View()) && Enabled(M, View(), Action.PushFull)
      modifies this, full
      ensures Valid() && View() == Next(M, old(View()), Action.PushFull) && parts == old(parts) && done == old(done)
    {
      pushed := pushed + [jobs[receiver.b]];
      full.Push(Some(receiver.b));
      receiver := Popping;
    }

    method EndOfStream()
      requires Valid() && Shape(M, View()) && Enabled(M, View(), Action.EndOfStream)
      modifies this
      ensures Valid() && View() == Next(M, old(View()), Action.EndOfStream) && parts == old(parts) && done == old(done)
    {
      receiver := Ending(receiver.b, 0);
    }

    method PushNull()
      requires Valid() && Shape(M, View()) && Enabled(M, View(), Action.PushNull)
      modifies this, full
      ensures Valid() && View() == Next(M, old(View()), Action.PushNull) && parts == old(parts) && done == old(done)
    {
      full.Push(None);
      receiver := Ending(receiver.b, receiver.sent + 1);
    }

    method PopFull(w: nat)
      requires Valid() && Shape(M, View()) && Enabled(M, View(), Action.PopFull(w))
      modifies this, full
      ensures Valid() && View() == Next(M, old(View()), Action.PopFull(w)) && parts == old(parts) && done == old(done)
    {
      var job := full.Pop();
      WorkerTurns(workers, jobs, parts, done, w, Got(job));
      workers := workers[w := Got(job)];
      if job.Some? {
        owners := owners + [w];
      }
    }

    /** The worker's collector has taken the next item of the job. */
    method ItemDone(w: nat)
      requires Valid() && w < M && workers[w].Working? && workers[w].b < |jobs| && done[w] < |jobs[workers[w].b]|
      modifies this`done, this`parts
      ensures Valid() && View() == old(View()) && done == old(done)[w := old(done[w]) + 1]
      ensures parts == old(parts)[w := old(parts[w]) + [jobs[workers[w].b][old(done[w])]]]
    {
      OneMoreItem(workers, jobs, parts, done, w);
      parts, done := parts[w := parts[w] + [jobs[workers[w].b][done[w]]]], done[w := done[w] + 1];
    }

    /** The worker has collected all of its job, which has `size` items. */
    method Collect(w: nat, size: nat)
      requires Valid() && Shape(M, View()) && Enabled(M, View(), Action.Collect(w))
      requires done[w] == size == |jobs[workers[w].b]|
      modifies this
      ensures Valid() && View() == Next(M, old(View()), Action.Collect(w)) && parts == old(parts) && jobs == old(jobs)
      ensures done == old(done)[w := 0]
    {
      JobIsDone(workers, jobs, parts, done, w);
      items := items + size;
      workers, done := workers[w := Returning(workers[w].b)], done[w := 0];
    }

    method PushFree(w: nat)
      requires Valid() && Shape(M, View()) && Enabled(M, View(), Action.PushFree(w))
      modifies this, free
      ensures Valid() && View() == Next(M, old(View()), Action.PushFree(w)) && parts == old(parts) && done == old(done)
    {
      WorkerTurns(workers, jobs, parts, done, w, Waiting);
      free.Push(workers[w].b);
      workers := workers[w := Waiting];
    }
  }

  // A connection with its buffers.

  function Own(c: Connection): set<object> {
    {c, c.free, c.full}
  }

  ghost predicate Stored(pool: seq<Job>, jobs: seq<seq<Word>>)
    reads Buffers(pool)
  {
    PoolOk(pool) && Contents(pool) == jobs
  }

  lemma {:induction false} JobSizes(pool: seq<Job>, jobs: seq<seq<Word>>, b: nat)
    requires Stored(pool, jobs) && b < |pool|
    ensures |jobs| == |pool| && pool[b].Items() == jobs[b] && |jobs[b]| == pool[b].cnt
  {
    assert Contents(pool)[b] == pool[b].Items();
  }

  /** The step can be taken: a job is collected when all of its items are. */
  predicate Now(c: Connection, pool: seq<Job>, a: Action)
    requires c.Valid()
    reads c, c.free, c.full, Buffers(pool)
  {
    c.Able(a) && (a.Collect? ==> c.workers[a.w].b < |pool| && c.done[a.w] == pool[c.workers[a.w].b].cnt)
  }

  /** A step of the protocol that needs no buffers. */
  method Signal(c: Connection, a: Action)
    requires c.Valid() && Shape(c.M, c.View()) && Enabled(c.M, c.View(), a) && !a.Receive? && !a.Collect?
    modifies Own(c)
    ensures c.Valid() && c.View() == Next(c.M, old(c.View()), a)
    ensures c.parts == old(c.parts) && c.jobs == old(c.jobs) && c.done == old(c.done)
  {
    match a {
      case PopFree => c.PopFree();
      case PushFull => c.PushFull();
      case EndOfStream => c.EndOfStream();
      case PushNull => c.PushNull();
      case PopFull(w) => c.PopFull(w);
      case PushFree(w) => c.PushFree(w);
    }
  }

  /** Receive into the receiver's buffer, on which nobody works. */
  method ReceiveInto(c: Connection, pool: seq<Job>, n: nat)
    requires Own(c) !! Buffers(pool) && Apart(pool) && c.Valid() && Stored(pool, c.jobs)
    requires Shape(c.M, c.View()) && Enabled(c.M, c.View(), Receive(n))
    requires forall w :: 0 <= w < c.M && c.workers[w].Working? ==> c.workers[w].b != c.receiver.b
    modifies Own(c), Buffers(pool)
    ensures c.Valid() && Stored(pool, c.jobs) && c.View() == Next(c.M, old(c.View()), Receive(n))
    ensures c.parts == old(c.parts) && c.done == old(c.done)
  {
    var cnt', cy' := Fill(pool, c.receiver.b, c.cnt, c.cy, c.incoming[..n]);
    c.Receive(n, cnt', cy');
  }

  method Complete(c: Connection, pool: seq<Job>, w: nat)
    requires Own(c) !! Buffers(pool) && c.Valid() && Stored(pool, c.jobs)
    requires Shape(c.M, c.View()) && Now(c, pool, Collect(w))
    modifies Own(c)
    ensures c.Valid() && c.View() == Next(c.M, old(c.View()), Collect(w))
    ensures c.parts == old(c.parts) && c.jobs == old(c.jobs) && c.done == old(c.done)[w := 0]
  {
    var size := pool[c.workers[w].b].cnt;
    assert size == |c.jobs[c.workers[w].b]| by {
      JobSizes(pool, c.jobs, c.workers[w].b);
    }
    c.Collect(w, size);
  }

  /** A step of the protocol. */
  method Step(c: Connection, pool: seq<Job>, a: Action)
    requires Own(c) !! Buffers(pool) && Apart(pool) && c.Valid() && Stored(pool, c.jobs)
    requires Shape(c.M, c.View()) && Now(c, pool, a)
    requires a.Receive? ==> forall w :: 0 <= w < c.M && c.workers[w].Working? ==> c.workers[w].b != c.receiver.b
    modifies Own(c), Buffers(pool)
    ensures c.Valid() && Stored(pool, c.jobs) && c.View() == Next(c.M, old(c.View()), a)
    ensures c.parts == old(c.parts) && c.done == if a.Collect? then old(c.done)[a.w := 0] else old(c.done)
  {
    if a.Receive? {
      ReceiveInto(c, pool, a.n);
    } else if a.Collect? {
      Complete(c, pool, a.w);
    } else {
      Signal(c, a);
    }
  }

  /** Fetch the next item of a worker's job. */
  method NextItem(c: Connection, pool: seq<Job>, w: nat) returns (x: Word)
    requires Own(c) !! Buffers(pool) && c.Valid() && Stored(pool, c.jobs)
    requires w < c.M && c.workers[w].Working? && c.workers[w].b < |pool| && c.done[w] < pool[c.workers[w].b].cnt
    modifies Own(c)
    ensures c.Valid() && Stored(pool, c.jobs) && c.View() == old(c.View())
    ensures c.done == old(c.done)[w := old(c.done[w]) + 1]
    ensures c.parts == old(c.parts)[w := old(c.parts[w]) + [x]]
  {
    var b := c.workers[w].b;
    JobSizes(pool, c.jobs, b);
    x := pool[b].Items()[c.done[w]];
    c.ItemDone(w);
  }

  // What a connection can get into.

  /** The protocol can get into state `s`. */
  ghost predicate Reached(M: nat, stream: seq<Byte>, s: State) {
    exists run :: IsRun(M, stream, run) && run[|run| - 1] == s
  }

  lemma {:induction false} ReachedInit(M: nat, stream: seq<Byte>)
    ensures Reached(M, stream, Init(M, stream))
  {
    var run := [Init(M, stream)];
    assert IsRun(M, stream, run) && run[|run| - 1] == Init(M, stream);
  }

  lemma {:induction false} ReachedInv(M: nat, stream: seq<Byte>, s: State)
    requires Reached(M, stream, s)
    ensures Inv(M, stream, s)
  {
    var run :| IsRun(M, stream, run) && run[|run| - 1] == s;
    RunInv(M, stream, run, |run| - 1);
  }

  lemma {:induction false} RunGrows(M: nat, stream: seq<Byte>, run: seq<State>, t: State)
    requires IsRun(M, stream, run) && StepTo(M, run[|run| - 1], t)
    ensures IsRun(M, stream, run + [t]) && Reached(M, stream, t)
  {
    var more := run + [t];
    forall i | 0 <= i < |more| - 1
      ensures StepTo(M, more[i], more[i + 1])
    {
      if i < |run| - 1 {
        assert more[i] == run[i] && more[i + 1] == run[i + 1];
      }
    }
    assert more[|more| - 1] == t;
  }

  lemma {:induction false} ReachedNext(M: nat, stream: seq<Byte>, s: State, a: Action)
    requires Reached(M, stream, s) && Shape(M, s) && Enabled(M, s, a)
    ensures Reached(M, stream, Next(M, s, a))
  {
    var run :| IsRun(M, stream, run) && run[|run| - 1] == s;
    RunGrows(M, stream, run, Next(M, s, a));
  }

  /** What a step needs to know. */
  lemma {:induction false} ReachedFacts(M: nat, stream: seq<Byte>, s: State)
    requires Reached(M, stream, s)
    ensures Shape(M, s)
    ensures !s.receiver.Popping? ==> forall w :: 0 <= w < M && s.workers[w].Working? ==> s.workers[w].b != s.receiver.b
  {
    ReachedInv(M, stream, s);
    if !s.receiver.Popping? {
      ReceiverAlone(M, s.free, s.full, s.receiver, s.workers);
    }
  }

  // Turns.

  /** A connection with its buffers. */
  datatype Party = Party(c: Connection, pool: seq<Job>)

  ghost predicate Built(p: Party, M: nat) {
    && Own(p.c) !! Buffers(p.pool) && p.c.repr == Own(p.c) + Buffers(p.pool)
    && Apart(p.pool) && |p.pool| == M + 1 && p.c.M == M
  }

  /** The state of the protocol, what the collectors have seen, and how far each worker is in its job. */
  datatype Snapshot = Snapshot(state: State, parts: seq<seq<Word>>, done: seq<nat>)

  ghost predicate IsAt(p: Party, v: Snapshot)
    requires Built(p, p.c.M)
    reads p.c.repr
  {
    p.c.Valid() && p.c.View() == v.state && p.c.parts == v.parts && p.c.done == v.done && Stored(p.pool, v.state.jobs)
  }

  /** A step of the protocol, or one item more for a worker that is in a job. */
  datatype Move = Protocol(a: Action) | OneItem(w: nat)

  /** A job counts as collected when all of its items are. */
  predicate Ready(M: nat, v: Snapshot, a: Action) {
    && Enabled(M, v.state, a)
    && (a.Collect? ==>
          var b := v.state.workers[a.w].b;
          a.w < |v.done| && b < |v.state.jobs| && v.done[a.w] == |v.state.jobs[b]|)
  }

  predicate HasItem(v: Snapshot, w: nat) {
    && w < |v.state.workers| == |v.done| == |v.parts| && v.state.workers[w].Working?
    && v.state.workers[w].b < |v.state.jobs| && v.done[w] < |v.state.jobs[v.state.workers[w].b]|
  }

  /** The item that goes into a collector with a move. */
  function ItemOf(v: Snapshot, move: Move): Option<(nat, Word)> {
    if move.OneItem? && HasItem(v, move.w) then
      Some((move.w, v.state.jobs[v.state.workers[move.w].b][v.done[move.w]]))
    else None
  }

  function Added(parts: seq<seq<Word>>, item: Option<(nat, Word)>): seq<seq<Word>> {
    if item.Some? && item.value.0 < |parts| then parts[item.value.0 := parts[item.value.0] + [item.value.1]] else parts
  }

  /** What a move does. One that is not possible does nothing. */
  function Moved(M: nat, v: Snapshot, move: Move): Snapshot
    requires Shape(M, v.state)
  {
    match move
    case Protocol(a) =>
      if Ready(M, v, a) then
        Snapshot(Next(M, v.state, a), v.parts, if a.Collect? then v.done[a.w := 0] else v.done)
      else v
    case OneItem(w) =>
      if HasItem(v, w) then Snapshot(v.state, Added(v.parts, ItemOf(v, move)), v.done[w := v.done[w] + 1]) else v
  }

  lemma {:induction false} ReachedAfter(M: nat, stream: seq<Byte>, v: Snapshot, move: Move)
    requires Reached(M, stream, v.state)
    ensures Shape(M, v.state) && Reached(M, stream, Moved(M, v, move).state)
    ensures Moved(M, v, move).parts == Added(v.parts, ItemOf(v, move))
  {
    ReachedFacts(M, stream, v.state);
    if move.Protocol? && Ready(M, v, move.a) {
      ReachedNext(M, stream, v.state, move.a);
    }
  }

  method ProtocolTurn(p: Party, a: Action, ghost v: Snapshot, ghost stream: seq<Byte>)
    requires Built(p, p.c.M) && IsAt(p, v) && Reached(p.c.M, stream, v.state) && Shape(p.c.M, v.state)
    modifies p.c.repr
    ensures IsAt(p, Moved(p.c.M, v, Protocol(a)))
  {
    if p.c.Able(a) {
      if a.Collect? {
        JobSizes(p.pool, p.c.jobs, p.c.workers[a.w].b);
      }
      if !a.Collect? || p.c.done[a.w] == p.pool[p.c.workers[a.w].b].cnt {
        ReachedFacts(p.c.M, stream, v.state);
        Step(p.c, p.pool, a);
      }
    }
  }

  method ItemTurn(p: Party, w: nat, ghost v: Snapshot) returns (item: Option<(nat, Word)>)
    requires Built(p, p.c.M) && IsAt(p, v) && Shape(p.c.M, v.state)
    modifies p.c.repr
    ensures IsAt(p, Moved(p.c.M, v, OneItem(w))) && item == ItemOf(v, OneItem(w))
  {
    item := None;
    if w < p.c.M && p.c.workers[w].Working? {
      JobSizes(p.pool, p.c.jobs, p.c.workers[w].b);
      if p.c.done[w] < p.pool[p.c.workers[w].b].cnt {
        var x := NextItem(p.c, p.pool, w);
        item := Some((w, x));
      }
    }
  }

  /** A worker's item is returned, because it has still to go into the worker's collector. */
  method TakeTurn(p: Party, move: Move, ghost v: Snapshot, ghost stream: seq<Byte>) returns (item: Option<(nat, Word)>)
    requires Built(p, p.c.M) && IsAt(p, v) && Reached(p.c.M, stream, v.state) && Shape(p.c.M, v.state)
    modifies p.c.repr
    ensures IsAt(p, Moved(p.c.M, v, move)) && item == ItemOf(v, move)
  {
    item := None;
    match move {
      case Protocol(a) => ProtocolTurn(p, a, v, stream);
      case OneItem(w) => item := ItemTurn(p, w, v);
    }
  }

  /** Receiver and workers have ended. */
  predicate Over(c: Connection)
    requires c.Valid()
    reads c, c.free, c.full
    ensures Over(c) <==> Final(c.M, c.View())
  {
    c.receiver.Ending? && c.receiver.sent == c.M && forall w :: 0 <= w < |c.workers| ==> c.workers[w].Stopped?
  }

  function Start(M: nat, stream: seq<Byte>): Snapshot {
    Snapshot(Init(M, stream), Nothing(M), seq(M, _ => 0))
  }

  method Connect(M: nat, stream: seq<Byte>) returns (p: Party)
    ensures Built(p, M) && fresh(p.c.repr) && IsAt(p, Start(M, stream))
  {
    var pool := NewPool(M + 1);
    ghost var jobs := Contents(pool);
    ghost var foot: set<object> := Buffers(pool);
    assert allocated(foot);
    var c := new Connection(M, stream, Buffers(pool));
    p := Party(c, pool);
    assert PoolOk(pool) && Contents(pool) == jobs;
    assert jobs == Init(M, stream).jobs;
  }

  /** When all workers have stopped no job is unfinished. */
  lemma {:induction false} AllWhole(ws: seq<Worker>, jobs: seq<seq<Word>>, parts: seq<seq<Word>>, done: seq<nat>)
    requires InProgress(ws, jobs, parts, done) && forall w :: 0 <= w < |ws| ==> ws[w].Stopped?
    ensures Wholes(parts, done) == parts
  {
    forall w | 0 <= w < |ws|
      ensures Whole(parts[w], done[w]) == parts[w]
    {
      assert done[w] == 0;
    }
  }

  lemma {:induction false} EndParts(p: Party, v: Snapshot)
    requires Built(p, p.c.M) && IsAt(p, v) && Final(p.c.M, v.state)
    ensures v.parts == v.state.collected
  {
    AllWhole(p.c.workers, p.c.jobs, p.c.parts, p.c.done);
  }
}
