/**
 The TCP server's job protocol: one receiver and M workers pass M + 1 buffers around
 through a queue of free and a queue of full ones.

 Every push and pop is one atomic step. The steps of receiver and workers interleave in
 any order, and each `recv` may return any number of bytes.
 */
module Server {
  import opened Streams
  import opened Lanes
  import opened Reassembly

  // The protocol.

  datatype Receiver =
    | Popping                               // at jobsFree.pop()
    | Holding(b: nat)                       // at recv()
    | Filled(b: nat)                        // at jobsFull.push()
    | Ending(b: nat, sent: nat)             // behind the loop, some null jobs pushed

  datatype Worker = Waiting | Working(b: nat) | Returning(b: nat) | Stopped

  datatype State = State(
    received: seq<Byte>,                    // history: all of the stream that recv() has returned
    incoming: seq<Byte>,                    // not yet received
    carry: seq<Byte>,
    free: seq<nat>,
    full: seq<Option<nat>>,                 // None is the null job
    receiver: Receiver,
    workers: seq<Worker>,
    jobs: seq<seq<Word>>,                   // the contents of the buffers
    collected: seq<seq<Word>>,              // what each worker's collector has seen
    items: nat,                             // itemCount
    pushed: seq<seq<Word>>,                 // history: the jobs pushed so far
    owners: seq<nat>)                       // history: the worker each popped job went to

  datatype Action =
    | PopFree | Receive(n: nat) | PushFull | EndOfStream | PushNull     // the receiver
    | PopFull(w: nat) | Collect(w: nat) | PushFree(w: nat)              // a worker

  predicate Enabled(M: nat, s: State, a: Action) {
    match a
    case PopFree => s.receiver.Popping? && s.free != []
    case Receive(n) => s.receiver.Holding? && 0 < n <= |s.incoming| && |s.carry| + n <= 4 * JOB_SIZE
    case PushFull => s.receiver.Filled?
    case EndOfStream => s.receiver.Holding? && s.incoming == []
    case PushNull => s.receiver.Ending? && s.receiver.sent < M
    case PopFull(w) => w < |s.workers| && s.workers[w].Waiting? && s.full != []
    case Collect(w) => w < |s.workers| && s.workers[w].Working?
    case PushFree(w) => w < |s.workers| && s.workers[w].Returning?
  }

  /** A worker stops when it pops a null job. */
  function Got(job: Option<nat>): Worker {
    match job case None => Stopped case Some(b) => Working(b)
  }

  function Init(M: nat, stream: seq<Byte>): State {
    State([], stream, [], Range(M + 1), [], Popping, seq(M, _ => Waiting),
          seq(M + 1, _ => []), seq(M, _ => []), 0, [], [])
  }

  function Range(n: nat): (r: seq<nat>)
    ensures |r| == n
  {
    seq(n, i requires 0 <= i < n => i)
  }

  function Next(M: nat, s: State, a: Action): State
    requires Shape(M, s) && Enabled(M, s, a)
  {
    match a
    case PopFree => s.(receiver := Holding(s.free[0]), free := s.free[1..])
    case Receive(n) =>
      var bytes := s.carry + s.incoming[..n];
      s.(received := s.received + s.incoming[..n], incoming := s.incoming[n..], carry := Rest(bytes),
         jobs := s.jobs[s.receiver.b := Words(bytes)], receiver := Filled(s.receiver.b))
    case PushFull =>
      s.(full := s.full + [Some(s.receiver.b)], pushed := s.pushed + [s.jobs[s.receiver.b]], receiver := Popping)
    case EndOfStream => s.(receiver := Ending(s.receiver.b, 0))
    case PushNull => s.(full := s.full + [None], receiver := Ending(s.receiver.b, s.receiver.sent + 1))
    case PopFull(w) =>
      s.(full := s.full[1..], workers := s.workers[w := Got(s.full[0])],
         owners := if s.full[0].Some? then s.owners + [w] else s.owners)
    case Collect(w) =>
      var b := s.workers[w].b;
      s.(collected := s.collected[w := s.collected[w] + s.jobs[b]], items := s.items + |s.jobs[b]|,
         workers := s.workers[w := Returning(b)])
    case PushFree(w) => s.(free := s.free + [s.workers[w].b], workers := s.workers[w := Waiting])
  }

  // Where the buffers are.

  function Is(b: nat): nat -> nat {
    (x: nat) => if x == b then 1 else 0
  }

  function IsJob(b: nat): Option<nat> -> nat {
    (o: Option<nat>) => if o == Some(b) then 1 else 0
  }

  function Has(b: nat): Worker -> nat {
    (w: Worker) => if HasBuffer(w) && w.b == b then 1 else 0
  }

  function AtReceiver(r: Receiver, b: nat): nat {
    if !r.Popping? && r.b == b then 1 else 0
  }

  predicate HasBuffer(w: Worker) {
    w.Working? || w.Returning?
  }

  /** How often buffer `b` is around. */
  function Copies(b: nat, free: seq<nat>, full: seq<Option<nat>>, r: Receiver, ws: seq<Worker>): nat {
    SumOver(Is(b), free) + SumOver(IsJob(b), full) + AtReceiver(r, b) + SumOver(Has(b), ws)
  }

  /** Every buffer is in exactly one place. */
  ghost predicate OnePlace(M: nat, free: seq<nat>, full: seq<Option<nat>>, r: Receiver, ws: seq<Worker>) {
    forall b :: 0 <= b <= M ==> Copies(b, free, full, r, ws) == 1
  }

  // The rest of the invariant.

  ghost predicate Shape(M: nat, s: State) {
    && |s.workers| == |s.collected| == M && |s.jobs| == M + 1
    && |s.carry| < 4
    && (s.receiver.Ending? ==> s.incoming == [])
    && (!s.receiver.Popping? ==> s.receiver.b <= M)
    && (forall w :: 0 <= w < M && HasBuffer(s.workers[w]) ==> s.workers[w].b <= M)
    && (forall i :: 0 <= i < |s.full| && s.full[i].Some? ==> s.full[i].value <= M)
    && (forall i :: 0 <= i < |s.free| ==> s.free[i] <= M)
  }

  /** What has been received so far, in whole words, is what has been put into jobs. */
  ghost predicate StreamInv(stream: seq<Byte>, received: seq<Byte>, incoming: seq<Byte>, carry: seq<Byte>,
        words: seq<Word>) {
    received + incoming == stream && carry == Rest(received) && Words(received) == words
  }

  /** The words of a job that is filled but not yet pushed. */
  function Unpushed(r: Receiver, jobs: seq<seq<Word>>): seq<Word> {
    if r.Filled? && r.b < |jobs| then jobs[r.b] else []
  }

  function IsReal(): Option<nat> -> nat {
    (o: Option<nat>) => if o.Some? then 1 else 0
  }

  /** The number of jobs in the queue, not counting null jobs. */
  function Queued(full: seq<Option<nat>>): nat {
    SumOver(IsReal(), full)
  }

  function Len(): seq<Word> -> nat {
    (s: seq<Word>) => |s|
  }

  /** The full queue holds the pushed jobs not yet popped, in order, and then null jobs. */
  ghost predicate QueueInv(full: seq<Option<nat>>, jobs: seq<seq<Word>>, pushed: seq<seq<Word>>, popped: nat) {
    && popped + Queued(full) == |pushed|
    && (forall i :: 0 <= i < |full| && full[i].Some? ==>
          popped + i < |pushed| && full[i].value < |jobs| && jobs[full[i].value] == pushed[popped + i])
    && (forall i, j :: 0 <= i < j < |full| && full[i].None? ==> full[j].None?)
  }

  function Stops(): Worker -> nat {
    (w: Worker) => if w.Stopped? then 1 else 0
  }

  function Sent(r: Receiver): nat {
    if r.Ending? then r.sent else 0
  }

  /** Null jobs are neither lost nor made up, and none is around before the stream has ended. */
  ghost predicate NullInv(M: nat, full: seq<Option<nat>>, r: Receiver, ws: seq<Worker>) {
    && Sent(r) <= M
    && (!r.Ending? ==> forall i :: 0 <= i < |full| ==> full[i].Some?)
    && |full| - Queued(full) + SumOver(Stops(), ws) == Sent(r)
    && (forall w :: 0 <= w < |ws| && ws[w].Stopped? ==> r.Ending? && Queued(full) == 0)
  }

  // Who gets which job.

  /** The words of the popped jobs that went to worker `w`. */
  function TakenBy(pushed: seq<seq<Word>>, owners: seq<nat>, w: nat): seq<Word> {
    if owners == [] then []
    else
      var n := |owners| - 1;
      TakenBy(pushed, owners[..n], w) + if owners[n] == w && n < |pushed| then pushed[n] else []
  }

  function InWork(w: Worker, jobs: seq<seq<Word>>): seq<Word> {
    if w.Working? && w.b < |jobs| then jobs[w.b] else []
  }

  /** Every popped job has been collected by the worker that popped it, or is about to be. */
  ghost predicate CollectInv(M: nat, pushed: seq<seq<Word>>, owners: seq<nat>, ws: seq<Worker>, jobs: seq<seq<Word>>,
                             collected: seq<seq<Word>>, items: nat)
  {
    && |owners| <= |pushed| && |ws| == |collected| == M
    && (forall k :: 0 <= k < |owners| ==> owners[k] < M)
    && (forall w :: 0 <= w < M ==> collected[w] + InWork(ws[w], jobs) == TakenBy(pushed, owners, w))
    && items == SumOver(Len(), collected)
  }

  ghost predicate Inv(M: nat, stream: seq<Byte>, s: State) {
    && Shape(M, s)
    && OnePlace(M, s.free, s.full, s.receiver, s.workers)
    && StreamInv(stream, s.received, s.incoming, s.carry, Flatten(s.pushed) + Unpushed(s.receiver, s.jobs))
    && QueueInv(s.full, s.jobs, s.pushed, |s.owners|)
    && NullInv(M, s.full, s.receiver, s.workers)
    && CollectInv(M, s.pushed, s.owners, s.workers, s.jobs, s.collected, s.items)
  }

  // Every step keeps every buffer in one place.

  /** The receiver's buffer is nobody else's. */
  lemma {:induction false} ReceiverAlone(M: nat, free: seq<nat>, full: seq<Option<nat>>, r: Receiver, ws: seq<Worker>)
    requires OnePlace(M, free, full, r, ws) && !r.Popping? && r.b <= M
    ensures forall i :: 0 <= i < |full| && full[i].Some? ==> full[i].value != r.b
    ensures forall w :: 0 <= w < |ws| && HasBuffer(ws[w]) ==> ws[w].b != r.b
  {
    var b := r.b;
    assert Copies(b, free, full, r, ws) == 1;
    forall i | 0 <= i < |full| && full[i].Some?
      ensures full[i].value != b
    {
      SumOverMember(IsJob(b), full, i);
    }
    forall w | 0 <= w < |ws| && HasBuffer(ws[w])
      ensures ws[w].b != b
    {
      SumOverMember(Has(b), ws, w);
    }
  }

  lemma {:induction false} PlacePopFree(M: nat, free: seq<nat>, full: seq<Option<nat>>, ws: seq<Worker>)
    requires OnePlace(M, free, full, Popping, ws) && free != []
    ensures OnePlace(M, free[1..], full, Holding(free[0]), ws)
  {
    forall b | 0 <= b <= M
      ensures Copies(b, free[1..], full, Holding(free[0]), ws) == 1
    {
      assert Copies(b, free, full, Popping, ws) == 1;
      SumOverCons(Is(b), free);
    }
  }

  lemma {:induction false} PlacePush(M: nat, free: seq<nat>, full: seq<Option<nat>>, r: Receiver,
        x: Option<nat>, r': Receiver, ws: seq<Worker>)
    requires OnePlace(M, free, full, r, ws)
    requires forall b :: 0 <= b <= M ==> AtReceiver(r, b) == IsJob(b)(x) + AtReceiver(r', b)
    ensures OnePlace(M, free, full + [x], r', ws)
  {
    forall b | 0 <= b <= M
      ensures Copies(b, free, full + [x], r', ws) == 1
    {
      assert Copies(b, free, full, r, ws) == 1;
      assert AtReceiver(r, b) == IsJob(b)(x) + AtReceiver(r', b);
      SumOverSnoc(IsJob(b), full, x);
    }
  }

  lemma {:induction false} PlacePopFull(M: nat, free: seq<nat>, full: seq<Option<nat>>, r: Receiver,
        ws: seq<Worker>, w: nat)
    requires OnePlace(M, free, full, r, ws) && full != [] && w < |ws| && ws[w].Waiting?
    ensures OnePlace(M, free, full[1..], r, ws[w := Got(full[0])])
  {
    var rest, ws' := full[1..], ws[w := Got(full[0])];
    forall b | 0 <= b <= M
      ensures Copies(b, free, rest, r, ws') == 1
    {
      assert Copies(b, free, full, r, ws) == 1;
      SumOverCons(IsJob(b), full);
      SumOverUpdate(Has(b), ws, w, Got(full[0]));
    }
  }

  lemma {:induction false} PlacePushFree(M: nat, free: seq<nat>, full: seq<Option<nat>>, r: Receiver,
        ws: seq<Worker>, w: nat)
    requires OnePlace(M, free, full, r, ws) && w < |ws| && ws[w].Returning?
    ensures OnePlace(M, free + [ws[w].b], full, r, ws[w := Waiting])
  {
    var free', ws' := free + [ws[w].b], ws[w := Waiting];
    forall b | 0 <= b <= M
      ensures Copies(b, free', full, r, ws') == 1
    {
      assert Copies(b, free, full, r, ws) == 1;
      SumOverSnoc(Is(b), free, ws[w].b);
      SumOverUpdate(Has(b), ws, w, Waiting);
    }
  }

  lemma {:induction false} PlaceCollect(M: nat, free: seq<nat>, full: seq<Option<nat>>, r: Receiver,
        ws: seq<Worker>, w: nat)
    requires OnePlace(M, free, full, r, ws) && w < |ws| && ws[w].Working?
    ensures OnePlace(M, free, full, r, ws[w := Returning(ws[w].b)])
  {
    var ws' := ws[w := Returning(ws[w].b)];
    forall b | 0 <= b <= M
      ensures Copies(b, free, full, r, ws') == 1
    {
      assert Copies(b, free, full, r, ws) == 1;
      SumOverUpdate(Has(b), ws, w, Returning(ws[w].b));
    }
  }

  // Every step keeps the order of the jobs.

  lemma {:induction false} QueueReceive(full: seq<Option<nat>>, jobs: seq<seq<Word>>, pushed: seq<seq<Word>>,
        popped: nat, b: nat, job: seq<Word>)
    requires QueueInv(full, jobs, pushed, popped) && b < |jobs|
    requires forall i :: 0 <= i < |full| && full[i].Some? ==> full[i].value != b
    ensures QueueInv(full, jobs[b := job], pushed, popped)
  {
  }

  lemma {:induction false} QueuePushFull(full: seq<Option<nat>>, jobs: seq<seq<Word>>, pushed: seq<seq<Word>>,
        popped: nat, b: nat)
    requires QueueInv(full, jobs, pushed, popped) && b < |jobs| && forall i :: 0 <= i < |full| ==> full[i].Some?
    ensures QueueInv(full + [Some(b)], jobs, pushed + [jobs[b]], popped)
  {
    SumOverSnoc(IsReal(), full, Some(b));
    SumOverBounds(IsReal(), full, 1, 1);
  }

  lemma {:induction false} QueuePushNull(full: seq<Option<nat>>, jobs: seq<seq<Word>>, pushed: seq<seq<Word>>,
        popped: nat)
    requires QueueInv(full, jobs, pushed, popped)
    ensures QueueInv(full + [None], jobs, pushed, popped)
  {
    SumOverSnoc(IsReal(), full, None);
  }

  lemma {:induction false} QueuePop(full: seq<Option<nat>>, jobs: seq<seq<Word>>, pushed: seq<seq<Word>>, popped: nat)
    requires QueueInv(full, jobs, pushed, popped) && full != []
    ensures QueueInv(full[1..], jobs, pushed, if full[0].Some? then popped + 1 else popped)
  {
    SumOverCons(IsReal(), full);
  }

  // Every step keeps the count of null jobs.

  lemma {:induction false} NullPush(M: nat, full: seq<Option<nat>>, r: Receiver, x: Option<nat>, r': Receiver,
        ws: seq<Worker>)
    requires NullInv(M, full, r, ws) && Sent(r') == (if x.None? then Sent(r) + 1 else Sent(r)) <= M
    requires if x.Some? then !r.Ending? else r.Ending? && r'.Ending?
    ensures NullInv(M, full + [x], r', ws)
  {
    SumOverSnoc(IsReal(), full, x);
  }

  lemma {:induction false} NullPop(M: nat, full: seq<Option<nat>>, r: Receiver, ws: seq<Worker>, w: nat)
    requires NullInv(M, full, r, ws) && full != [] && w < |ws| && ws[w].Waiting?
    requires forall i, j :: 0 <= i < j < |full| && full[i].None? ==> full[j].None?
    ensures NullInv(M, full[1..], r, ws[w := Got(full[0])])
  {
    SumOverCons(IsReal(), full);
    if full[0].None? {
      SumOverBounds(IsReal(), full[1..], 0, 0);
    }
    SumOverUpdate(Stops(), ws, w, Got(full[0]));
  }

  lemma {:induction false} NullWorker(M: nat, full: seq<Option<nat>>, r: Receiver, ws: seq<Worker>, w: nat, x: Worker)
    requires NullInv(M, full, r, ws) && w < |ws| && !ws[w].Stopped? && !x.Stopped?
    ensures NullInv(M, full, r, ws[w := x])
  {
    SumOverUpdate(Stops(), ws, w, x);
  }

  // Every step keeps track of who collects what.

  lemma {:induction false} TakenPrefix(pushed: seq<seq<Word>>, more: seq<seq<Word>>, owners: seq<nat>, w: nat)
    requires |owners| <= |pushed| && pushed <= more
    ensures TakenBy(pushed, owners, w) == TakenBy(more, owners, w)
    decreases |owners|
  {
    if owners != [] {
      TakenPrefix(pushed, more, owners[..|owners| - 1], w);
    }
  }

  lemma {:induction false} TakenSnoc(pushed: seq<seq<Word>>, owners: seq<nat>, w: nat, v: nat)
    requires |owners| < |pushed|
    ensures TakenBy(pushed, owners + [w], v) == TakenBy(pushed, owners, v) + if v == w then pushed[|owners|] else []
  {
    assert (owners + [w])[..|owners|] == owners;
  }

  lemma {:induction false} CollectReceive(M: nat, pushed: seq<seq<Word>>, owners: seq<nat>, ws: seq<Worker>,
        jobs: seq<seq<Word>>, collected: seq<seq<Word>>, items: nat, b: nat, job: seq<Word>)
    requires CollectInv(M, pushed, owners, ws, jobs, collected, items) && b < |jobs|
    requires forall w :: 0 <= w < |ws| && HasBuffer(ws[w]) ==> ws[w].b != b
    ensures CollectInv(M, pushed, owners, ws, jobs[b := job], collected, items)
  {
    assert forall w :: 0 <= w < M ==> InWork(ws[w], jobs[b := job]) == InWork(ws[w], jobs);
  }

  lemma {:induction false} CollectPush(M: nat, pushed: seq<seq<Word>>, owners: seq<nat>, ws: seq<Worker>,
        jobs: seq<seq<Word>>, collected: seq<seq<Word>>, items: nat, job: seq<Word>)
    requires CollectInv(M, pushed, owners, ws, jobs, collected, items)
    ensures CollectInv(M, pushed + [job], owners, ws, jobs, collected, items)
  {
    forall w | 0 <= w < M
      ensures TakenBy(pushed, owners, w) == TakenBy(pushed + [job], owners, w)
    {
      TakenPrefix(pushed, pushed + [job], owners, w);
    }
  }

  lemma {:induction false} CollectPop(M: nat, pushed: seq<seq<Word>>, owners: seq<nat>, ws: seq<Worker>,
        jobs: seq<seq<Word>>, collected: seq<seq<Word>>, items: nat, w: nat, b: nat)
    requires CollectInv(M, pushed, owners, ws, jobs, collected, items) && w < M && ws[w].Waiting?
    requires |owners| < |pushed| && b < |jobs| && jobs[b] == pushed[|owners|]
    ensures CollectInv(M, pushed, owners + [w], ws[w := Working(b)], jobs, collected, items)
  {
    forall v | 0 <= v < M
      ensures collected[v] + InWork(ws[w := Working(b)][v], jobs) == TakenBy(pushed, owners + [w], v)
    {
      TakenSnoc(pushed, owners, w, v);
    }
  }

  lemma {:induction false} CollectWorker(M: nat, pushed: seq<seq<Word>>, owners: seq<nat>, ws: seq<Worker>,
        jobs: seq<seq<Word>>, collected: seq<seq<Word>>, items: nat, w: nat, x: Worker)
    requires CollectInv(M, pushed, owners, ws, jobs, collected, items) && w < M && !ws[w].Working? && !x.Working?
    ensures CollectInv(M, pushed, owners, ws[w := x], jobs, collected, items)
  {
  }

  lemma {:induction false} CollectCollect(M: nat, pushed: seq<seq<Word>>, owners: seq<nat>, ws: seq<Worker>,
        jobs: seq<seq<Word>>, collected: seq<seq<Word>>, items: nat, w: nat)
    requires CollectInv(M, pushed, owners, ws, jobs, collected, items) && w < M && ws[w].Working? && ws[w].b < |jobs|
    ensures var job := jobs[ws[w].b];
            CollectInv(M, pushed, owners, ws[w := Returning(ws[w].b)], jobs, collected[w := collected[w] + job],
                items + |job|)
  {
    var job := jobs[ws[w].b];
    var x := collected[w] + job;
    SumOverUpdate(Len(), collected, w, x);
  }

  // The invariant.

  lemma {:induction false} PlaceInit(M: nat, ws: seq<Worker>)
    requires forall w :: 0 <= w < |ws| ==> ws[w].Waiting?
    ensures OnePlace(M, Range(M + 1), [], Popping, ws)
  {
    var free, full := Range(M + 1), [];
    forall b | 0 <= b <= M
      ensures Copies(b, free, full, Popping, ws) == 1
    {
      RangeOnce(M + 1, b);
      SumOverBounds(Has(b), ws, 0, 0);
    }
  }

  lemma {:induction false} WorkersInit(M: nat, ws: seq<Worker>, jobs: seq<seq<Word>>, collected: seq<seq<Word>>)
    requires |ws| == |collected| == M
    requires forall w :: 0 <= w < M ==> ws[w].Waiting? && collected[w] == []
    ensures NullInv(M, [], Popping, ws)
    ensures CollectInv(M, [], [], ws, jobs, collected, 0)
  {
    SumOverBounds(Stops(), ws, 0, 0);
    SumOverBounds(Len(), collected, 0, 0);
  }

  lemma {:induction false} QueuesInit(M: nat, stream: seq<Byte>)
    ensures var s := Init(M, stream);
            && Shape(M, s)
            && StreamInv(stream, s.received, s.incoming, s.carry, Flatten(s.pushed) + Unpushed(s.receiver, s.jobs))
            && QueueInv(s.full, s.jobs, s.pushed, |s.owners|)
  {
  }

  lemma {:induction false} InvInit(M: nat, stream: seq<Byte>)
    ensures Inv(M, stream, Init(M, stream))
  {
    var s := Init(M, stream);
    assert OnePlace(M, s.free, s.full, s.receiver, s.workers) by {
      PlaceInit(M, s.workers);
    }
    assert NullInv(M, s.full, s.receiver, s.workers) &&
           CollectInv(M, s.pushed, s.owners, s.workers, s.jobs, s.collected, s.items) by {
      WorkersInit(M, s.workers, s.jobs, s.collected);
    }
    QueuesInit(M, stream);
  }

  lemma {:induction false} RangeOnce(n: nat, b: nat)
    ensures SumOver(Is(b), Range(n)) == if b < n then 1 else 0
    decreases n
  {
    if n > 0 {
      assert Range(n)[..n - 1] == Range(n - 1);
      RangeOnce(n - 1, b);
    }
  }

  lemma {:induction false} PopFreeKeeps(M: nat, stream: seq<Byte>, s: State)
    requires Inv(M, stream, s) && Enabled(M, s, PopFree)
    ensures Inv(M, stream, Next(M, s, PopFree))
  {
    PlacePopFree(M, s.free, s.full, s.workers);
  }

  lemma {:induction false} PushFullKeeps(M: nat, stream: seq<Byte>, s: State)
    requires Inv(M, stream, s) && Enabled(M, s, PushFull)
    ensures Inv(M, stream, Next(M, s, PushFull))
  {
    var t, b, x := Next(M, s, PushFull), s.receiver.b, Some(s.receiver.b);
    assert OnePlace(M, t.free, t.full, t.receiver, t.workers) by {
      PlacePush(M, s.free, s.full, s.receiver, x, Popping, s.workers);
    }
    assert StreamInv(stream, t.received, t.incoming, t.carry, Flatten(t.pushed) + Unpushed(t.receiver, t.jobs)) by {
      FlattenSnoc(s.pushed, s.jobs[b]);
    }
    assert QueueInv(t.full, t.jobs, t.pushed, |t.owners|) by {
      QueuePushFull(s.full, s.jobs, s.pushed, |s.owners|, b);
    }
    assert NullInv(M, t.full, t.receiver, t.workers) by {
      NullPush(M, s.full, s.receiver, x, Popping, s.workers);
    }
    assert CollectInv(M, t.pushed, t.owners, t.workers, t.jobs, t.collected, t.items) by {
      CollectPush(M, s.pushed, s.owners, s.workers, s.jobs, s.collected, s.items, s.jobs[b]);
    }
  }

  /** A null job goes into the full queue. */
  lemma {:induction false} NullQueued(M: nat, free: seq<nat>, full: seq<Option<nat>>, r: Receiver, r': Receiver,
        ws: seq<Worker>, jobs: seq<seq<Word>>, pushed: seq<seq<Word>>, popped: nat)
    requires OnePlace(M, free, full, r, ws) && QueueInv(full, jobs, pushed, popped) && NullInv(M, full, r, ws)
    requires r.Ending? && r' == Ending(r.b, r.sent + 1) && r.sent < M
    ensures OnePlace(M, free, full + [None], r', ws) && QueueInv(full + [None], jobs, pushed, popped)
    ensures NullInv(M, full + [None], r', ws)
  {
    PlacePush(M, free, full, r, None, r', ws);
    QueuePushNull(full, jobs, pushed, popped);
    NullPush(M, full, r, None, r', ws);
  }

  lemma {:induction false} NullShape(M: nat, s: State)
    requires Shape(M, s) && Enabled(M, s, PushNull)
    ensures Shape(M, Next(M, s, PushNull))
  {
  }

  lemma {:induction false} NothingUnpushed(r: Receiver, r': Receiver, jobs: seq<seq<Word>>)
    requires !r.Filled? && !r'.Filled?
    ensures Unpushed(r, jobs) == Unpushed(r', jobs)
  {
  }

  lemma {:induction false} PushNullKeeps(M: nat, stream: seq<Byte>, s: State)
    requires Inv(M, stream, s) && Enabled(M, s, PushNull)
    ensures Inv(M, stream, Next(M, s, PushNull))
  {
    var t, r := Next(M, s, PushNull), Ending(s.receiver.b, s.receiver.sent + 1);
    NullShape(M, s);
    NullQueued(M, s.free, s.full, s.receiver, r, s.workers, s.jobs, s.pushed, |s.owners|);
    NothingUnpushed(s.receiver, r, s.jobs);
  }

  lemma {:induction false} PlaceStays(M: nat, free: seq<nat>, full: seq<Option<nat>>, r: Receiver, r': Receiver,
        ws: seq<Worker>)
    requires OnePlace(M, free, full, r, ws) && !r.Popping? && !r'.Popping? && r.b == r'.b
    ensures OnePlace(M, free, full, r', ws)
  {
    forall b | 0 <= b <= M
      ensures Copies(b, free, full, r', ws) == 1
    {
      assert Copies(b, free, full, r, ws) == 1;
    }
  }

  lemma {:induction false} EndOfStreamKeeps(M: nat, stream: seq<Byte>, s: State)
    requires Inv(M, stream, s) && Enabled(M, s, EndOfStream)
    ensures Inv(M, stream, Next(M, s, EndOfStream))
  {
    PlaceStays(M, s.free, s.full, s.receiver, Ending(s.receiver.b, 0), s.workers);
  }

  /** More of the stream has been received, and cut into words and a carry. */
  lemma {:induction false} StreamReceive(stream: seq<Byte>, received: seq<Byte>, incoming: seq<Byte>, carry: seq<Byte>,
        words: seq<Word>, n: nat)
    requires StreamInv(stream, received, incoming, carry, words) && n <= |incoming|
    ensures StreamInv(stream, received + incoming[..n], incoming[n..], Rest(carry + incoming[..n]),
                      words + Words(carry + incoming[..n]))
  {
    CarryOver(received, incoming[..n]);
    assert received + incoming == (received + incoming[..n]) + incoming[n..];
  }

  lemma {:induction false} ReceiveStream(stream: seq<Byte>, s: State, n: nat)
    requires s.receiver.Holding? && s.receiver.b < |s.jobs| && n <= |s.incoming|
    requires StreamInv(stream, s.received, s.incoming, s.carry, Flatten(s.pushed) + Unpushed(s.receiver, s.jobs))
    ensures var b, job := s.receiver.b, Words(s.carry + s.incoming[..n]);
            StreamInv(stream, s.received + s.incoming[..n], s.incoming[n..], Rest(s.carry + s.incoming[..n]),
                      Flatten(s.pushed) + Unpushed(Filled(b), s.jobs[b := job]))
  {
    var words := Flatten(s.pushed);
    assert words + [] == words;
    StreamReceive(stream, s.received, s.incoming, s.carry, words, n);
  }

  lemma {:induction false} ReceiveKeeps(M: nat, stream: seq<Byte>, s: State, n: nat)
    requires Inv(M, stream, s) && Enabled(M, s, Receive(n))
    ensures Inv(M, stream, Next(M, s, Receive(n)))
  {
    var t, b, job := Next(M, s, Receive(n)), s.receiver.b, Words(s.carry + s.incoming[..n]);
    assert OnePlace(M, t.free, t.full, t.receiver, t.workers) by {
      PlaceStays(M, s.free, s.full, s.receiver, Filled(b), s.workers);
    }
    ReceiverAlone(M, s.free, s.full, s.receiver, s.workers);
    assert QueueInv(t.full, t.jobs, t.pushed, |t.owners|) by {
      QueueReceive(s.full, s.jobs, s.pushed, |s.owners|, b, job);
    }
    assert CollectInv(M, t.pushed, t.owners, t.workers, t.jobs, t.collected, t.items) by {
      CollectReceive(M, s.pushed, s.owners, s.workers, s.jobs, s.collected, s.items, b, job);
    }
    assert StreamInv(stream, t.received, t.incoming, t.carry, Flatten(t.pushed) + Unpushed(t.receiver, t.jobs)) by {
      ReceiveStream(stream, s, n);
    }
  }

  lemma {:induction false} PopFullKeeps(M: nat, stream: seq<Byte>, s: State, w: nat)
    requires Inv(M, stream, s) && Enabled(M, s, PopFull(w))
    ensures Inv(M, stream, Next(M, s, PopFull(w)))
  {
    PlacePopFull(M, s.free, s.full, s.receiver, s.workers, w);
    QueuePop(s.full, s.jobs, s.pushed, |s.owners|);
    NullPop(M, s.full, s.receiver, s.workers, w);
    if s.full[0].Some? {
      CollectPop(M, s.pushed, s.owners, s.workers, s.jobs, s.collected, s.items, w, s.full[0].value);
    } else {
      CollectWorker(M, s.pushed, s.owners, s.workers, s.jobs, s.collected, s.items, w, Stopped);
    }
  }

  lemma {:induction false} CollectKeeps(M: nat, stream: seq<Byte>, s: State, w: nat)
    requires Inv(M, stream, s) && Enabled(M, s, Collect(w))
    ensures Inv(M, stream, Next(M, s, Collect(w)))
  {
    PlaceCollect(M, s.free, s.full, s.receiver, s.workers, w);
    NullWorker(M, s.full, s.receiver, s.workers, w, Returning(s.workers[w].b));
    CollectCollect(M, s.pushed, s.owners, s.workers, s.jobs, s.collected, s.items, w);
  }

  lemma {:induction false} PushFreeKeeps(M: nat, stream: seq<Byte>, s: State, w: nat)
    requires Inv(M, stream, s) && Enabled(M, s, PushFree(w))
    ensures Inv(M, stream, Next(M, s, PushFree(w)))
  {
    PlacePushFree(M, s.free, s.full, s.receiver, s.workers, w);
    NullWorker(M, s.full, s.receiver, s.workers, w, Waiting);
    CollectWorker(M, s.pushed, s.owners, s.workers, s.jobs, s.collected, s.items, w, Waiting);
  }

  /** Whatever is done next, by whom, and however much it receives. */
  lemma {:induction false} InvNext(M: nat, stream: seq<Byte>, s: State, a: Action)
    requires Inv(M, stream, s) && Enabled(M, s, a)
    ensures Inv(M, stream, Next(M, s, a))
  {
    match a {
      case Receive(n) => ReceiveKeeps(M, stream, s, n);
      case PopFull(w) => PopFullKeeps(M, stream, s, w);
      case Collect(w) => CollectKeeps(M, stream, s, w);
      case PushFree(w) => PushFreeKeeps(M, stream, s, w);
      case PopFree => PopFreeKeeps(M, stream, s);
      case PushFull => PushFullKeeps(M, stream, s);
      case EndOfStream => EndOfStreamKeeps(M, stream, s);
      case PushNull => PushNullKeeps(M, stream, s);
    }
  }

  // Runs.

  ghost predicate StepTo(M: nat, s: State, t: State) {
    exists a :: Shape(M, s) && Enabled(M, s, a) && t == Next(M, s, a)
  }

  /** `run` is a run of the server on a stream. */
  ghost predicate IsRun(M: nat, stream: seq<Byte>, run: seq<State>) {
    && run != [] && run[0] == Init(M, stream)
    && forall i :: 0 <= i < |run| - 1 ==> StepTo(M, run[i], run[i + 1])
  }

  lemma {:induction false} RunInv(M: nat, stream: seq<Byte>, run: seq<State>, i: nat)
    requires IsRun(M, stream, run) && i < |run|
    ensures Inv(M, stream, run[i])
    decreases i
  {
    if i == 0 {
      InvInit(M, stream);
    } else {
      RunInv(M, stream, run, i - 1);
      assert StepTo(M, run[i - 1], run[i - 1 + 1]);
      var a :| Shape(M, run[i - 1]) && Enabled(M, run[i - 1], a) && run[i] == Next(M, run[i - 1], a);
      InvNext(M, stream, run[i - 1], a);
    }
  }

  ghost predicate Final(M: nat, s: State) {
    && s.receiver.Ending? && s.receiver.sent == M
    && forall w :: 0 <= w < |s.workers| ==> s.workers[w].Stopped?
  }

  /** A worker stops only when every job of the stream has been popped and no more can come. */
  lemma {:induction false} StoppedLast(M: nat, stream: seq<Byte>, s: State, w: nat)
    requires Inv(M, stream, s) && w < M && s.workers[w].Stopped?
    ensures s.receiver.Ending? && |s.owners| == |s.pushed| && Flatten(s.pushed) == Words(stream)
    ensures forall i :: 0 <= i < |s.full| ==> s.full[i].None?
  {
    forall i | 0 <= i < |s.full|
      ensures s.full[i].None?
    {
      SumOverMember(IsReal(), s.full, i);
    }
    assert s.received + [] == s.received;
  }

  // Every run ends.

  function JobSteps(): Option<nat> -> nat {
    (o: Option<nat>) => if o.Some? then 3 else 1
  }

  function WorkerSteps(): Worker -> nat {
    (w: Worker) => if w.Working? then 2 else if w.Returning? then 1 else 0
  }

  function ReceiverSteps(M: nat, r: Receiver): int {
    match r
    case Popping => 2 * M + 2
    case Holding(_) => 2 * M + 1
    case Filled(_) => 2 * M + 6
    case Ending(_, sent) => 2 * (M - sent)
  }

  /** A bound on the number of steps still to come. */
  function StepsLeft(M: nat, s: State): int {
    6 * |s.incoming| + ReceiverSteps(M, s.receiver) + SumOver(JobSteps(), s.full) + SumOver(WorkerSteps(), s.workers)
  }

  lemma {:induction false} StepsLeftNext(M: nat, stream: seq<Byte>, s: State, a: Action)
    requires Inv(M, stream, s) && Enabled(M, s, a)
    ensures 0 <= StepsLeft(M, Next(M, s, a)) < StepsLeft(M, s)
  {
    if a.PopFull? || a.Collect? || a.PushFree? {
      WorkerStepsLeft(M, s, a);
    } else {
      ReceiverStepsLeft(M, s, a);
    }
  }

  lemma {:induction false} ReceiverStepsLeft(M: nat, s: State, a: Action)
    requires Shape(M, s) && Enabled(M, s, a) && !(a.PopFull? || a.Collect? || a.PushFree?) && Sent(s.receiver) <= M
    ensures 0 <= StepsLeft(M, Next(M, s, a)) < StepsLeft(M, s)
  {
    if a.PushFull? {
      SumOverSnoc(JobSteps(), s.full, Some(s.receiver.b));
    } else if a.PushNull? {
      SumOverSnoc(JobSteps(), s.full, None);
    }
  }

  lemma {:induction false} WorkerStepsLeft(M: nat, s: State, a: Action)
    requires Shape(M, s) && Enabled(M, s, a) && (a.PopFull? || a.Collect? || a.PushFree?) && Sent(s.receiver) <= M
    ensures 0 <= StepsLeft(M, Next(M, s, a)) < StepsLeft(M, s)
  {
    var w := a.w;
    if a.PopFull? {
      SumOverCons(JobSteps(), s.full);
    }
    SumOverUpdate(WorkerSteps(), s.workers, w,
                  if a.PopFull? then Got(s.full[0]) else if a.Collect? then Returning(s.workers[w].b) else Waiting);
  }

  /** No run takes more than six steps per byte and two per worker, and two. */
  lemma {:induction false} RunsEnd(M: nat, stream: seq<Byte>, run: seq<State>)
    requires IsRun(M, stream, run)
    ensures |run| - 1 <= 6 * |stream| + 2 * M + 2
  {
    var i := |run| - 1;
    RunSteps(M, stream, run, i);
    RunInv(M, stream, run, i);
    assert SumOver(JobSteps(), run[i].full) >= 0;
    assert ReceiverSteps(M, run[i].receiver) >= 0;
  }

  lemma {:induction false} RunSteps(M: nat, stream: seq<Byte>, run: seq<State>, i: nat)
    requires IsRun(M, stream, run) && i < |run|
    ensures StepsLeft(M, run[i]) + i <= 6 * |stream| + 2 * M + 2
    decreases i
  {
    if i == 0 {
      SumOverBounds(WorkerSteps(), run[0].workers, 0, 0);
    } else {
      RunSteps(M, stream, run, i - 1);
      RunInv(M, stream, run, i - 1);
      assert StepTo(M, run[i - 1], run[i - 1 + 1]);
      var a :| Shape(M, run[i - 1]) && Enabled(M, run[i - 1], a) && run[i] == Next(M, run[i - 1], a);
      StepsLeftNext(M, stream, run[i - 1], a);
    }
  }

  // No state but the final one is stuck.

  ghost predicate CanMove(M: nat, s: State) {
    exists a :: Enabled(M, s, a)
  }

  lemma {:induction false} NoDeadlock(M: nat, stream: seq<Byte>, s: State)
    requires M > 0 && Inv(M, stream, s)
    ensures CanMove(M, s) <==> !Final(M, s)
  {
    if exists w :: 0 <= w < M && HasBuffer(s.workers[w]) {
      var w :| 0 <= w < M && HasBuffer(s.workers[w]);
      assert Enabled(M, s, if s.workers[w].Working? then Collect(w) else PushFree(w));
    } else {
      match s.receiver {
        case Holding(b) =>
          assert Enabled(M, s, if s.incoming == [] then EndOfStream else Receive(1));
        case Filled(b) =>
          assert Enabled(M, s, PushFull);
        case Popping =>
          PoppingMoves(M, stream, s);
          assert Enabled(M, s, if s.free != [] then PopFree else PopFull(0));
        case Ending(b, sent) =>
          if sent < M {
            assert Enabled(M, s, PushNull);
          } else if exists w :: 0 <= w < M && !s.workers[w].Stopped? {
            var w :| 0 <= w < M && !s.workers[w].Stopped?;
            EndingMoves(M, stream, s, w);
            assert Enabled(M, s, PopFull(w));
          }
      }
    }
  }

  /** Someone has buffer 0; if neither receiver nor workers do, then one of the queues. */
  lemma {:induction false} SomeQueue(M: nat, free: seq<nat>, full: seq<Option<nat>>, ws: seq<Worker>)
    requires OnePlace(M, free, full, Popping, ws) && forall w :: 0 <= w < |ws| ==> !HasBuffer(ws[w])
    ensures free != [] || full != []
  {
    assert Copies(0, free, full, Popping, ws) == 1;
    SumOverBounds(Has(0), ws, 0, 0);
  }

  lemma {:induction false} PoppingMoves(M: nat, stream: seq<Byte>, s: State)
    requires M > 0 && Inv(M, stream, s) && s.receiver.Popping? && forall w :: 0 <= w < M ==> !HasBuffer(s.workers[w])
    ensures Enabled(M, s, if s.free != [] then PopFree else PopFull(0))
  {
    SomeQueue(M, s.free, s.full, s.workers);
    assert s.workers[0].Waiting?;
  }

  /** As long as some worker has not stopped there is a null job for it. */
  lemma {:induction false} EndingMoves(M: nat, stream: seq<Byte>, s: State, w: nat)
    requires Inv(M, stream, s) && s.receiver.Ending? && forall w :: 0 <= w < M ==> !HasBuffer(s.workers[w])
    requires s.receiver.sent == M && w < M && !s.workers[w].Stopped?
    ensures Enabled(M, s, PopFull(w))
  {
    assert Stops()(s.workers[w]) < 1;
    SumOverBounds(Stops(), s.workers, 0, 1);
  }

  // What has happened in the end.

  /** Words handed to several collectors, each word to one of them. */
  lemma {:induction false} TakenPartition(pushed: seq<seq<Word>>, owners: seq<nat>, M: nat)
    requires |owners| <= |pushed| && forall k :: 0 <= k < |owners| ==> owners[k] < M
    ensures multiset(Flatten(AllTaken(pushed, owners, M))) == multiset(Flatten(pushed[..|owners|]))
    decreases |owners|
  {
    if owners == [] {
      FlattenEmpty(AllTaken(pushed, owners, M));
    } else {
      TakenPartition(pushed, owners[..|owners| - 1], M);
      TakenNext(pushed, owners, M);
    }
  }

  lemma {:induction false} TakenNext(pushed: seq<seq<Word>>, owners: seq<nat>, M: nat)
    requires 0 < |owners| <= |pushed| && owners[|owners| - 1] < M
    requires SameWords(AllTaken(pushed, owners[..|owners| - 1], M), pushed[..|owners| - 1])
    ensures SameWords(AllTaken(pushed, owners, M), pushed[..|owners|])
  {
    var n := |owners| - 1;
    TakenGrows(pushed, owners, M);
    SameWordsGrow(AllTaken(pushed, owners[..n], M), pushed[..n], owners[n], pushed[n]);
    assert pushed[..n + 1] == pushed[..n] + [pushed[n]];
  }

  ghost predicate SameWords(a: seq<seq<Word>>, b: seq<seq<Word>>) {
    multiset(Flatten(a)) == multiset(Flatten(b))
  }

  lemma {:induction false} SameWordsGrow(a: seq<seq<Word>>, b: seq<seq<Word>>, w: nat, x: seq<Word>)
    requires w < |a| && SameWords(a, b)
    ensures SameWords(a[w := a[w] + x], b + [x])
  {
    FlattenGrow(a, w, x);
    FlattenSnoc(b, x);
  }

  lemma {:induction false} TakenGrows(pushed: seq<seq<Word>>, owners: seq<nat>, M: nat)
    requires 0 < |owners| <= |pushed| && owners[|owners| - 1] < M
    ensures var n := |owners| - 1;
            var w, before := owners[n], AllTaken(pushed, owners[..n], M);
            AllTaken(pushed, owners, M) == before[w := before[w] + pushed[n]]
  {
    var n := |owners| - 1;
    var w, before := owners[n], AllTaken(pushed, owners[..n], M);
    forall v | 0 <= v < M
      ensures AllTaken(pushed, owners, M)[v] == before[w := before[w] + pushed[n]][v]
    {
      assert TakenBy(pushed, owners, v) == TakenBy(pushed, owners[..n], v) + if w == v then pushed[n] else [];
    }
  }

  function AllTaken(pushed: seq<seq<Word>>, owners: seq<nat>, M: nat): (r: seq<seq<Word>>)
    ensures |r| == M
  {
    seq(M, w requires 0 <= w < M => TakenBy(pushed, owners, w))
  }

  lemma {:induction false} TotalLen(ss: seq<seq<Word>>)
    ensures SumOver(Len(), ss) == |Flatten(ss)|
    decreases |ss|
  {
    if ss != [] {
      TotalLen(ss[..|ss| - 1]);
    }
  }

  /**
   In the end the workers have collected, each job exactly once, the words of the stream;
   `items` counts them, the carry is what does not fill a word, and every buffer but the
   receiver's is free.
   */
  lemma {:induction false} Delivered(M: nat, stream: seq<Byte>, s: State)
    requires M > 0 && Inv(M, stream, s) && Final(M, s)
    ensures Flatten(s.pushed) == Words(stream) && s.carry == Rest(stream)
    ensures |s.owners| == |s.pushed| && forall w :: 0 <= w < M ==> s.collected[w] == TakenBy(s.pushed, s.owners, w)
    ensures multiset(Flatten(s.collected)) == multiset(Words(stream))
    ensures s.items == |stream| / 4
    ensures s.full == [] && forall b :: 0 <= b <= M && b != s.receiver.b ==> SumOver(Is(b), s.free) == 1
  {
    StoppedLast(M, stream, s, 0);
    assert s.received + [] == s.received;
    assert forall w :: 0 <= w < M ==> InWork(s.workers[w], s.jobs) == [];
    assert forall w :: 0 <= w < M ==> s.collected[w] == TakenBy(s.pushed, s.owners, w);
    TakenByAll(M, s.pushed, s.owners, s.collected);
    NoNullLeft(M, s.full, s.receiver, s.workers);
    AllFree(M, s.free, s.full, s.receiver, s.workers);
  }

  lemma {:induction false} AllFree(M: nat, free: seq<nat>, full: seq<Option<nat>>, r: Receiver, ws: seq<Worker>)
    requires OnePlace(M, free, full, r, ws) && full == [] && !r.Popping? && forall w :: 0 <= w < |ws| ==> ws[w].Stopped?
    ensures forall b :: 0 <= b <= M && b != r.b ==> SumOver(Is(b), free) == 1
  {
    forall b | 0 <= b <= M && b != r.b
      ensures SumOver(Is(b), free) == 1
    {
      assert Copies(b, free, full, r, ws) == 1;
      SumOverBounds(Has(b), ws, 0, 0);
    }
  }

  lemma {:induction false} TakenByAll(M: nat, pushed: seq<seq<Word>>, owners: seq<nat>, collected: seq<seq<Word>>)
    requires |owners| == |pushed| && |collected| == M && forall k :: 0 <= k < |owners| ==> owners[k] < M
    requires forall w :: 0 <= w < M ==> collected[w] == TakenBy(pushed, owners, w)
    ensures multiset(Flatten(collected)) == multiset(Flatten(pushed))
    ensures SumOver(Len(), collected) == |Flatten(pushed)|
  {
    TakenPartition(pushed, owners, M);
    assert pushed[..|owners|] == pushed;
    assert collected == AllTaken(pushed, owners, M);
    TotalLen(collected);
    assert |multiset(Flatten(collected))| == |multiset(Flatten(pushed))|;
  }

  lemma {:induction false} NoNullLeft(M: nat, full: seq<Option<nat>>, r: Receiver, ws: seq<Worker>)
    requires |ws| == M > 0 && NullInv(M, full, r, ws) && Sent(r) == M && forall w :: 0 <= w < M ==> ws[w].Stopped?
    ensures full == []
  {
    SumOverBounds(Stops(), ws, 1, 1);
    assert ws[0].Stopped?;
    if full != [] {
      SumOverCons(IsReal(), full);
      QueuedBound(full);
    }
  }

  lemma {:induction false} QueuedBound(full: seq<Option<nat>>)
    ensures Queued(full) <= |full|
    ensures Queued(full) == |full| ==> forall i :: 0 <= i < |full| ==> full[i].Some?
  {
    SumOverBounds(IsReal(), full, 0, 1);
    if exists i :: 0 <= i < |full| && full[i].None? {
      var i :| 0 <= i < |full| && full[i].None?;
      assert IsReal()(full[i]) < 1;
    }
  }
}
