/**
 The width-changing funnel from flits of N words to K lanes of single words.

 Which lane a word takes depends on whether the source was empty when the buffer ran
 low. `FunnelInv` says what holds whatever the timing: the lanes hold, job by job,
 exactly the words consumed so far, except those still buffered.
 */
module Funnel {
  import opened Streams
  import opened Lanes

  type Wide = Flit<seq<Word>>

  /** The words of a flit as lane items; the final K words of a job are flagged. */
  function Mark(K: nat, x: Wide): (r: seq<Item>)
    ensures |r| == |x.val|
  {
    seq(|x.val|, i requires 0 <= i < |x.val| => Flit(x.last && i >= |x.val| - K, x.val[i]))
  }

  function MarkAll(K: nat, c: seq<Wide>): seq<Item> {
    if c == [] then [] else MarkAll(K, c[..|c| - 1]) + Mark(K, c[|c| - 1])
  }

  /** The words of each complete job. */
  function JobWords(c: seq<Wide>): (js: seq<seq<Word>>)
    ensures |js| == |Jobs(c)|
  {
    seq(|Jobs(c)|, j requires 0 <= j < |Jobs(c)| => Flatten(Jobs(c)[j]))
  }

  predicate WidthIs(N: nat, c: seq<Wide>) {
    forall i :: 0 <= i < |c| ==> |c[i].val| == N
  }

  /** What a step hands to the lanes: a full row, or the rest of a job, or nothing. */
  function Group(K: nat, q: seq<Item>): (g: seq<Item>)
    ensures g <= q && |g| <= K
    ensures g == q[..|g|]
  {
    if |q| >= K then q[..K]
    else if q != [] && q[0].last then q
    else []
  }

  function WriteGroup(lanes: seq<Fifo<Item>>, g: seq<Item>): (r: seq<Fifo<Item>>)
    ensures |r| == |lanes|
  {
    seq(|lanes|, i requires 0 <= i < |lanes| => if i < |g| then lanes[i].Write(g[i]) else lanes[i])
  }

  /** A step of `distr_funnel` for K < N, on the buffered items `q`. */
  function NarrowStep(q: seq<Item>, src: Fifo<Wide>, lanes: seq<Fifo<Item>>)
      : (r: (seq<Item>, Fifo<Wide>, seq<Fifo<Item>>))
    ensures |r.2| == |lanes|
  {
    var g := Group(|lanes|, q);
    var rest := q[|g|..];
    if |rest| < |lanes| && !src.Empty() then
      (rest + Mark(|lanes|, src.Peek()), src.Read(), WriteGroup(lanes, g))
    else
      (rest, src, WriteGroup(lanes, g))
  }

  /** A step of `distr_funnel` for K == N. */
  function SplitStep(q: seq<Item>, src: Fifo<Wide>, lanes: seq<Fifo<Item>>)
      : (r: (seq<Item>, Fifo<Wide>, seq<Fifo<Item>>))
    ensures |r.2| == |lanes|
  {
    if src.Empty() then (q, src, lanes)
    else (q, src.Read(), WriteGroup(lanes, Mark(|lanes|, src.Peek())))
  }

  function FunnelStep(N: nat, q: seq<Item>, src: Fifo<Wide>, lanes: seq<Fifo<Item>>)
      : (r: (seq<Item>, Fifo<Wide>, seq<Fifo<Item>>))
    ensures |r.2| == |lanes|
  {
    if |lanes| < N then NarrowStep(q, src, lanes) else SplitStep(q, src, lanes)
  }

  function Logs(lanes: seq<Fifo<Item>>): (r: seq<seq<Item>>)
    ensures |r| == |lanes|
  {
    seq(|lanes|, i requires 0 <= i < |lanes| => lanes[i].log)
  }

  // The job structure of the marked items.

  /** Jobs and open words after the first `n` words of `x`, starting from `p` at a flit boundary. */
  function AfterWords(K: nat, p: Parsed, x: Wide, n: nat): Parsed
    requires n <= |x.val|
  {
    var unflagged := if x.last then |x.val| - K else |x.val|;
    if n <= unflagged then Parsed(p.done, p.cur + x.val[..n], 0)
    else if n < |x.val| then Parsed(p.done, p.cur + x.val[..n], n - unflagged)
    else Parsed(p.done + [p.cur + x.val], [], 0)
  }

  lemma {:induction false} MarkWord(K: nat, p: Parsed, s: seq<Item>, x: Wide, n: nat)
    requires 0 < K <= |x.val| && n < |x.val|
    requires WellMarked(K, s) && Parse(K, s) == AfterWords(K, p, x, n)
    ensures WellMarked(K, s + [Mark(K, x)[n]])
    ensures Parse(K, s + [Mark(K, x)[n]]) == AfterWords(K, p, x, n + 1)
  {
    ParseSnoc(K, s, Mark(K, x)[n]);
    assert p.cur + x.val[..n + 1] == (p.cur + x.val[..n]) + [x.val[n]];
    assert n + 1 == |x.val| ==> x.val[..n + 1] == x.val;
  }

  lemma {:induction false} MarkNone(K: nat, s: seq<Item>, x: Wide)
    requires 0 < K <= |x.val| && WellMarked(K, s) && Parse(K, s).marked == 0
    ensures WellMarked(K, s + Mark(K, x)[..0]) && Parse(K, s + Mark(K, x)[..0]) == AfterWords(K, Parse(K, s), x, 0)
  {
    assert s + Mark(K, x)[..0] == s && Parse(K, s).cur + x.val[..0] == Parse(K, s).cur;
  }

  lemma {:induction false} PrefixSnoc<T>(s: seq<T>, m: seq<T>, n: nat)
    requires 0 < n <= |m|
    ensures s + m[..n] == (s + m[..n - 1]) + [m[n - 1]]
  {
  }

  lemma {:induction false} MarkParse(K: nat, s: seq<Item>, x: Wide, n: nat)
    requires 0 < K <= |x.val| && n <= |x.val|
    requires WellMarked(K, s) && Parse(K, s).marked == 0
    ensures WellMarked(K, s + Mark(K, x)[..n])
    ensures Parse(K, s + Mark(K, x)[..n]) == AfterWords(K, Parse(K, s), x, n)
    decreases n
  {
    if n == 0 {
      MarkNone(K, s, x);
    } else {
      MarkParse(K, s, x, n - 1);
      PrefixSnoc(s, Mark(K, x), n);
      MarkWord(K, Parse(K, s), s + Mark(K, x)[..n - 1], x, n - 1);
    }
  }

  lemma {:induction false} MarkFlit(K: nat, s: seq<Item>, x: Wide)
    requires 0 < K <= |x.val| && WellMarked(K, s) && Parse(K, s).marked == 0
    ensures WellMarked(K, s + Mark(K, x))
    ensures var p := Parse(K, s);
            Parse(K, s + Mark(K, x)) ==
              if x.last then Parsed(p.done + [p.cur + x.val], [], 0) else Parsed(p.done, p.cur + x.val, 0)
  {
    MarkParse(K, s, x, |x.val|);
    assert Mark(K, x)[..|x.val|] == Mark(K, x) && x.val[..|x.val|] == x.val;
  }

  lemma {:induction false} JobWordsSnoc(c: seq<Wide>, x: Wide)
    ensures JobWords(c + [x]) == if x.last then JobWords(c) + [Flatten(Open(c)) + x.val] else JobWords(c)
    ensures Flatten(Open(c + [x])) == if x.last then [] else Flatten(Open(c)) + x.val
  {
    JobsSnoc(c, x);
    FlattenSnoc(Open(c), x.val);
    assert x.last ==> JobWords(c + [x])[..|Jobs(c)|] == JobWords(c);
  }

  /** Marking makes the item jobs coincide with the jobs of the source. */
  lemma {:induction false} MarkAllParse(N: nat, K: nat, c: seq<Wide>)
    requires 0 < K <= N && WidthIs(N, c)
    ensures WellMarked(K, MarkAll(K, c))
    ensures Parse(K, MarkAll(K, c)) == Parsed(JobWords(c), Flatten(Open(c)), 0)
    decreases |c|
  {
    if c != [] {
      var p, x := c[..|c| - 1], c[|c| - 1];
      MarkAllParse(N, K, p);
      assert |x.val| == N;
      MarkFlit(K, MarkAll(K, p), x);
      assert c == p + [x];
      JobWordsSnoc(p, x);
    }
  }

  // Safety of every run.

  /** The part of the consumed items that has left the buffer. */
  function Emitted(K: nat, c: seq<Wide>, q: seq<Item>): seq<Item> {
    if |q| <= |MarkAll(K, c)| then MarkAll(K, c)[..|MarkAll(K, c)| - |q|] else []
  }

  /** The lanes and the buffer together hold the consumed items, in order. */
  ghost predicate Tracks(K: nat, c: seq<Wide>, q: seq<Item>, lanes: seq<Fifo<Item>>) {
    && MarkAll(K, c) == Emitted(K, c, q) + q
    && Dealt(K, Logs(lanes), 0, Emitted(K, c, q))
  }

  ghost predicate FunnelInv(N: nat, K: nat, c: seq<Wide>, q: seq<Item>, lanes: seq<Fifo<Item>>) {
    && 0 < K <= N && |lanes| == K && WidthIs(N, c)
    && |q| <= (if K < N then N + K - 1 else 0)
    && Tracks(K, c, q, lanes)
  }

  lemma {:induction false} FunnelInit(N: nat, K: nat, lanes: seq<Fifo<Item>>)
    requires 0 < K <= N && |lanes| == K
    requires forall i :: 0 <= i < K ==> lanes[i].log == []
    ensures FunnelInv(N, K, [], [], lanes)
  {
    DealtInit(K, Logs(lanes));
  }

  lemma {:induction false} EmittedShift(K: nat, c: seq<Wide>, q: seq<Item>, g: seq<Item>)
    requires g <= q && MarkAll(K, c) == Emitted(K, c, q) + q
    ensures Emitted(K, c, q[|g|..]) == Emitted(K, c, q) + g
    ensures MarkAll(K, c) == Emitted(K, c, q[|g|..]) + q[|g|..]
  {
    assert q == g + q[|g|..];
    assert MarkAll(K, c) == (Emitted(K, c, q) + g) + q[|g|..];
  }

  /** Behind a flagged item at a flit boundary no job is open. */
  lemma {:induction false} JobEnds(N: nat, K: nat, c: seq<Wide>, s: seq<Item>, q: seq<Item>)
    requires 0 < K <= N && WidthIs(N, c) && MarkAll(K, c) == s + q
    requires q != [] && q[|q| - 1].last
    ensures Parse(K, s + q).cur == [] && Parse(K, s + q).marked == 0
  {
    MarkAllParse(N, K, c);
    var m := s + q[..|q| - 1];
    assert s + q == m + [q[|q| - 1]];
    ParseSnoc(K, m, q[|q| - 1]);
  }

  lemma {:induction false} DealtWrite(N: nat, K: nat, c: seq<Wide>, s: seq<Item>, q: seq<Item>,
        lanes: seq<Fifo<Item>>, g: seq<Item>)
    requires 0 < K <= N && WidthIs(N, c) && g <= q && |g| <= K
    requires MarkAll(K, c) == s + q && Dealt(K, Logs(lanes), 0, s)
    requires |g| == K || g == [] || (g == q && q[|q| - 1].last)
    ensures Dealt(K, Logs(WriteGroup(lanes, g)), 0, s + g)
  {
    assert WellMarked(K, s + g) by {
      MarkAllParse(N, K, c);
      assert s + q == (s + g) + q[|g|..];
      WellMarkedPrefix(K, s + g, q[|g|..]);
    }
    if g != [] && g == q && q[|q| - 1].last {
      JobEnds(N, K, c, s, q);
    }
    DealGroup(K, Logs(lanes), s, g);
    assert Logs(WriteGroup(lanes, g)) == Deal(Logs(lanes), g);
  }

  lemma {:induction false} TracksWrite(N: nat, K: nat, c: seq<Wide>, q: seq<Item>, lanes: seq<Fifo<Item>>, g: seq<Item>)
    requires 0 < K <= N && WidthIs(N, c) && g <= q && |g| <= K
    requires Tracks(K, c, q, lanes)
    requires |g| == K || g == [] || (g == q && q[|q| - 1].last)
    ensures Tracks(K, c, q[|g|..], WriteGroup(lanes, g))
  {
    EmittedShift(K, c, q, g);
    DealtWrite(N, K, c, Emitted(K, c, q), q, lanes, g);
  }

  lemma {:induction false} TracksRead(K: nat, c: seq<Wide>, q: seq<Item>, lanes: seq<Fifo<Item>>, x: Wide)
    requires Tracks(K, c, q, lanes)
    ensures Tracks(K, c + [x], q + Mark(K, x), lanes)
  {
    assert (c + [x])[..|c|] == c;
    assert MarkAll(K, c + [x]) == Emitted(K, c, q) + (q + Mark(K, x));
    assert Emitted(K, c + [x], q + Mark(K, x)) == Emitted(K, c, q);
  }

  lemma {:induction false} MarkAllTail(K: nat, c: seq<Wide>, q: seq<Item>)
    requires c != [] && MarkAll(K, c) == Emitted(K, c, q) + q && |q| <= |c[|c| - 1].val|
    ensures q == Mark(K, c[|c| - 1])[|c[|c| - 1].val| - |q|..]
  {
    var a, b := MarkAll(K, c[..|c| - 1]), Mark(K, c[|c| - 1]);
    assert MarkAll(K, c) == a + b;
    assert q == (a + b)[|a + b| - |q|..];
  }

  /**
   With less than a row buffered the latest flit alone decides: the rest goes out if it closes
   its job and waits otherwise, whatever `last` bits older flits left behind.
   */
  lemma {:induction false} TailGroup(N: nat, K: nat, c: seq<Wide>, q: seq<Item>)
    requires 0 < K <= N && WidthIs(N, c) && MarkAll(K, c) == Emitted(K, c, q) + q && 0 < |q| < K
    ensures c != [] && Group(K, q) == if c[|c| - 1].last then q else []
    ensures forall i :: 0 <= i < |q| ==> q[i].last == c[|c| - 1].last
  {
    assert c != [];
    var x := c[|c| - 1];
    assert |x.val| == N;
    MarkAllTail(K, c, q);
    forall i | 0 <= i < |q|
      ensures q[i].last == x.last
    {
      assert q[i] == Mark(K, x)[N - |q| + i];
    }
  }

  lemma {:induction false} WriteTracks(N: nat, K: nat, c: seq<Wide>, q: seq<Item>, lanes: seq<Fifo<Item>>)
    requires FunnelInv(N, K, c, q, lanes)
    ensures Tracks(K, c, q[|Group(K, q)|..], WriteGroup(lanes, Group(K, q)))
  {
    if 0 < |q| < K {
      TailGroup(N, K, c, q);
    }
    TracksWrite(N, K, c, q, lanes, Group(K, q));
  }

  lemma {:induction false} NarrowStepInv(N: nat, K: nat, q: seq<Item>, src: Fifo<Wide>, lanes: seq<Fifo<Item>>)
    requires K < N && WidthIs(N, src.log)
    requires FunnelInv(N, K, src.Consumed(), q, lanes)
    ensures var (q', src', lanes') := NarrowStep(q, src, lanes);
            FunnelInv(N, K, src'.Consumed(), q', lanes')
  {
    var c, g := src.Consumed(), Group(K, q);
    WriteTracks(N, K, c, q, lanes);
    if |q[|g|..]| < K && !src.Empty() {
      TracksRead(K, c, q[|g|..], WriteGroup(lanes, g), src.Peek());
    }
  }

  lemma {:induction false} SplitStepInv(N: nat, q: seq<Item>, src: Fifo<Wide>, lanes: seq<Fifo<Item>>)
    requires WidthIs(N, src.log)
    requires FunnelInv(N, N, src.Consumed(), q, lanes)
    ensures var (q', src', lanes') := SplitStep(q, src, lanes);
            FunnelInv(N, N, src'.Consumed(), q', lanes')
  {
    var c := src.Consumed();
    if !src.Empty() {
      var x := src.Peek();
      TracksRead(N, c, q, lanes, x);
      assert q + Mark(N, x) == Mark(N, x);
      TracksWrite(N, N, c + [x], Mark(N, x), lanes, Mark(N, x));
      assert Mark(N, x)[|Mark(N, x)|..] == q;
    }
  }

  /** No timing of the source loses, duplicates or misplaces an item. */
  lemma {:induction false} FunnelStepInv(N: nat, K: nat, q: seq<Item>, src: Fifo<Wide>, lanes: seq<Fifo<Item>>)
    requires WidthIs(N, src.log)
    requires FunnelInv(N, K, src.Consumed(), q, lanes)
    ensures var (q', src', lanes') := FunnelStep(N, q, src, lanes);
            FunnelInv(N, K, src'.Consumed(), q', lanes')
  {
    if K < N {
      NarrowStepInv(N, K, q, src, lanes);
    } else {
      SplitStepInv(N, q, src, lanes);
    }
  }

  // What the invariant says about a job.

  /** The closed job `j` of every lane. */
  function JobParts(lanes: seq<Fifo<Item>>, j: nat): (r: seq<seq<Word>>)
    requires forall i :: 0 <= i < |lanes| ==> j < |Jobs(lanes[i].log)|
    ensures |r| == |lanes|
  {
    seq(|lanes|, i requires 0 <= i < |lanes| => Jobs(lanes[i].log)[j])
  }

  /** Closed jobs stay closed and unchanged. */
  lemma {:induction false} ParsePrefix(K: nat, a: seq<Item>, b: seq<Item>)
    ensures Parse(K, a).done <= Parse(K, a + b).done
    decreases |b|
  {
    if b == [] {
      assert a + b == a;
    } else {
      assert a + b == (a + b[..|b| - 1]) + [b[|b| - 1]];
      ParsePrefix(K, a, b[..|b| - 1]);
      ParseSnoc(K, a + b[..|b| - 1], b[|b| - 1]);
    }
  }

  lemma {:induction false} SharedParts(lanes: seq<Fifo<Item>>, j: nat, job: seq<Word>)
    requires Shared(Logs(lanes), j, job)
    requires forall i :: 0 <= i < |lanes| ==> j < |Jobs(lanes[i].log)|
    ensures DealtRound(|lanes|, job, JobParts(lanes, j))
  {
    var logs, K := Logs(lanes), |lanes|;
    var owners :| OwnedBy(logs, j, job, owners) && Cyclic(K, owners);
    forall i | 0 <= i < K
      ensures JobParts(lanes, j)[i] == Picked(job, owners, i)
    {
      assert Share(logs[i], j) == JobParts(lanes, j)[i];
    }
    assert JobParts(lanes, j) == AllPicked(job, owners, K);
  }

  lemma {:induction false} DealPartition(K: nat, job: seq<Word>, parts: seq<seq<Word>>)
    requires DealtRound(K, job, parts)
    ensures multiset(Flatten(parts)) == multiset(job)
  {
    var owners :| |owners| == |job| && parts == AllPicked(job, owners, K) && Cyclic(K, owners) && Below(K, owners);
    PickedPartition(job, owners, K);
  }

  /** A job closed by lane 0 is one of the jobs consumed, and shared out. */
  lemma {:induction false} ClosedIsShared(N: nat, K: nat, c: seq<Wide>, q: seq<Item>, lanes: seq<Fifo<Item>>, j: nat)
    requires FunnelInv(N, K, c, q, lanes) && j < |Jobs(lanes[0].log)|
    ensures j < |JobWords(c)| && Shared(Logs(lanes), j, JobWords(c)[j])
  {
    var s, logs := Emitted(K, c, q), Logs(lanes);
    var d := Parse(K, s);
    assert d.done <= JobWords(c) by {
      MarkAllParse(N, K, c);
      ParsePrefix(K, s, q);
    }
    assert !Served(K, 0, d.marked, 0);
    assert |Jobs(logs[0])| == |d.done|;
    assert d.done[j] == JobWords(c)[j];
  }

  /**
   Once a job has left the buffer, the lanes together hold exactly its words, each lane every K-th
   of them in their order, beginning with whichever lane came next.
   */
  lemma {:induction false} LanesPartitionJob(N: nat, K: nat, c: seq<Wide>, q: seq<Item>, lanes: seq<Fifo<Item>>, j: nat)
    requires FunnelInv(N, K, c, q, lanes)
    requires forall i :: 0 <= i < K ==> j < |Jobs(lanes[i].log)|
    ensures j < |JobWords(c)|
    ensures DealtRound(K, JobWords(c)[j], JobParts(lanes, j))
    ensures multiset(Flatten(JobParts(lanes, j))) == multiset(JobWords(c)[j])
  {
    ClosedIsShared(N, K, c, q, lanes, j);
    SharedParts(lanes, j, JobWords(c)[j]);
    DealPartition(K, JobWords(c)[j], JobParts(lanes, j));
  }

  // Draining.

  /** No further step hands anything to the lanes unless the source delivers. */
  predicate FunnelIdle(N: nat, K: nat, q: seq<Item>, src: Fifo<Wide>) {
    src.Empty() && Group(K, q) == []
  }

  /** An idle funnel buffers nothing of a complete job: each lane has closed all of them. */
  lemma {:induction false} IdleMeansDelivered(N: nat, K: nat, q: seq<Item>, src: Fifo<Wide>, lanes: seq<Fifo<Item>>)
    requires FunnelInv(N, K, src.Consumed(), q, lanes)
    requires FunnelIdle(N, K, q, src)
    ensures forall i :: 0 <= i < K ==> |Jobs(lanes[i].log)| == |JobWords(src.Consumed())|
  {
    var c := src.Consumed();
    var s, logs := Emitted(K, c, q), Logs(lanes);
    assert Parse(K, s).done == JobWords(c) && Parse(K, s).marked == 0 by {
      MarkAllParse(N, K, c);
      if q != [] {
        TailGroup(N, K, c, q);
        ParseUnmarked(K, s, q);
      } else {
        assert s + q == s;
      }
    }
    forall i | 0 <= i < K
      ensures |Jobs(lanes[i].log)| == |JobWords(c)|
    {
      assert !Served(K, 0, 0, i) && lanes[i].log == logs[i];
    }
  }

  /** After a job's final flit and with an empty source, each step hands out a row until the buffer is empty. */
  lemma {:induction false} FunnelDrains(N: nat, K: nat, q: seq<Item>, src: Fifo<Wide>, lanes: seq<Fifo<Item>>)
    requires K < N && FunnelInv(N, K, src.Consumed(), q, lanes) && WidthIs(N, src.log)
    requires src.Empty() && src.Consumed() != [] && src.Consumed()[|src.Consumed()| - 1].last
    ensures var (q', src', lanes') := FunnelStep(N, q, src, lanes);
            src' == src && |q'| == (if |q| <= K then 0 else |q| - K) && FunnelInv(N, K, src.Consumed(), q', lanes')
  {
    FunnelStepInv(N, K, q, src, lanes);
    var c := src.Consumed();
    if 0 < |q| < K {
      TailGroup(N, K, c, q);
    }
  }

  /** `n` steps in a row that find the source empty. */
  function Steps(n: nat, N: nat, q: seq<Item>, src: Fifo<Wide>, lanes: seq<Fifo<Item>>)
      : (r: (seq<Item>, Fifo<Wide>, seq<Fifo<Item>>))
    ensures |r.2| == |lanes|
  {
    if n == 0 then (q, src, lanes)
    else
      var (q', src', lanes') := FunnelStep(N, q, src, lanes);
      Steps(n - 1, N, q', src', lanes')
  }

  /** The number of items in `n` full rows. */
  function Rows(n: nat, K: nat): nat {
    if n == 0 then 0 else Rows(n - 1, K) + K
  }

  /** Whatever does not fill a row at the end of the buffer is flagged. */
  predicate EndFlagged(K: nat, q: seq<Item>) {
    forall i :: 0 <= i < |q| && |q| < i + K ==> q[i].last
  }

  lemma {:induction false} ClosedJobFlagged(N: nat, K: nat, q: seq<Item>, c: seq<Wide>)
    requires 0 < K <= N && WidthIs(N, c) && c != [] && c[|c| - 1].last && MarkAll(K, c) == Emitted(K, c, q) + q
    ensures EndFlagged(K, q)
  {
    var x, a, all := c[|c| - 1], MarkAll(K, c[..|c| - 1]), MarkAll(K, c);
    assert |x.val| == N && all == a + Mark(K, x);
    forall i | 0 <= i < |q| && |q| < i + K
      ensures q[i].last
    {
      assert q[i] == all[|all| - |q| + i] == Mark(K, x)[N - |q| + i];
    }
  }

  lemma {:induction false} QueueDrains(n: nat, N: nat, K: nat, q: seq<Item>, src: Fifo<Wide>, lanes: seq<Fifo<Item>>)
    requires 0 < K < N && |lanes| == K && src.Empty() && EndFlagged(K, q)
    ensures Steps(n, N, q, src, lanes).0 == [] <==> |q| <= Rows(n, K)
    decreases n
  {
    if n > 0 {
      var r := FunnelStep(N, q, src, lanes);
      assert r.0 == q[|Group(K, q)|..] && EndFlagged(K, r.0);
      QueueDrains(n - 1, N, K, r.0, src, r.2);
    }
  }

  /** The buffer is empty after as many steps as it holds rows, the last of them counted in full. */
  lemma {:induction false} DrainBound(n: nat, N: nat, K: nat, q: seq<Item>, src: Fifo<Wide>, lanes: seq<Fifo<Item>>)
    requires K < N && FunnelInv(N, K, src.Consumed(), q, lanes) && WidthIs(N, src.log)
    requires src.Empty() && src.Consumed() != [] && src.Consumed()[|src.Consumed()| - 1].last
    ensures Steps(n, N, q, src, lanes).0 == [] <==> |q| <= Rows(n, K)
  {
    ClosedJobFlagged(N, K, q, src.Consumed());
    QueueDrains(n, N, K, q, src, lanes);
  }
}
