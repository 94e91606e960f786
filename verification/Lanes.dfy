/**
 How a stream of items that was dealt out over K lanes relates to the jobs it came from.

 Of every job exactly the K final items carry a `last` flag. Dealt out cyclically, each
 lane receives exactly one of them, wherever in the cycle the job happens to begin.
 */
module Lanes {
  import opened Streams

  const TWO_32 := 0x1_0000_0000
  const TWO_64 := 0x1_0000_0000_0000_0000

  type Word = x: int | 0 <= x < 0x1_0000_0000
  type Item = Flit<Word>

  /** Closed jobs, the items of the open one, and how many of these carried a `last` flag. */
  datatype Parsed = Parsed(done: seq<seq<Word>>, cur: seq<Word>, marked: nat)

  /** Read off the jobs of an item sequence whose jobs end with K flagged items. */
  function Parse(K: nat, s: seq<Item>): Parsed {
    if s == [] then Parsed([], [], 0)
    else
      var p, x := Parse(K, s[..|s| - 1]), s[|s| - 1];
      if !x.last then Parsed(p.done, p.cur + [x.val], p.marked)
      else if p.marked + 1 < K then Parsed(p.done, p.cur + [x.val], p.marked + 1)
      else Parsed(p.done + [p.cur + [x.val]], [], 0)
  }

  /** No unflagged item follows a flagged one within a job. */
  predicate WellMarked(K: nat, s: seq<Item>) {
    s == [] ||
    (WellMarked(K, s[..|s| - 1]) && (s[|s| - 1].last || Parse(K, s[..|s| - 1]).marked == 0))
  }

  lemma {:induction false} ParseSnoc(K: nat, s: seq<Item>, x: Item)
    ensures var p := Parse(K, s);
            Parse(K, s + [x]) ==
              if !x.last then Parsed(p.done, p.cur + [x.val], p.marked)
              else if p.marked + 1 < K then Parsed(p.done, p.cur + [x.val], p.marked + 1)
              else Parsed(p.done + [p.cur + [x.val]], [], 0)
    ensures WellMarked(K, s + [x]) <==> WellMarked(K, s) && (x.last || Parse(K, s).marked == 0)
  {
    assert (s + [x])[..|s|] == s;
  }

  lemma {:induction false} ParseBound(K: nat, s: seq<Item>)
    requires K > 0
    ensures Parse(K, s).marked < K
  {
    if s != [] {
      ParseBound(K, s[..|s| - 1]);
    }
  }

  lemma {:induction false} WellMarkedPrefix(K: nat, a: seq<Item>, b: seq<Item>)
    ensures WellMarked(K, a + b) ==> WellMarked(K, a)
    decreases |b|
  {
    if b == [] {
      assert a + b == a;
    } else {
      assert (a + b)[..|a + b| - 1] == a + b[..|b| - 1];
      WellMarkedPrefix(K, a, b[..|b| - 1]);
    }
  }

  /** Unflagged items leave the closed jobs as they are. */
  lemma {:induction false} ParseUnmarked(K: nat, a: seq<Item>, b: seq<Item>)
    requires forall i :: 0 <= i < |b| ==> !b[i].last
    ensures Parse(K, a + b).done == Parse(K, a).done
    ensures Parse(K, a + b).marked == Parse(K, a).marked
    decreases |b|
  {
    if b == [] {
      assert a + b == a;
    } else {
      assert a + b == (a + b[..|b| - 1]) + [b[|b| - 1]];
      ParseUnmarked(K, a, b[..|b| - 1]);
      ParseSnoc(K, a + b[..|b| - 1], b[|b| - 1]);
    }
  }

  /** The part of job `j` found in a lane; empty when the lane has not got that far. */
  function Share(log: seq<Item>, j: nat): seq<Word> {
    if j < |Jobs(log)| then Jobs(log)[j]
    else if j == |Jobs(log)| then Open(log)
    else []
  }

  /** With the next item going to lane `p`, the `m` lanes served last are the ones cyclically before `p`. */
  predicate Served(K: nat, p: nat, m: nat, i: nat) {
    p - m <= i < p || i >= p - m + K
  }

  // An order-preserving deal.

  /** `parts` is what K lanes have of `job` after its items were dealt out one by one in a circle. */
  ghost predicate DealtRound(K: nat, job: seq<Word>, parts: seq<seq<Word>>) {
    exists owners :: |owners| == |job| && parts == AllPicked(job, owners, K) && Cyclic(K, owners) && Below(K, owners)
  }

  /** Each lane's part of job `j` are the job's items that it owns, in the job's order. */
  ghost predicate OwnedBy(logs: seq<seq<Item>>, j: nat, job: seq<Word>, owners: seq<nat>) {
    && |owners| == |job| && Below(|logs|, owners)
    && forall i :: 0 <= i < |logs| ==> Share(logs[i], j) == Picked(job, owners, i)
  }

  predicate Below(K: nat, owners: seq<nat>) {
    forall t :: 0 <= t < |owners| ==> owners[t] < K
  }

  /** Ownership goes round the K lanes, beginning anywhere. */
  predicate Cyclic(K: nat, owners: seq<nat>) {
    forall t :: 0 <= t < |owners| - 1 ==> owners[t + 1] == if owners[t] + 1 == K then 0 else owners[t] + 1
  }

  /** Lane `p`, or the first one if `p` is past the last, comes next. */
  predicate ComesNext(K: nat, owners: seq<nat>, p: nat) {
    owners != [] ==>
      p == owners[|owners| - 1] + 1 || (p == 0 && owners[|owners| - 1] + 1 == K)
  }

  /** The lanes together hold exactly `job` as their job `j`, dealt out cyclically and in order. */
  ghost predicate Shared(logs: seq<seq<Item>>, j: nat, job: seq<Word>) {
    exists owners :: OwnedBy(logs, j, job, owners) && Cyclic(|logs|, owners)
  }

  /** The same of the open job, whose next item goes to lane `p`. */
  ghost predicate OpenShared(logs: seq<seq<Item>>, j: nat, job: seq<Word>, p: nat) {
    exists owners :: OwnedBy(logs, j, job, owners) && Cyclic(|logs|, owners) && ComesNext(|logs|, owners, p)
  }

  /** Where the lanes stand: those served by the open job have closed it, the others have not. */
  ghost predicate Aligned(K: nat, logs: seq<seq<Item>>, p: nat, d: Parsed) {
    && |logs| == K && p <= K && d.marked < K
    && forall i :: 0 <= i < K ==>
         if Served(K, p, d.marked, i) then |Jobs(logs[i])| == |d.done| + 1 && Open(logs[i]) == []
         else |Jobs(logs[i])| == |d.done|
  }

  /** Lanes `logs` hold exactly the items `s`; the next one goes to lane `p`. */
  ghost predicate Dealt(K: nat, logs: seq<seq<Item>>, p: nat, s: seq<Item>) {
    var d := Parse(K, s);
    && WellMarked(K, s)
    && Aligned(K, logs, p, d)
    && (forall j :: 0 <= j < |d.done| ==> Shared(logs, j, d.done[j]))
    && OpenShared(logs, |d.done|, d.cur, p)
  }

  lemma {:induction false} DealtInit(K: nat, logs: seq<seq<Item>>)
    requires K > 0 && |logs| == K
    requires forall i :: 0 <= i < K ==> logs[i] == []
    ensures Dealt(K, logs, 0, [])
  {
    NothingOpen(logs, 0, 0);
  }

  lemma {:induction false} ShareSnoc(log: seq<Item>, x: Item, j: nat)
    ensures Share(log + [x], j) == if j == |Jobs(log)| then Open(log) + [x.val] else Share(log, j)
  {
    JobsSnoc(log, x);
  }

  lemma {:induction false} SharedUnchanged(logs: seq<seq<Item>>, p: nat, x: Item, j: nat, job: seq<Word>)
    requires p < |logs| && Shared(logs, j, job) && j != |Jobs(logs[p])|
    ensures Shared(logs[p := logs[p] + [x]], j, job)
  {
    var owners :| OwnedBy(logs, j, job, owners) && Cyclic(|logs|, owners);
    ShareSnoc(logs[p], x, j);
    assert OwnedBy(logs[p := logs[p] + [x]], j, job, owners);
  }

  lemma {:induction false} OwnedGrows(logs: seq<seq<Item>>, p: nat, x: Item, j: nat, job: seq<Word>, owners: seq<nat>)
    requires p < |logs| && OwnedBy(logs, j, job, owners) && j == |Jobs(logs[p])|
    ensures OwnedBy(logs[p := logs[p] + [x]], j, job + [x.val], owners + [p])
  {
    var logs' := logs[p := logs[p] + [x]];
    ShareSnoc(logs[p], x, j);
    forall i | 0 <= i < |logs|
      ensures Share(logs'[i], j) == Picked(job + [x.val], owners + [p], i)
    {
      PickedSnoc(job, owners, x.val, p, i);
    }
  }

  /** The open job gets one more item, and perhaps ends with it. */
  lemma {:induction false} OpenGrows(logs: seq<seq<Item>>, p: nat, x: Item, j: nat, job: seq<Word>)
    requires p < |logs| && OpenShared(logs, j, job, p) && j == |Jobs(logs[p])|
    ensures Shared(logs[p := logs[p] + [x]], j, job + [x.val])
    ensures OpenShared(logs[p := logs[p] + [x]], j, job + [x.val], p + 1)
  {
    var owners :| OwnedBy(logs, j, job, owners) && Cyclic(|logs|, owners) && ComesNext(|logs|, owners, p);
    OwnedGrows(logs, p, x, j, job, owners);
    assert Cyclic(|logs|, owners + [p]) && ComesNext(|logs|, owners + [p], p + 1);
  }

  lemma {:induction false} NothingOpen(logs: seq<seq<Item>>, j: nat, p: nat)
    requires forall i :: 0 <= i < |logs| ==> Share(logs[i], j) == []
    ensures OpenShared(logs, j, [], p)
  {
    assert OwnedBy(logs, j, [], []) && ComesNext(|logs|, [], p);
  }

  lemma {:induction false} AlignedStep(K: nat, logs: seq<seq<Item>>, p: nat, s: seq<Item>, x: Item)
    requires Aligned(K, logs, p, Parse(K, s)) && p < K
    requires x.last || Parse(K, s).marked == 0
    ensures |Jobs(logs[p])| == |Parse(K, s).done|
    ensures Aligned(K, logs[p := logs[p] + [x]], p + 1, Parse(K, s + [x]))
  {
    var d := Parse(K, s);
    ParseSnoc(K, s, x);
    JobsSnoc(logs[p], x);
    assert !Served(K, p, d.marked, p);
  }

  /** The K-th flagged item leaves nothing of the next job in any lane. */
  lemma {:induction false} JobClosed(K: nat, logs: seq<seq<Item>>, p: nat, d: Parsed, x: Item, logs': seq<seq<Item>>)
    requires Aligned(K, logs, p, d) && p < K && d.marked == K - 1 && x.last
    requires logs' == logs[p := logs[p] + [x]]
    ensures OpenShared(logs', |d.done| + 1, [], p + 1)
  {
    JobsSnoc(logs[p], x);
    forall i | 0 <= i < K
      ensures Share(logs'[i], |d.done| + 1) == []
    {
      assert i != p ==> Served(K, p, d.marked, i);
    }
    NothingOpen(logs', |d.done| + 1, p + 1);
  }

  lemma {:induction false} DealItem(K: nat, logs: seq<seq<Item>>, p: nat, s: seq<Item>, x: Item)
    requires Dealt(K, logs, p, s) && p < K
    requires x.last || Parse(K, s).marked == 0
    ensures Dealt(K, logs[p := logs[p] + [x]], p + 1, s + [x])
  {
    var d, d' := Parse(K, s), Parse(K, s + [x]);
    var logs' := logs[p := logs[p] + [x]];
    ParseSnoc(K, s, x);
    AlignedStep(K, logs, p, s, x);
    OpenGrows(logs, p, x, |d.done|, d.cur);
    if |d'.done| > |d.done| {
      JobClosed(K, logs, p, d, x, logs');
    }
    forall j | 0 <= j < |d'.done|
      ensures Shared(logs', j, d'.done[j])
    {
      if j < |d.done| {
        SharedUnchanged(logs, p, x, j, d.done[j]);
      }
    }
  }

  /** The lanes after the items `g` went to lanes 0, 1, 2, ... */
  function Deal(logs: seq<seq<Item>>, g: seq<Item>): (r: seq<seq<Item>>)
    ensures |r| == |logs|
  {
    seq(|logs|, i requires 0 <= i < |logs| => if i < |g| then logs[i] + [g[i]] else logs[i])
  }

  lemma {:induction false} DealSnoc(logs: seq<seq<Item>>, g: seq<Item>)
    requires 0 < |g| <= |logs|
    ensures var n := |g| - 1;
            var before := Deal(logs, g[..n]);
            Deal(logs, g) == before[n := before[n] + [g[n]]]
  {
  }

  lemma {:induction false} DealItems(K: nat, logs: seq<seq<Item>>, s: seq<Item>, g: seq<Item>)
    requires Dealt(K, logs, 0, s) && |g| <= K && WellMarked(K, s + g)
    ensures Dealt(K, Deal(logs, g), |g|, s + g)
    decreases |g|
  {
    if g == [] {
      assert Deal(logs, g) == logs && s + g == s;
    } else {
      var n := |g| - 1;
      assert s + g == (s + g[..n]) + [g[n]];
      ParseSnoc(K, s + g[..n], g[n]);
      DealItems(K, logs, s, g[..n]);
      DealItem(K, Deal(logs, g[..n]), n, s + g[..n], g[n]);
      DealSnoc(logs, g);
    }
  }

  /** Lane 0 comes next after the last lane, and at the beginning of a job any lane may. */
  lemma {:induction false} OpenWraps(logs: seq<seq<Item>>, j: nat, job: seq<Word>, p: nat)
    requires OpenShared(logs, j, job, p) && (job == [] || p == |logs|)
    ensures OpenShared(logs, j, job, 0)
  {
    var owners :| OwnedBy(logs, j, job, owners) && Cyclic(|logs|, owners) && ComesNext(|logs|, owners, p);
    assert ComesNext(|logs|, owners, 0);
  }

  /** A group that fills all lanes, or that closes a job, hands over to lane 0 again. */
  lemma {:induction false} DealGroup(K: nat, logs: seq<seq<Item>>, s: seq<Item>, g: seq<Item>)
    requires Dealt(K, logs, 0, s) && |g| <= K && WellMarked(K, s + g)
    requires |g| == K || g == [] || (Parse(K, s + g).cur == [] && Parse(K, s + g).marked == 0)
    ensures Dealt(K, Deal(logs, g), 0, s + g)
  {
    var d := Parse(K, s + g);
    DealItems(K, logs, s, g);
    if g == [] {
      assert Deal(logs, g) == logs && s + g == s;
    } else {
      assert forall i :: 0 <= i < K ==> (Served(K, 0, d.marked, i) <==> Served(K, |g|, d.marked, i));
      OpenWraps(Deal(logs, g), |d.done|, d.cur, |g|);
    }
  }
}
