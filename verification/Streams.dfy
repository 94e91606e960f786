/**
 Streams of flits and the job structure their `last` flags impose.

 A FIFO keeps everything ever written to it together with the number of elements
 already read, so that a stage can be specified as a function from what it has
 consumed to what it has produced.
 */
module Streams {

  /** A value with a `last` flag that closes a job. */
  datatype Flit<T> = Flit(last: bool, val: T)

  datatype Option<T> = None | Some(value: T)

  datatype Queue<T> = Queue(log: seq<T>, rd: nat) {

    /** The elements read so far. */
    function Consumed(): seq<T>
      requires rd <= |log|
    {
      log[..rd]
    }

    predicate Empty() {
      rd >= |log|
    }

    function Write(x: T): (f: Fifo<T>)
      requires rd <= |log|
      ensures f.log == log + [x] && f.rd == rd
      ensures f.Consumed() == Consumed()
    {
      Queue(log + [x], rd)
    }

    function Peek(): T
      requires !Empty()
    {
      log[rd]
    }

    function Read(): (f: Fifo<T>)
      requires !Empty()
      ensures f.log == log && f.rd == rd + 1
      ensures f.Consumed() == Consumed() + [Peek()]
    {
      Queue(log, rd + 1)
    }
  }

  type Fifo<T> = f: Queue<T> | f.rd <= |f.log| witness Queue([], 0)

  /** A stream object as the stages see it. */
  class Stream<T> {
    var fifo: Fifo<T>

    constructor ()
      ensures fifo == Queue([], 0)
    {
      fifo := Queue([], 0);
    }
  }

  function Fifos<T>(s: seq<Stream<T>>): (r: seq<Fifo<T>>)
    reads s
    ensures |r| == |s|
  {
    seq(|s|, i requires 0 <= i < |s| reads s => s[i].fifo)
  }

  ghost predicate Distinct<T>(s: seq<Stream<T>>) {
    forall i, j :: 0 <= i < j < |s| ==> s[i] != s[j]
  }

  /** The complete jobs of a flit sequence, in order. */
  function Jobs<T>(s: seq<Flit<T>>): (js: seq<seq<T>>) {
    if s == [] then []
    else
      var p, x := s[..|s| - 1], s[|s| - 1];
      if x.last then Jobs(p) + [Open(p) + [x.val]] else Jobs(p)
  }

  /** The values behind the latest `last` flag: the job still open. */
  function Open<T>(s: seq<Flit<T>>): seq<T> {
    if s == [] then []
    else
      var p, x := s[..|s| - 1], s[|s| - 1];
      if x.last then [] else Open(p) + [x.val]
  }

  lemma {:induction false} JobsSnoc<T>(s: seq<Flit<T>>, x: Flit<T>)
    ensures Jobs(s + [x]) == if x.last then Jobs(s) + [Open(s) + [x.val]] else Jobs(s)
    ensures Open(s + [x]) == if x.last then [] else Open(s) + [x.val]
  {
    assert (s + [x])[..|s|] == s;
  }

  /** Reading further never changes a job that is already complete. */
  lemma {:induction false} JobsPrefix<T>(a: seq<Flit<T>>, b: seq<Flit<T>>)
    requires a <= b
    ensures Jobs(a) <= Jobs(b)
    decreases |b|
  {
    if a != b {
      assert a <= b[..|b| - 1];
      JobsPrefix(a, b[..|b| - 1]);
    }
  }

  function Map<A, B>(f: A -> B, s: seq<A>): (r: seq<B>)
    ensures |r| == |s|
  {
    seq(|s|, i requires 0 <= i < |s| => f(s[i]))
  }

  function MapFlit<A, B>(f: A -> B, s: seq<Flit<A>>): (r: seq<Flit<B>>)
    ensures |r| == |s|
  {
    seq(|s|, i requires 0 <= i < |s| => Flit(s[i].last, f(s[i].val)))
  }

  lemma {:induction false} MapFlitSnoc<A, B>(f: A -> B, s: seq<Flit<A>>, x: Flit<A>)
    ensures MapFlit(f, s + [x]) == MapFlit(f, s) + [Flit(x.last, f(x.val))]
  {
  }

  /** A stage that maps the values leaves the job structure as it is. */
  lemma {:induction false} JobsMap<A, B>(f: A -> B, s: seq<Flit<A>>)
    ensures |Jobs(MapFlit(f, s))| == |Jobs(s)|
    ensures forall j :: 0 <= j < |Jobs(s)| ==> Jobs(MapFlit(f, s))[j] == Map(f, Jobs(s)[j])
    ensures Open(MapFlit(f, s)) == Map(f, Open(s))
    decreases |s|
  {
    if s != [] {
      var p, x := s[..|s| - 1], s[|s| - 1];
      assert s == p + [x];
      MapFlitSnoc(f, p, x);
      JobsMap(f, p);
      JobsSnoc(p, x);
      JobsSnoc(MapFlit(f, p), Flit(x.last, f(x.val)));
    }
  }

  function Flatten<T>(ss: seq<seq<T>>): seq<T> {
    if ss == [] then [] else Flatten(ss[..|ss| - 1]) + ss[|ss| - 1]
  }

  lemma {:induction false} FlattenSnoc<T>(ss: seq<seq<T>>, s: seq<T>)
    ensures Flatten(ss + [s]) == Flatten(ss) + s
  {
    assert (ss + [s])[..|ss|] == ss;
  }

  lemma {:induction false} FlattenConcat<T>(a: seq<seq<T>>, b: seq<seq<T>>)
    ensures Flatten(a + b) == Flatten(a) + Flatten(b)
    decreases |b|
  {
    if b == [] {
      assert a + b == a;
    } else {
      var p, x := b[..|b| - 1], b[|b| - 1];
      assert (a + b) == (a + p) + [x];
      FlattenSnoc(a + p, x);
      FlattenConcat(a, p);
      assert b == p + [x];
      FlattenSnoc(p, x);
    }
  }

  /** Elements added to one part are added to the whole. */
  lemma {:induction false} FlattenGrow<T>(ss: seq<seq<T>>, i: nat, x: seq<T>)
    requires i < |ss|
    ensures multiset(Flatten(ss[i := ss[i] + x])) == multiset(Flatten(ss)) + multiset(x)
    decreases |ss|
  {
    var n := |ss| - 1;
    var p, ss' := ss[..n], ss[i := ss[i] + x];
    assert Flatten(ss) == Flatten(p) + ss[n] && Flatten(ss') == Flatten(ss'[..n]) + ss'[n];
    if i < n {
      FlattenGrow(p, i, x);
      assert ss'[..n] == p[i := p[i] + x];
    } else {
      assert ss'[..n] == p;
    }
  }

  lemma {:induction false} FlattenEmpty<T>(ss: seq<seq<T>>)
    requires forall i :: 0 <= i < |ss| ==> ss[i] == []
    ensures Flatten(ss) == []
    decreases |ss|
  {
    if ss != [] {
      FlattenEmpty(ss[..|ss| - 1]);
    }
  }

  // Sequences distributed over several owners.

  /** The elements of `s` that owner `i` gets, in their order; `owners` names the owner of each. */
  function Picked<T>(s: seq<T>, owners: seq<nat>, i: nat): seq<T>
    requires |owners| <= |s|
  {
    if owners == [] then []
    else
      var n := |owners| - 1;
      Picked(s[..n], owners[..n], i) + if owners[n] == i then [s[n]] else []
  }

  lemma {:induction false} PickedSnoc<T>(s: seq<T>, owners: seq<nat>, x: T, p: nat, i: nat)
    requires |owners| == |s|
    ensures Picked(s + [x], owners + [p], i) == Picked(s, owners, i) + if p == i then [x] else []
  {
    assert (s + [x])[..|s|] == s && (owners + [p])[..|s|] == owners;
  }

  function AllPicked<T>(s: seq<T>, owners: seq<nat>, K: nat): (r: seq<seq<T>>)
    requires |owners| <= |s|
    ensures |r| == K
  {
    seq(K, i requires 0 <= i < K => Picked(s, owners, i))
  }

  lemma {:induction false} AllPickedGrows<T>(s: seq<T>, owners: seq<nat>, K: nat)
    requires |owners| == |s| > 0 && owners[|owners| - 1] < K
    ensures var n := |s| - 1;
            var before, p := AllPicked(s[..n], owners[..n], K), owners[n];
            AllPicked(s, owners, K) == before[p := before[p] + [s[n]]]
  {
    var n := |s| - 1;
    var before, p := AllPicked(s[..n], owners[..n], K), owners[n];
    var after := before[p := before[p] + [s[n]]];
    forall i | 0 <= i < K
      ensures AllPicked(s, owners, K)[i] == after[i]
    {
      assert Picked(s, owners, i) == before[i] + if p == i then [s[n]] else [];
    }
  }

  lemma {:induction false} MultisetSnoc<T>(s: seq<T>)
    requires s != []
    ensures multiset(s) == multiset(s[..|s| - 1]) + multiset([s[|s| - 1]])
  {
    assert s == s[..|s| - 1] + [s[|s| - 1]];
  }

  lemma {:induction false} PickedOneMore<T>(s: seq<T>, owners: seq<nat>, K: nat)
    requires |owners| == |s| > 0 && owners[|owners| - 1] < K
    ensures var n := |s| - 1;
            multiset(Flatten(AllPicked(s, owners, K))) == multiset(Flatten(AllPicked(s[..n], owners[..n], K)))
                + multiset([s[n]])
  {
    var n := |s| - 1;
    AllPickedGrows(s, owners, K);
    FlattenGrow(AllPicked(s[..n], owners[..n], K), owners[n], [s[n]]);
  }

  /** The owners together have exactly the elements of `s`. */
  lemma {:induction false} PickedPartition<T>(s: seq<T>, owners: seq<nat>, K: nat)
    requires |owners| == |s| && forall t :: 0 <= t < |owners| ==> owners[t] < K
    ensures multiset(Flatten(AllPicked(s, owners, K))) == multiset(s)
    decreases |s|
  {
    if s == [] {
      FlattenEmpty(AllPicked(s, owners, K));
    } else {
      var n := |s| - 1;
      MultisetSnoc(s);
      PickedPartition(s[..n], owners[..n], K);
      PickedOneMore(s, owners, K);
    }
  }

  // Sums over a sequence.

  function SumOver<T>(f: T -> nat, s: seq<T>): nat {
    if s == [] then 0 else SumOver(f, s[..|s| - 1]) + f(s[|s| - 1])
  }

  lemma {:induction false} SumOverSnoc<T>(f: T -> nat, s: seq<T>, x: T)
    ensures SumOver(f, s + [x]) == SumOver(f, s) + f(x)
  {
    assert (s + [x])[..|s|] == s;
  }

  lemma {:induction false} SumOverCons<T>(f: T -> nat, s: seq<T>)
    requires s != []
    ensures SumOver(f, s) == f(s[0]) + SumOver(f, s[1..])
    decreases |s|
  {
    var p := s[..|s| - 1];
    if p != [] {
      SumOverCons(f, p);
      assert s[1..][..|s| - 2] == p[1..];
    }
  }

  lemma {:induction false} SumOverMember<T>(f: T -> nat, s: seq<T>, i: nat)
    requires i < |s|
    ensures f(s[i]) <= SumOver(f, s)
    decreases |s|
  {
    if i < |s| - 1 {
      SumOverMember(f, s[..|s| - 1], i);
    }
  }

  lemma {:induction false} SumOverUpdate<T>(f: T -> nat, s: seq<T>, i: nat, x: T)
    requires i < |s|
    ensures SumOver(f, s[i := x]) + f(s[i]) == SumOver(f, s) + f(x)
    decreases |s|
  {
    var n := |s| - 1;
    if i < n {
      SumOverUpdate(f, s[..n], i, x);
      assert s[i := x][..n] == s[..n][i := x];
    } else {
      assert s[i := x][..n] == s[..n];
    }
  }

  lemma {:induction false} OneMoreTimes(m: nat, n: nat)
    ensures m * (n + 1) == m * n + m
  {
  }

  lemma {:induction false} SumOverBounds<T>(f: T -> nat, s: seq<T>, lo: nat, hi: nat)
    requires forall i :: 0 <= i < |s| ==> lo <= f(s[i]) <= hi
    ensures lo * |s| <= SumOver(f, s) <= hi * |s|
    ensures (exists i :: 0 <= i < |s| && f(s[i]) < hi) ==> SumOver(f, s) < hi * |s|
    ensures (exists i :: 0 <= i < |s| && f(s[i]) > lo) ==> lo * |s| < SumOver(f, s)
    decreases |s|
  {
    if s != [] {
      var p, n := s[..|s| - 1], |s| - 1;
      assert forall i :: 0 <= i < n ==> p[i] == s[i];
      SumOverBounds(f, p, lo, hi);
      OneMoreTimes(lo, n);
      OneMoreTimes(hi, n);
    }
  }

  lemma {:induction false} DivNat(h: nat, v: nat)
    requires v > 0
    ensures 0 <= h / v && 0 <= h % v < v && h == (h / v) * v + h % v
  {
    var q := h / v;
    assert h == q * v + h % v;
    assert (q + 1) * v == q * v + v > 0;
  }

  lemma {:induction false} NextMultiple(j: nat, m: nat)
    ensures (j + 1) * m == j * m + m
  {
  }

  /** Quotient and remainder of a row-major index. */
  lemma {:induction false} DivModUnique(q: nat, r: nat, m: nat)
    requires r < m
    ensures (q * m + r) / m == q && (q * m + r) % m == r
  {
    var t := q * m + r;
    assert t == (t / m) * m + t % m;
    assert (t / m - q) * m == (t / m) * m - q * m == r - t % m;
    SmallMultiple(t / m - q, m);
  }

  /** The only multiple of `m` strictly between `-m` and `m` is zero. */
  lemma {:induction false} SmallMultiple(d: int, m: int)
    requires -m < d * m < m
    ensures d == 0
  {
  }
}
