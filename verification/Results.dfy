/**
 The stages behind the sketches. Each turns complete jobs of its inputs into output:
 a fold emits one value per job, the concatenation strings the jobs of its inputs
 together, the basic metrics emit four words per job, and the composition interleaves
 all results into one record per job.
 */
module Results {
  import opened Streams
  import opened Lanes

  // Folds: `Fold` and `HllEstimator`.

  function FoldOf<S>(f: (S, int) -> S, zero: S, s: seq<int>): S {
    if s == [] then zero else f(FoldOf(f, zero, s[..|s| - 1]), s[|s| - 1])
  }

  function FoldStep<S, R>(f: (S, int) -> S, zero: S, emit: S -> R, res: S, src: Fifo<Flit<int>>, dst: Fifo<R>)
      : (r: (S, Fifo<Flit<int>>, Fifo<R>))
  {
    if src.Empty() then (res, src, dst)
    else
      var x := src.Peek();
      var y := f(res, x.val);
      if x.last then (zero, src.Read(), dst.Write(emit(y))) else (y, src.Read(), dst)
  }

  ghost predicate FoldInv<S, R>(f: (S, int) -> S, zero: S, emit: S -> R, res: S, c: seq<Flit<int>>, o: seq<R>) {
    && res == FoldOf(f, zero, Open(c))
    && |o| == |Jobs(c)|
    && forall j :: 0 <= j < |o| ==> o[j] == emit(FoldOf(f, zero, Jobs(c)[j]))
  }

  /** A fold emits one value per job, and nothing of a job leaks into the next. */
  lemma {:induction false} FoldStepInv<S, R>(f: (S, int) -> S, zero: S, emit: S -> R, res: S,
        src: Fifo<Flit<int>>, dst: Fifo<R>)
    requires FoldInv(f, zero, emit, res, src.Consumed(), dst.log)
    ensures var (res', src', dst') := FoldStep(f, zero, emit, res, src, dst);
            FoldInv(f, zero, emit, res', src'.Consumed(), dst'.log)
  {
    if !src.Empty() {
      var c, x := src.Consumed(), src.Peek();
      JobsSnoc(c, x);
      assert (Open(c) + [x.val])[..|Open(c)|] == Open(c);
    }
  }

  /** Accumulate squares in 64 bits: what the AGMS rows fold with. */
  function AddSquare(): (int, int) -> int {
    (a, b) => (a + b * b) % TWO_64
  }

  class Fold {
    var res: int

    constructor ()
      ensures res == 0
    {
      res := 0;
    }

    method Step(src: Stream<Flit<int>>, dst: Stream<int>, f: (int, int) -> int)
      modifies this, src, dst
      ensures (res, src.fifo, dst.fifo) == FoldStep(f, 0, (r: int) => r, old(res), old(src.fifo), old(dst.fifo))
    {
      if !src.fifo.Empty() {
        var x := src.fifo.Peek();
        src.fifo := src.fifo.Read();
        res := f(res, x.val);
        if x.last {
          dst.fifo := dst.fifo.Write(res);
          res := 0;
        }
      }
    }
  }

  // Concatenation.

  function ConcatStep(idx: nat, srcs: seq<Fifo<Flit<int>>>, dst: Fifo<Flit<int>>)
      : (r: (nat, seq<Fifo<Flit<int>>>, Fifo<Flit<int>>))
    requires idx < |srcs|
    ensures r.0 < |srcs| == |r.1|
  {
    if srcs[idx].Empty() then (idx, srcs, dst)
    else
      var x := srcs[idx].Peek();
      var wrap := x.last && idx == |srcs| - 1;
      (if wrap then 0 else if x.last then idx + 1 else idx,
       srcs[idx := srcs[idx].Read()],
       dst.Write(Flit(wrap, x.val)))
  }

  /** Job `j` of a stream, empty if it has not been closed yet. */
  function JobAt(c: seq<Flit<int>>, j: nat): seq<int> {
    if j < |Jobs(c)| then Jobs(c)[j] else []
  }

  /** Job `j` of the first `n` inputs, strung together. */
  function Strung(srcs: seq<Fifo<Flit<int>>>, n: nat, j: nat): seq<int>
    requires n <= |srcs|
  {
    if n == 0 then [] else Strung(srcs, n - 1, j) + JobAt(srcs[n - 1].Consumed(), j)
  }

  /** Inputs before `idx` are one job ahead; only input `idx` is inside a job. */
  ghost predicate TakesTurns(idx: nat, srcs: seq<Fifo<Flit<int>>>, n: nat) {
    && idx < |srcs|
    && forall r :: 0 <= r < |srcs| ==>
         && |Jobs(srcs[r].Consumed())| == (if r < idx then n + 1 else n)
         && (r != idx ==> Open(srcs[r].Consumed()) == [])
  }

  /** The output consists of the closed jobs `js` and the open one `op`. */
  ghost predicate Concatenated(idx: nat, srcs: seq<Fifo<Flit<int>>>, js: seq<seq<int>>, op: seq<int>) {
    && TakesTurns(idx, srcs, |js|)
    && op == Strung(srcs, idx, |js|) + Open(srcs[idx].Consumed())
    && forall j :: 0 <= j < |js| ==> js[j] == Strung(srcs, |srcs|, j)
  }

  ghost predicate ConcatInv(idx: nat, srcs: seq<Fifo<Flit<int>>>, o: seq<Flit<int>>) {
    Concatenated(idx, srcs, Jobs(o), Open(o))
  }

  lemma {:induction false} StrungStable(a: seq<Fifo<Flit<int>>>, b: seq<Fifo<Flit<int>>>, n: nat, j: nat)
    requires n <= |a| == |b|
    requires forall r :: 0 <= r < n ==> j < |Jobs(a[r].Consumed())| && Jobs(a[r].Consumed()) <= Jobs(b[r].Consumed())
    ensures Strung(a, n, j) == Strung(b, n, j)
  {
    if n > 0 {
      StrungStable(a, b, n - 1, j);
    }
  }

  lemma {:induction false} TurnsStep(idx: nat, srcs: seq<Fifo<Flit<int>>>, dst: Fifo<Flit<int>>, n: nat)
    requires TakesTurns(idx, srcs, n) && !srcs[idx].Empty()
    ensures var (idx', srcs', dst') := ConcatStep(idx, srcs, dst);
            && TakesTurns(idx', srcs', if srcs[idx].Peek().last && idx == |srcs| - 1 then n + 1 else n)
            && forall r :: 0 <= r < |srcs| ==> Jobs(srcs[r].Consumed()) <= Jobs(srcs'[r].Consumed())
  {
    JobsSnoc(srcs[idx].Consumed(), srcs[idx].Peek());
  }

  /** The input whose turn it is has delivered one more value, and perhaps closed its job. */
  lemma {:induction false} TurnTaken(c: seq<Flit<int>>, x: Flit<int>, n: nat)
    requires |Jobs(c)| == n
    ensures x.last ==> JobAt(c + [x], n) == Open(c) + [x.val] && Open(c + [x]) == []
    ensures !x.last ==> Open(c + [x]) == Open(c) + [x.val]
  {
    JobsSnoc(c, x);
  }

  /** With one more value read from input `idx`. */
  lemma {:induction false} StrungRead(idx: nat, srcs: seq<Fifo<Flit<int>>>, n: nat)
    requires TakesTurns(idx, srcs, n) && !srcs[idx].Empty()
    ensures var srcs' := srcs[idx := srcs[idx].Read()];
            var x := srcs[idx].Peek();
            var delivered := Strung(srcs, idx, n) + (Open(srcs[idx].Consumed()) + [x.val]);
            if x.last then delivered == Strung(srcs', idx + 1, n) && Open(srcs'[idx].Consumed()) == []
            else delivered == Strung(srcs', idx, n) + Open(srcs'[idx].Consumed())
  {
    var srcs' := srcs[idx := srcs[idx].Read()];
    var c, x := srcs[idx].Consumed(), srcs[idx].Peek();
    TurnTaken(c, x, n);
    assert srcs'[idx].Consumed() == c + [x];
    StrungStable(srcs, srcs', idx, n);
  }

  /** What the inputs have delivered so far, in output order. */
  lemma {:induction false} Delivered(idx: nat, srcs: seq<Fifo<Flit<int>>>, dst: Fifo<Flit<int>>, n: nat)
    requires TakesTurns(idx, srcs, n) && !srcs[idx].Empty()
    ensures var (idx', srcs', dst') := ConcatStep(idx, srcs, dst);
            var x := srcs[idx].Peek();
            var delivered := Strung(srcs, idx, n) + (Open(srcs[idx].Consumed()) + [x.val]);
            idx' < |srcs'| == |srcs| &&
            if x.last && idx == |srcs| - 1 then
              && delivered == Strung(srcs', |srcs|, n)
              && [] == Strung(srcs', idx', n + 1) + Open(srcs'[idx'].Consumed())
            else
              delivered == Strung(srcs', idx', n) + Open(srcs'[idx'].Consumed())
  {
    var (idx', srcs', dst') := ConcatStep(idx, srcs, dst);
    TurnsStep(idx, srcs, dst, n);
    StrungRead(idx, srcs, n);
  }

  lemma {:induction false} StrungStep(idx: nat, srcs: seq<Fifo<Flit<int>>>, dst: Fifo<Flit<int>>, n: nat)
    requires TakesTurns(idx, srcs, n) && !srcs[idx].Empty()
    ensures var (idx', srcs', dst') := ConcatStep(idx, srcs, dst);
            forall j :: 0 <= j < n ==> Strung(srcs', |srcs|, j) == Strung(srcs, |srcs|, j)
  {
    var (idx', srcs', dst') := ConcatStep(idx, srcs, dst);
    TurnsStep(idx, srcs, dst, n);
    forall j | 0 <= j < n
      ensures Strung(srcs', |srcs|, j) == Strung(srcs, |srcs|, j)
    {
      StrungStable(srcs, srcs', |srcs|, j);
    }
  }

  lemma {:induction false} ConcatenatedInside(idx: nat, srcs: seq<Fifo<Flit<int>>>, dst: Fifo<Flit<int>>,
        js: seq<seq<int>>, op: seq<int>)
    requires Concatenated(idx, srcs, js, op) && !srcs[idx].Empty()
    requires !(srcs[idx].Peek().last && idx == |srcs| - 1)
    ensures var (idx', srcs', dst') := ConcatStep(idx, srcs, dst);
            Concatenated(idx', srcs', js, op + [srcs[idx].Peek().val])
  {
    var x := srcs[idx].Peek();
    TurnsStep(idx, srcs, dst, |js|);
    Delivered(idx, srcs, dst, |js|);
    StrungStep(idx, srcs, dst, |js|);
    assert op + [x.val] == Strung(srcs, idx, |js|) + (Open(srcs[idx].Consumed()) + [x.val]);
  }

  /** The jobs `js` are those of all inputs strung together. */
  ghost predicate AllStrung(srcs: seq<Fifo<Flit<int>>>, js: seq<seq<int>>) {
    forall j :: 0 <= j < |js| ==> js[j] == Strung(srcs, |srcs|, j)
  }

  lemma {:induction false} AllStrungSnoc(srcs: seq<Fifo<Flit<int>>>, js: seq<seq<int>>, y: seq<int>)
    requires AllStrung(srcs, js) && y == Strung(srcs, |srcs|, |js|)
    ensures AllStrung(srcs, js + [y])
  {
  }

  lemma {:induction false} ConcatenatedWrap(idx: nat, srcs: seq<Fifo<Flit<int>>>, dst: Fifo<Flit<int>>,
        js: seq<seq<int>>, op: seq<int>)
    requires Concatenated(idx, srcs, js, op) && !srcs[idx].Empty()
    requires srcs[idx].Peek().last && idx == |srcs| - 1
    ensures var (idx', srcs', dst') := ConcatStep(idx, srcs, dst);
            Concatenated(idx', srcs', js + [op + [srcs[idx].Peek().val]], [])
  {
    var (idx', srcs', dst') := ConcatStep(idx, srcs, dst);
    var y := op + [srcs[idx].Peek().val];
    TurnsStep(idx, srcs, dst, |js|);
    Delivered(idx, srcs, dst, |js|);
    StrungStep(idx, srcs, dst, |js|);
    assert y == Strung(srcs, idx, |js|) + (Open(srcs[idx].Consumed()) + [srcs[idx].Peek().val]);
    AllStrungSnoc(srcs', js, y);
  }

  /** Job `j` of the output is job `j` of all inputs in order; only its end carries `last`. */
  lemma {:induction false} ConcatStepInv(idx: nat, srcs: seq<Fifo<Flit<int>>>, dst: Fifo<Flit<int>>)
    requires ConcatInv(idx, srcs, dst.log)
    ensures var (idx', srcs', dst') := ConcatStep(idx, srcs, dst);
            ConcatInv(idx', srcs', dst'.log)
  {
    if !srcs[idx].Empty() {
      var x := srcs[idx].Peek();
      if x.last && idx == |srcs| - 1 {
        ConcatenatedWrap(idx, srcs, dst, Jobs(dst.log), Open(dst.log));
      } else {
        ConcatenatedInside(idx, srcs, dst, Jobs(dst.log), Open(dst.log));
      }
      JobsSnoc(dst.log, Flit(x.last && idx == |srcs| - 1, x.val));
    }
  }

  lemma {:induction false} ConcatInit(srcs: seq<Fifo<Flit<int>>>)
    requires |srcs| > 0 && forall r :: 0 <= r < |srcs| ==> srcs[r].Consumed() == []
    ensures ConcatInv(0, srcs, [])
  {
  }

  class Concat {
    var idx: nat

    constructor ()
      ensures idx == 0
    {
      idx := 0;
    }

    method Step(src: seq<Stream<Flit<int>>>, dst: Stream<Flit<int>>)
      requires idx < |src| && Distinct(src) && dst !in src
      modifies this, src, dst
      ensures idx < |src|
      ensures (idx, Fifos(src), dst.fifo) == ConcatStep(old(idx), old(Fifos(src)), old(dst.fifo))
    {
      if !src[idx].fifo.Empty() {
        var x := src[idx].fifo.Peek();
        src[idx].fifo := src[idx].fifo.Read();
        assert Fifos(src) == old(Fifos(src))[idx := src[idx].fifo];
        var last := x.last;
        var wrap := last && idx == |src| - 1;
        dst.fifo := dst.fifo.Write(Flit(wrap, x.val));
        assert Fifos(src) == ConcatStep(idx, old(Fifos(src)), old(dst.fifo)).1;
        if last {
          if wrap {
            idx := 0;
          } else {
            idx := idx + 1;
          }
        }
        assert Fifos(src) == ConcatStep(old(idx), old(Fifos(src)), old(dst.fifo)).1;
      }
    }
  }
}
