/**
 Bit utilities of the hardware: population count over a heap-shaped tree, reflected Gray
 codes, and one-hot codes. Bit vectors are sequences, least significant bit first.
 */
module BitUtils {
  import opened Monoids
  import opened BitSlices

  function Flog2(n: nat): (r: nat)
    requires n > 0
    ensures Pow2(r) <= n < Pow2(r + 1)
  {
    if n == 1 then 0 else 1 + Flog2(n / 2)
  }

  function Clog2(n: nat): (r: nat)
    requires n > 0
    ensures n <= Pow2(r) && (r > 0 ==> Pow2(r - 1) < n)
  {
    if n == 1 then 0 else 1 + Flog2(n - 1)
  }

  // Population count.

  function Ones(x: seq<bool>): nat {
    if x == [] then 0 else Ones(x[..|x| - 1]) + if x[|x| - 1] then 1 else 0
  }

  lemma {:induction false} OnesBound(x: seq<bool>)
    ensures Ones(x) <= |x|
    decreases |x|
  {
    if x != [] {
      OnesBound(x[..|x| - 1]);
    }
  }

  /** The sum of `n` nodes from `lo` on. */
  function Span(t: seq<nat>, lo: nat, n: nat): nat
    requires lo + n <= |t|
  {
    if n == 0 then 0 else Span(t, lo, n - 1) + t[lo + n - 1]
  }

  lemma {:induction false} SpanFront(t: seq<nat>, lo: nat, n: nat)
    requires lo + n < |t|
    ensures Span(t, lo, n + 1) == t[lo] + Span(t, lo + 1, n)
  {
    if n > 0 {
      SpanFront(t, lo, n - 1);
    }
  }

  lemma {:induction false} SpanUpdate(t: seq<nat>, i: nat, x: nat, lo: nat, n: nat)
    requires lo + n <= |t| && i < |t| && !(lo <= i < lo + n)
    ensures Span(t[i := x], lo, n) == Span(t, lo, n)
  {
    if n > 0 {
      SpanUpdate(t, i, x, lo, n - 1);
    }
  }

  /** A value stored in `w` bits. */
  function Stored(x: nat, w: nat): nat {
    x % Pow2(w)
  }

  /** Nodes `i` to `2 i` have as many set bits below them as nodes `i + 1` to `2 i + 2` had. */
  lemma {:induction false} NodeStep(t: seq<nat>, i: nat, total: nat, w: nat)
    requires 2 * i + 2 < |t| && Span(t, i + 1, i + 2) == total < Pow2(w)
    ensures var sum := t[2 * i + 1] + t[2 * i + 2];
            Stored(sum, w) == sum && Span(t[i := sum], i, i + 1) == total
  {
    var sum := t[2 * i + 1] + t[2 * i + 2];
    assert Span(t, i + 1, i + 2) == Span(t, i + 1, i) + t[2 * i + 1] + t[2 * i + 2];
    SpanFront(t[i := sum], i, i);
    SpanUpdate(t, i, sum, i + 1, i);
    MaskFits(sum, w);
  }

  lemma {:induction false} LeafStep(t: seq<nat>, x: seq<bool>, i: nat)
    requires i < |x| && |t| == 2 * |x| - 1 && Span(t, |x| - 1, i) == Ones(x[..i])
    ensures var leaf := if x[i] then 1 else 0;
            Span(t[|x| - 1 + i := leaf], |x| - 1, i + 1) == Ones(x[..i + 1])
  {
    SpanUpdate(t, |x| - 1 + i, if x[i] then 1 else 0, |x| - 1, i);
    assert x[..i + 1][..i] == x[..i];
  }

  /** Leaf `W - 1 + i` holds bit `i`. */
  method Leaves(tree: array<nat>, x: seq<bool>)
    requires |x| > 0 && tree.Length == 2 * |x| - 1
    modifies tree
    ensures Span(tree[..], |x| - 1, |x|) == Ones(x)
  {
    for i := 0 to |x|
      invariant Span(tree[..], |x| - 1, i) == Ones(x[..i])
    {
      ghost var t := tree[..];
      LeafStep(t, x, i);
      tree[|x| - 1 + i] := if x[i] then 1 else 0;
      assert tree[..] == t[|x| - 1 + i := tree[|x| - 1 + i]];
    }
    assert x[..|x|] == x;
  }

  /** Every other node, from the leaves up, is the sum of its two sons. */
  method Nodes(tree: array<nat>, W: nat, width: nat, ghost total: nat)
    requires W > 0 && tree.Length == 2 * W - 1 && Span(tree[..], W - 1, W) == total < Pow2(width)
    modifies tree
    ensures tree[0] == total
  {
    for i := W - 1 downto 0
      invariant Span(tree[..], i, i + 1) == total
    {
      ghost var t := tree[..];
      NodeStep(t, i, total, width);
      tree[i] := Stored(tree[2 * i + 1] + tree[2 * i + 2], width);
      assert tree[..] == t[i := tree[i]];
    }
    assert Span(tree[..], 0, 1) == Span(tree[..], 0, 0) + tree[0];
  }

  /**
   Count the set bits of a word of any width: the bits are the leaves of a tree, and every
   other node is the sum of its two sons. Nodes are just wide enough for the number `W`.
   */
  method Weight(x: seq<bool>) returns (r: nat)
    requires |x| > 0
    ensures r == Ones(x) < Pow2(Clog2(|x| + 1))
  {
    var W := |x|;
    var width := Clog2(W + 1);
    OnesBound(x);
    var tree := new nat[2 * W - 1](_ => 0);
    Leaves(tree, x);
    Nodes(tree, W, width, Ones(x));
    return tree[0];
  }

  // Gray codes.

  function Bit(b: seq<bool>, i: nat): bool {
    i < |b| && b[i]
  }

  /** `x ^ (x >> 1)` */
  function Bin2Gray(x: seq<bool>): (g: seq<bool>)
    ensures |g| == |x|
  {
    seq(|x|, i requires 0 <= i < |x| => x[i] != Bit(x, i + 1))
  }

  /** All bits inverted. */
  function Inverted(x: seq<bool>): (r: seq<bool>)
    ensures |r| == |x|
  {
    seq(|x|, i requires 0 <= i < |x| => !x[i])
  }

  /** A clear bit on top leaves the code as it is; with a set one the codes of the rest come in reverse order. */
  lemma {:induction false} GrayReflected(x: seq<bool>)
    ensures Bin2Gray(x + [false]) == Bin2Gray(x) + [false]
    ensures Bin2Gray(x + [true]) == Bin2Gray(Inverted(x)) + [true]
  {
    forall i | 0 <= i < |x|
      ensures Bin2Gray(x + [false])[i] == Bin2Gray(x)[i]
      ensures Bin2Gray(x + [true])[i] == Bin2Gray(Inverted(x))[i]
    {
      assert Bit(x + [false], i + 1) == Bit(x, i + 1);
      assert i + 1 == |x| ==> Bit(x + [true], i + 1);
    }
  }

  method Gray2Bin(x: seq<bool>) returns (y: seq<bool>)
    requires |x| > 0
    ensures |y| == |x| && Bin2Gray(y) == x
  {
    var W := |x|;
    y := x;
    for i := W - 1 downto 0
      invariant |y| == W
      invariant forall k :: i <= k < W ==> (y[k] != Bit(y, k + 1)) == x[k]
      invariant forall k :: 0 <= k < i ==> y[k] == x[k]
    {
      y := y[i := y[i + 1] != y[i]];
    }
  }

  /** Only one number has a given Gray code. */
  lemma {:induction false} GrayInjective(x: seq<bool>, y: seq<bool>)
    requires |x| == |y| && Bin2Gray(x) == Bin2Gray(y)
    ensures x == y
  {
    var i := |x|;
    while i > 0
      invariant 0 <= i <= |x|
      invariant forall k :: i <= k < |x| ==> x[k] == y[k]
    {
      i := i - 1;
      assert Bin2Gray(x)[i] == Bin2Gray(y)[i];
    }
  }

  /** Decoding undoes encoding. */
  method GrayRoundTrip(x: seq<bool>) returns (y: seq<bool>)
    requires |x| > 0
    ensures y == x
  {
    y := Gray2Bin(Bin2Gray(x));
    GrayInjective(x, y);
  }

  function Value(b: seq<bool>): nat {
    if b == [] then 0 else 2 * Value(b[1..]) + if b[0] then 1 else 0
  }

  /** `x` and `y` differ in exactly bit `i`. */
  ghost predicate DifferAt(x: seq<bool>, y: seq<bool>, i: nat) {
    |x| == |y| && i < |x| && forall k :: 0 <= k < |x| ==> (x[k] != y[k] <==> k == i)
  }

  lemma {:induction false} DifferHigher(gx: seq<bool>, gy: seq<bool>, i: nat)
    requires gx != [] && gy != [] && gx[0] == gy[0] && DifferAt(gx[1..], gy[1..], i)
    ensures DifferAt(gx, gy, i + 1)
  {
    assert forall k :: 1 <= k < |gx| ==> gx[k] == gx[1..][k - 1] && gy[k] == gy[1..][k - 1];
  }

  /** Successive numbers have Gray codes that differ in exactly one bit. */
  lemma {:induction false} GraySuccessor(x: seq<bool>, y: seq<bool>)
    requires |x| == |y| && Value(y) == Value(x) + 1
    ensures exists i: nat :: DifferAt(Bin2Gray(x), Bin2Gray(y), i)
    decreases |x|
  {
    var x', y' := x[1..], y[1..];
    var gx, gy := Bin2Gray(x), Bin2Gray(y);
    assert Bin2Gray(x') == gx[1..] && Bin2Gray(y') == gy[1..];
    if x[0] {
      GraySuccessor(x', y');
      var i: nat :| DifferAt(Bin2Gray(x'), Bin2Gray(y'), i);
      LowBitFlips(x', y');
      DifferHigher(gx, gy, i);
    } else {
      SameValue(x', y');
      assert forall k :: 1 <= k < |x| ==> gx[k] == gx[1..][k - 1] && gy[k] == gy[1..][k - 1];
      assert DifferAt(gx, gy, 0);
    }
  }

  lemma {:induction false} SameValue(x: seq<bool>, y: seq<bool>)
    requires |x| == |y| && Value(x) == Value(y)
    ensures x == y
    decreases |x|
  {
    if x != [] {
      SameValue(x[1..], y[1..]);
      assert x == [x[0]] + x[1..] && y == [y[0]] + y[1..];
    }
  }

  lemma {:induction false} LowBitFlips(x: seq<bool>, y: seq<bool>)
    requires |x| == |y| && Value(y) == Value(x) + 1
    ensures x != [] && x[0] != y[0]
  {
  }

  // One-hot codes.

  function Bits(n: nat, w: nat): (b: seq<bool>)
    ensures |b| == w
  {
    if w == 0 then [] else [n % 2 == 1] + Bits(n / 2, w - 1)
  }

  lemma {:induction false} BitsValue(n: nat, w: nat)
    requires n < Pow2(w)
    ensures Value(Bits(n, w)) == n
    decreases w
  {
    if w > 0 {
      BitsValue(n / 2, w - 1);
      assert Bits(n, w)[1..] == Bits(n / 2, w - 1);
    }
  }

  /** Set one bit of a word of `2^W` bits. */
  function Bin2Hot(x: nat, W: nat): (hot: seq<bool>)
    requires x < Pow2(W)
    ensures |hot| == Pow2(W)
  {
    seq(Pow2(W), i => i == x)
  }

  predicate OneHot(x: seq<bool>, h: nat) {
    h < |x| && forall j :: 0 <= j < |x| ==> x[j] == (j == h)
  }

  /** `r` is the disjunction of the first `n` bits of `x` whose index has bit `i` set. */
  ghost predicate Ored(x: seq<bool>, i: nat, n: nat, M: nat, r: bool)
    requires i < M && n <= |x|
  {
    r <==> exists j :: 0 <= j < n && x[j] && Bits(j, M)[i]
  }

  /** ORing the indices of the set bits of a one-hot code gives the one index there is. */
  lemma {:induction false} HotValue(x: seq<bool>, res: seq<bool>, h: nat)
    requires OneHot(x, h) && |res| == Clog2(|x|)
    requires forall k :: 0 <= k < |res| ==> Ored(x, k, |x|, |res|, res[k])
    ensures res == Bits(h, |res|) && Value(res) == h
  {
    forall k | 0 <= k < |res|
      ensures res[k] == Bits(h, |res|)[k]
    {
      assert Ored(x, k, |x|, |res|, res[k]);
      assert x[h];
    }
    BitsValue(h, |res|);
  }

  /** For any width, the index of the one bit that is set. */
  method Hot2Bin(x: seq<bool>) returns (res: seq<bool>)
    requires |x| > 0
    ensures |res| == Clog2(|x|)
    ensures forall h :: OneHot(x, h) ==> res == Bits(h, |res|) && Value(res) == h
  {
    var M := Clog2(|x|);
    res := seq(M, _ => false);
    for i := 0 to M
      invariant |res| == M
      invariant forall k :: 0 <= k < i ==> Ored(x, k, |x|, M, res[k])
      invariant forall k :: i <= k < M ==> !res[k]
    {
      for j := 0 to |x|
        invariant |res| == M && Ored(x, i, j, M, res[i])
        invariant forall k :: 0 <= k < i ==> Ored(x, k, |x|, M, res[k])
        invariant forall k :: i < k < M ==> !res[k]
      {
        OredStep(x, i, j, M, res[i]);
        if Bits(j, M)[i] {
          res := res[i := res[i] || x[j]];
        }
      }
    }
    forall h | OneHot(x, h)
      ensures res == Bits(h, M) && Value(res) == h
    {
      HotValue(x, res, h);
    }
  }

  lemma {:induction false} OredStep(x: seq<bool>, i: nat, n: nat, M: nat, r: bool)
    requires i < M && n < |x| && Ored(x, i, n, M, r)
    ensures Ored(x, i, n + 1, M, if Bits(n, M)[i] then r || x[n] else r)
  {
    if r {
      var j :| 0 <= j < n && x[j] && Bits(j, M)[i];
    }
  }

  /** Decoding a one-hot code gives the number encoded. */
  method HotRoundTrip(n: nat, W: nat) returns (res: seq<bool>)
    requires n < Pow2(W)
    ensures res == Bits(n, W)
  {
    res := Hot2Bin(Bin2Hot(n, W));
    Clog2Pow2(W);
    assert OneHot(Bin2Hot(n, W), n);
  }

  lemma {:induction false} Clog2Pow2(W: nat)
    ensures Clog2(Pow2(W)) == W
  {
    var r := Clog2(Pow2(W));
    Pow2Order(r, W);
    if r > 0 {
      Pow2Order(W, r - 1);
    }
  }

  lemma {:induction false} Pow2Order(a: nat, b: nat)
    ensures Pow2(a) >= Pow2(b) <==> a >= b
    decreases a + b
  {
    if a > 0 && b > 0 {
      Pow2Order(a - 1, b - 1);
    }
  }
}
