/**
 Folds over a commutative monoid on integers. All three sketches are such folds:
 HyperLogLog takes maxima, Fast-AGMS and Count-Min add modulo a power of two.
 */
module Monoids {
  import opened Streams

  /** An operation with unit 0 on the integers that satisfy `dom`. */
  datatype Monoid = Monoid(dom: int -> bool, op: (int, int) -> int)

  // These exist only to say which instances of the laws a proof uses.
  ghost predicate Pair(a: int, b: int) { true }
  ghost predicate Triple(a: int, b: int, c: int) { true }

  ghost predicate Lawful(m: Monoid) {
    && m.dom(0)
    && (forall a, b {:trigger Pair(a, b)} ::
          Pair(a, b) && m.dom(a) && m.dom(b) ==>
            m.dom(m.op(a, b)) && m.op(0, a) == a && m.op(a, b) == m.op(b, a))
    && (forall a, b, c {:trigger Triple(a, b, c)} ::
          Triple(a, b, c) && m.dom(a) && m.dom(b) && m.dom(c) ==>
            m.op(m.op(a, b), c) == m.op(a, m.op(b, c)))
  }

  ghost predicate InDom<X(!new)>(m: Monoid, g: X -> int) {
    forall x :: m.dom(g(x))
  }

  /** The fold of the contributions `g(x)`, starting from 0. */
  function Sum<X>(m: Monoid, g: X -> int, s: seq<X>): int {
    if s == [] then 0 else m.op(Sum(m, g, s[..|s| - 1]), g(s[|s| - 1]))
  }

  lemma {:induction false} SumSnoc<X>(m: Monoid, g: X -> int, s: seq<X>, x: X)
    ensures Sum(m, g, s + [x]) == m.op(Sum(m, g, s), g(x))
  {
    assert (s + [x])[..|s|] == s;
  }

  lemma {:induction false} SumInDom<X(!new)>(m: Monoid, g: X -> int, s: seq<X>)
    requires Lawful(m) && InDom(m, g)
    ensures m.dom(Sum(m, g, s))
    decreases |s|
  {
    if s != [] {
      SumInDom(m, g, s[..|s| - 1]);
      assert Pair(Sum(m, g, s[..|s| - 1]), g(s[|s| - 1]));
    }
  }

  /** Collecting `a` and then `b` is combining the two separate collections. */
  lemma {:induction false} SumConcat<X(!new)>(m: Monoid, g: X -> int, a: seq<X>, b: seq<X>)
    requires Lawful(m) && InDom(m, g)
    ensures Sum(m, g, a + b) == m.op(Sum(m, g, a), Sum(m, g, b))
    decreases |b|
  {
    SumInDom(m, g, a);
    if b == [] {
      assert a + b == a;
      assert Pair(0, Sum(m, g, a)) && Pair(Sum(m, g, a), 0);
    } else {
      var p, x := b[..|b| - 1], b[|b| - 1];
      assert a + b == (a + p) + [x] && b == p + [x];
      SumConcat(m, g, a, p);
      SumSnoc(m, g, a + p, x);
      SumInDom(m, g, p);
      assert Triple(Sum(m, g, a), Sum(m, g, p), g(x));
    }
  }

  /** Any element may be folded in last. */
  lemma {:induction false} SumPullOut<X(!new)>(m: Monoid, g: X -> int, a: seq<X>, x: X, b: seq<X>)
    requires Lawful(m) && InDom(m, g)
    ensures Sum(m, g, a + [x] + b) == m.op(Sum(m, g, a + b), g(x))
  {
    SumConcat(m, g, a + [x], b);
    SumSnoc(m, g, a, x);
    SumConcat(m, g, a, b);
    SumInDom(m, g, a);
    SumInDom(m, g, b);
    var sa, sb := Sum(m, g, a), Sum(m, g, b);
    assert Triple(sa, g(x), sb) && Triple(sa, sb, g(x)) && Pair(g(x), sb) && Pair(sb, g(x));
  }

  lemma {:induction false} OneApart<X>(s: seq<X>, i: nat)
    requires i < |s|
    ensures s == s[..i] + [s[i]] + s[i + 1..]
    ensures multiset(s) == multiset(s[..i] + s[i + 1..]) + multiset{s[i]}
  {
    assert s == s[..i] + [s[i]] + s[i + 1..];
  }

  lemma {:induction false} SameRest<X>(p: multiset<X>, q: multiset<X>, x: multiset<X>)
    requires p + x == q + x
    ensures p == q
  {
    assert p == (p + x) - x && q == (q + x) - x;
  }

  /** The last element of one sequence taken out of both. */
  lemma {:induction false} TakenOut<X>(a: seq<X>, b: seq<X>, i: nat)
    requires a != [] && i < |b| && b[i] == a[|a| - 1] && multiset(a) == multiset(b)
    ensures b == b[..i] + [b[i]] + b[i + 1..]
    ensures multiset(a[..|a| - 1]) == multiset(b[..i] + b[i + 1..])
  {
    OneApart(a, |a| - 1);
    OneApart(b, i);
    assert a[..|a| - 1] + a[|a|..] == a[..|a| - 1];
    SameRest(multiset(a[..|a| - 1]), multiset(b[..i] + b[i + 1..]), multiset{b[i]});
  }

  lemma {:induction false} SameLength<X>(a: seq<X>, b: seq<X>)
    requires multiset(a) == multiset(b)
    ensures |a| == |b|
  {
    assert |a| == |multiset(a)| == |multiset(b)| == |b|;
  }

  /** The fold depends only on the multiset of the elements. */
  lemma {:induction false} SumPermutation<X(!new)>(m: Monoid, g: X -> int, a: seq<X>, b: seq<X>)
    requires Lawful(m) && InDom(m, g)
    requires multiset(a) == multiset(b)
    ensures Sum(m, g, a) == Sum(m, g, b)
    decreases |a|
  {
    SameLength(a, b);
    if a != [] {
      var p, x := a[..|a| - 1], a[|a| - 1];
      assert x in multiset(a);
      var i :| 0 <= i < |b| && b[i] == x;
      TakenOut(a, b, i);
      SumPermutation(m, g, p, b[..i] + b[i + 1..]);
      SumPullOut(m, g, b[..i], x, b[i + 1..]);
    }
  }

  /** Contributions that agree element by element give the same fold. */
  lemma {:induction false} SumMap<X(!new), Y>(m: Monoid, f: Y -> X, g: X -> int, g': Y -> int, s: seq<Y>)
    requires forall y :: y in s ==> g(f(y)) == g'(y)
    ensures Sum(m, g, Map(f, s)) == Sum(m, g', s)
    decreases |s|
  {
    if s != [] {
      var p, y := s[..|s| - 1], s[|s| - 1];
      assert s == p + [y];
      assert Map(f, s) == Map(f, p) + [f(y)];
      SumMap(m, f, g, g', p);
      SumSnoc(m, g, Map(f, p), f(y));
    }
  }

  /** Folding the folds of several parts is folding all their elements. */
  lemma {:induction false} SumFlatten<X(!new)>(m: Monoid, g: X -> int, ss: seq<seq<X>>)
    requires Lawful(m) && InDom(m, g)
    ensures SumOfSums(m, g, ss) == Sum(m, g, Flatten(ss))
    decreases |ss|
  {
    if ss != [] {
      var p, s := ss[..|ss| - 1], ss[|ss| - 1];
      SumFlatten(m, g, p);
      SumConcat(m, g, Flatten(p), s);
    }
  }

  function SumOfSums<X>(m: Monoid, g: X -> int, ss: seq<seq<X>>): int {
    if ss == [] then 0
    else m.op(SumOfSums(m, g, ss[..|ss| - 1]), Sum(m, g, ss[|ss| - 1]))
  }

  // The instances.

  function Pow2(n: nat): (p: nat)
    ensures p >= 1
  {
    if n == 0 then 1 else 2 * Pow2(n - 1)
  }

  function MaxOp(): (int, int) -> int {
    (a, b) => if a < b then b else a
  }

  function NatDom(): int -> bool {
    a => 0 <= a
  }

  const MAX := Monoid(NatDom(), MaxOp())

  lemma {:induction false} MaxLawful()
    ensures Lawful(MAX)
  {
  }

  function Square(x: int): (r: int)
    ensures r >= 0
  {
    x * x
  }

  /** The representative of `x` modulo `q` in the interval of length `q` that starts at `low`. */
  function Wrap(x: int, q: nat, low: int): (r: int)
    requires q >= 1
    ensures low <= r < low + q
    ensures (r - x) % q == 0
  {
    var r := (x - low) % q + low;
    assert r - x == -((x - low) / q) * q;
    MulMod(-((x - low) / q), q);
    r
  }

  /** Addition modulo `q`: unsigned for `low == 0`, two's complement for `low == -q/2`. */
  function AddWrap(q: nat, low: int): Monoid
    requires q >= 1
  {
    Monoid((a: int) => low <= a < low + q, (a: int, b: int) => Wrap(a + b, q, low))
  }

  lemma {:induction false} Distribute(k: int, l: int, q: nat)
    ensures (k + l) * q == k * q + l * q && (k - l) * q == k * q - l * q
  {
  }

  lemma {:induction false} DifferenceOfMultiples(x: int, y: int, q: nat)
    requires q >= 1 && x % q == 0 && y % q == 0
    ensures (x - y) % q == 0
  {
    var k, l := x / q, y / q;
    assert x == k * q && y == l * q;
    Distribute(k, l, q);
    MulMod(k - l, q);
  }

  lemma {:induction false} SmallDifference(x: int, y: int, q: nat)
    requires q >= 1 && x % q == 0 && y % q == 0 && x - y < q && y - x < q
    ensures x == y
  {
    var k, l := x / q, y / q;
    assert x == k * q && y == l * q;
    Distribute(k, l, q);
    SmallMultiple(k - l, q);
  }

  lemma {:induction false} WrapUnique(x: int, y: int, q: nat, low: int)
    requires q >= 1 && (x - y) % q == 0
    ensures Wrap(x, q, low) == Wrap(y, q, low)
  {
    var a, b := Wrap(x, q, low), Wrap(y, q, low);
    DifferenceOfMultiples(b - y, x - y, q);
    SmallDifference(a - x, b - x, q);
  }

  lemma {:induction false} WrapFix(x: int, q: nat, low: int)
    requires q >= 1 && low <= x < low + q
    ensures Wrap(x, q, low) == x
  {
    var a := Wrap(x, q, low);
    assert a - x == ((a - x) / q) * q;
    SmallMultiple((a - x) / q, q);
  }

  lemma {:induction false} WrapPlus(x: int, y: int, q: nat, low: int)
    requires q >= 1
    ensures Wrap(Wrap(x, q, low) + y, q, low) == Wrap(x + y, q, low)
  {
    WrapUnique(Wrap(x, q, low) + y, x + y, q, low);
  }

  lemma {:induction false} AddWrapLawful(q: nat, low: int)
    requires q >= 1 && low <= 0 < low + q
    ensures Lawful(AddWrap(q, low))
  {
    var m := AddWrap(q, low);
    forall a, b {:trigger Pair(a, b)} | Pair(a, b) && m.dom(a) && m.dom(b)
      ensures m.dom(m.op(a, b)) && m.op(0, a) == a && m.op(a, b) == m.op(b, a)
    {
      WrapFix(a, q, low);
    }
    forall a, b, c {:trigger Triple(a, b, c)} | Triple(a, b, c) && m.dom(a) && m.dom(b) && m.dom(c)
      ensures m.op(m.op(a, b), c) == m.op(a, m.op(b, c))
    {
      WrapPlus(a + b, c, q, low);
      WrapPlus(b + c, a, q, low);
    }
  }

  lemma {:induction false} ModPlusLeft(a: int, b: int, q: nat)
    requires q >= 1
    ensures (a % q + b) % q == (a + b) % q
  {
    WrapPlus(a, b, q, 0);
  }

  lemma {:induction false} MulMod(k: int, q: nat)
    requires q >= 1
    ensures (k * q) % q == 0
  {
    var d := (k * q) / q - k;
    assert k * q == ((k * q) / q) * q + (k * q) % q;
    assert d * q == ((k * q) / q) * q - k * q;
    SmallMultiple(d, q);
  }
}
