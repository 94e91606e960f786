/**
 The median as the software takes it: the first rows of a column are sorted in place, and
 the two values in the middle are added up.
 */
module Medians {
  // Sorting.

  predicate Ascending(s: seq<int>) {
    forall i, j :: 0 <= i < j < |s| ==> s[i] <= s[j]
  }

  function Insert(s: seq<int>, x: int): (r: seq<int>)
    ensures |r| == |s| + 1
  {
    if s == [] || s[|s| - 1] <= x then s + [x] else Insert(s[..|s| - 1], x) + [s[|s| - 1]]
  }

  function Sorted(s: seq<int>): (r: seq<int>)
    ensures |r| == |s|
  {
    if s == [] then [] else Insert(Sorted(s[..|s| - 1]), s[|s| - 1])
  }

  /** In an ascending sequence an element stays below the new one, or moves up by one place. */
  lemma {:induction false} InsertAt(s: seq<int>, x: int, k: nat)
    requires Ascending(s) && k <= |s|
    ensures Insert(s, x)[k] == if k < |s| && s[k] <= x then s[k] else if k > 0 && s[k - 1] > x then s[k - 1] else x
    decreases |s|
  {
    if s != [] && s[|s| - 1] > x && k < |s| {
      InsertAt(s[..|s| - 1], x, k);
    }
  }

  lemma {:induction false} LastApart(s: seq<int>)
    requires s != []
    ensures multiset(s) == multiset(s[..|s| - 1]) + multiset{s[|s| - 1]}
  {
    assert s == s[..|s| - 1] + [s[|s| - 1]];
  }

  lemma {:induction false} InsertAdds(s: seq<int>, x: int)
    ensures multiset(Insert(s, x)) == multiset(s) + multiset{x}
    decreases |s|
  {
    if s != [] && s[|s| - 1] > x {
      InsertAdds(s[..|s| - 1], x);
      LastApart(s);
    }
  }

  lemma {:induction false} InsertAscends(s: seq<int>, x: int)
    requires Ascending(s)
    ensures Ascending(Insert(s, x))
  {
    forall i, j | 0 <= i < j <= |s|
      ensures Insert(s, x)[i] <= Insert(s, x)[j]
    {
      InsertAt(s, x, i);
      InsertAt(s, x, j);
    }
  }

  lemma {:induction false} SortedSorts(s: seq<int>)
    ensures Ascending(Sorted(s)) && multiset(Sorted(s)) == multiset(s)
    decreases |s|
  {
    if s != [] {
      var b, x := Sorted(s[..|s| - 1]), s[|s| - 1];
      SortedSorts(s[..|s| - 1]);
      InsertAscends(b, x);
      InsertAdds(b, x);
      LastApart(s);
    }
  }

  lemma {:induction false} LastIsMost(s: seq<int>, t: seq<int>)
    requires Ascending(s) && Ascending(t) && multiset(s) == multiset(t) && s != []
    ensures t != [] && s[|s| - 1] <= t[|t| - 1]
  {
    var x := s[|s| - 1];
    assert x in multiset(s);
    assert x in t;
  }

  lemma {:induction false} SameWithoutLast(s: seq<int>, t: seq<int>)
    requires s != [] && t != [] && multiset(s) == multiset(t) && s[|s| - 1] == t[|t| - 1]
    ensures multiset(s[..|s| - 1]) == multiset(t[..|t| - 1])
  {
    LastApart(s);
    LastApart(t);
    var p, q, x := multiset(s[..|s| - 1]), multiset(t[..|t| - 1]), multiset{s[|s| - 1]};
    assert p == (p + x) - x && q == (q + x) - x;
  }

  /** However it is done, sorting has one result. */
  lemma {:induction false} OneOrder(s: seq<int>, t: seq<int>)
    requires Ascending(s) && Ascending(t) && multiset(s) == multiset(t)
    ensures s == t
    decreases |s|
  {
    if s == [] {
      assert |multiset(t)| == 0;
    } else {
      LastIsMost(s, t);
      LastIsMost(t, s);
      SameWithoutLast(s, t);
      OneOrder(s[..|s| - 1], t[..|t| - 1]);
      assert s == s[..|s| - 1] + [s[|s| - 1]] && t == t[..|t| - 1] + [t[|t| - 1]];
    }
  }

  lemma {:induction false} AscendingSorted(s: seq<int>)
    requires Ascending(s)
    ensures Sorted(s) == s
  {
    SortedSorts(s);
    OneOrder(Sorted(s), s);
  }

  /** Sort the first `n` elements. */
  method Sort(a: array<int>, n: nat)
    requires n <= a.Length
    modifies a
    ensures a[..n] == Sorted(old(a[..n])) && a[n..] == old(a[n..])
  {
    ghost var was := a[..];
    for i := 0 to n
      invariant a[..i] == Sorted(was[..i]) && a[i..] == was[i..]
    {
      assert was[..i + 1][..i] == was[..i];
      SinkLast(a, i);
    }
  }

  /** From place `j` on all elements of `s` move up for `x`. */
  ghost predicate MovesUp(s: seq<int>, x: int, j: nat) {
    j <= |s| && Insert(s, x) == Insert(s[..j], x) + s[j..]
  }

  lemma {:induction false} MovesUpNext(s: seq<int>, x: int, j: nat)
    requires 0 < j <= |s| && MovesUp(s, x, j) && s[j - 1] > x
    ensures MovesUp(s, x, j - 1)
  {
    assert s[..j][..j - 1] == s[..j - 1];
    assert s[j - 1..] == [s[j - 1]] + s[j..];
  }

  lemma {:induction false} Sunk(t: seq<int>, s: seq<int>, x: int, j: nat)
    requires MovesUp(s, x, j) && (j > 0 ==> s[j - 1] <= x) && |t| == |s| + 1 && t[j] == x
    requires forall k :: 0 <= k < j ==> t[k] == s[k]
    requires forall k :: j < k <= |s| ==> t[k] == s[k - 1]
    ensures t == Insert(s, x)
  {
    assert Insert(s[..j], x) == s[..j] + [x];
    assert t == s[..j] + [x] + s[j..];
  }

  /** Insert element `i` into the elements before it. */
  method SinkLast(a: array<int>, i: nat)
    requires i < a.Length
    modifies a
    ensures a[..i + 1] == Insert(old(a[..i]), old(a[i])) && a[i + 1..] == old(a[i + 1..])
  {
    ghost var s, x := a[..i], a[i];
    var j := i;
    assert s[..i] == s && MovesUp(s, x, i);
    while j > 0 && a[j - 1] > a[j]
      invariant j <= i && a[j] == x && MovesUp(s, x, j)
      invariant forall k :: 0 <= k < j ==> a[k] == s[k]
      invariant forall k :: j < k <= i ==> a[k] == s[k - 1]
      invariant forall k :: i < k < a.Length ==> a[k] == old(a[k])
    {
      MovesUpNext(s, x, j);
      a[j - 1], a[j] := a[j], a[j - 1];
      j := j - 1;
    }
    Sunk(a[..i + 1], s, x, j);
  }

  // The middle.

  /** The two values in the middle, which are the same one of an odd number of values. */
  function Middle(s: seq<int>): (int, int)
    requires s != []
  {
    (s[(|s| - 1) / 2], s[|s| / 2])
  }

  function Clamp(x: int, lo: int, hi: int): int {
    if x < lo then lo else if hi < x then hi else x
  }

  lemma {:induction false} MiddleOdd(s: seq<int>, m: nat)
    requires |s| == 2 * m + 1
    ensures Middle(s) == (s[m], s[m])
  {
    assert (2 * m + 1) / 2 == m;
  }

  lemma {:induction false} MiddleEven(s: seq<int>, m: nat)
    requires |s| == 2 * m + 2
    ensures Middle(s) == (s[m], s[m + 1])
  {
    assert (2 * m + 1) / 2 == m && (2 * m + 2) / 2 == m + 1;
  }

  lemma {:induction false} InsertMiddle(b: seq<int>, x: int, m: nat)
    requires Ascending(b) && 0 < m < |b| - 1
    ensures var t, y := Insert(b, x), Clamp(x, b[m - 1], b[m + 1]);
            (t[m], t[m + 1]) == if y < b[m] then (y, b[m]) else (b[m], y)
  {
    InsertAt(b, x, m);
    InsertAt(b, x, m + 1);
    assert b[m - 1] <= b[m] <= b[m + 1];
  }

  /** One value more than an odd number of them: the median and the new value, as far as its neighbours let it. */
  lemma {:induction false} OneValueMore(s: seq<int>, x: int, m: nat)
    requires |s| == 2 * m + 1 && m > 0
    ensures var b, p := Sorted(s), Middle(Sorted(s + [x]));
            var y := Clamp(x, b[m - 1], b[m + 1]);
            && Middle(b) == (b[m], b[m])
            && p == if y < b[m] then (y, b[m]) else (b[m], y)
  {
    var b := Sorted(s);
    SortedSorts(s);
    assert Sorted(s + [x]) == Insert(b, x) by {
      assert (s + [x])[..|s|] == s;
    }
    MiddleOdd(b, m);
    MiddleEven(Insert(b, x), m);
    InsertMiddle(b, x, m);
  }
}
