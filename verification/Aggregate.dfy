/**
 The aggregation window: a shift register that merges a new item into an older one of the
 same key before either is emitted.
 */
module Aggregation {
  import opened Streams

  datatype Slot<V> = Slot(vld: bool, last: bool, key: nat, val: V)

  predicate Carries<V>(s: Slot<V>, key: nat) {
    s.vld && s.key == key
  }

  /** Merge slot 0 into every slot marked as its match, and drop it if there is one. */
  function Merged<V>(f: (V, V) -> V, slots: seq<Slot<V>>, marks: seq<bool>): (r: seq<Slot<V>>)
    requires |slots| == |marks| >= 3
    ensures |r| == |slots|
  {
    seq(|slots|, i requires 0 <= i < |slots| =>
      if i == 0 then slots[0].(vld := slots[0].vld && !Killed(marks))
      else if i < |slots| - 1 && marks[i] then slots[i].(val := f(slots[i].val, slots[0].val))
      else slots[i])
  }

  predicate Killed(marks: seq<bool>) {
    exists i :: 1 <= i < |marks| - 1 && marks[i]
  }

  /** Shift everything on by one and take in `x`, which is not valid if nothing has arrived. */
  function Shifted<V>(slots: seq<Slot<V>>, x: Slot<V>): (r: seq<Slot<V>>)
    requires slots != []
    ensures |r| == |slots|
  {
    [x] + slots[..|slots| - 1]
  }

  /** Which of the slots but the last match the newest one. */
  function Marks<V>(slots: seq<Slot<V>>): (r: seq<bool>)
    requires slots != []
    ensures |r| == |slots|
  {
    seq(|slots|, i requires 0 <= i < |slots| =>
      1 <= i < |slots| - 1 && slots[0].vld && Carries(slots[i], slots[0].key))
  }

  function Next<V>(f: (V, V) -> V, slots: seq<Slot<V>>, marks: seq<bool>, x: Slot<V>): (seq<Slot<V>>, seq<bool>)
    requires |slots| == |marks| >= 3
  {
    var s := Shifted(Merged(f, slots, marks), x);
    (s, Marks(s))
  }

  /** Marks are up to date, and no two slots between the newest and the last carry the same key. */
  ghost predicate Inv<V>(slots: seq<Slot<V>>, marks: seq<bool>) {
    && |slots| >= 3 && marks == Marks(slots)
    && forall i, j :: 1 <= i < j < |slots| - 1 && slots[i].vld && slots[j].vld ==> slots[i].key != slots[j].key
  }

  /** At most one slot matches; without a match all valid slots but the last have different keys. */
  lemma {:induction false} OneMatch<V>(slots: seq<Slot<V>>, marks: seq<bool>)
    requires Inv(slots, marks)
    ensures forall i, j :: 1 <= i < |slots| - 1 && 1 <= j < |slots| - 1 && marks[i] && marks[j] ==> i == j
    ensures !Killed(marks) ==>
              forall i, j :: 0 <= i < j < |slots| - 1 && slots[i].vld && slots[j].vld ==> slots[i].key != slots[j].key
  {
    if !Killed(marks) {
      forall j | 1 <= j < |slots| - 1 && slots[0].vld && slots[j].vld
        ensures slots[0].key != slots[j].key
      {
        assert !marks[j];
      }
    }
  }

  lemma {:induction false} InvNext<V>(f: (V, V) -> V, slots: seq<Slot<V>>, marks: seq<bool>, x: Slot<V>)
    requires Inv(slots, marks)
    ensures var (s, m) := Next(f, slots, marks, x); Inv(s, m)
  {
    OneMatch(slots, marks);
    var s := Next(f, slots, marks, x).0;
    forall i, j | 1 <= i < j < |s| - 1 && s[i].vld && s[j].vld
      ensures s[i].key != s[j].key
    {
      assert s[i] == Merged(f, slots, marks)[i - 1] && s[j] == Merged(f, slots, marks)[j - 1];
    }
  }

  // Conservation.

  ghost predicate Associative<V(!new)>(f: (V, V) -> V) {
    forall a, b, c :: f(f(a, b), c) == f(a, f(b, c))
  }

  /** The fold of the values in order; there is none for no value. */
  function Fold<V>(f: (V, V) -> V, s: seq<V>): Option<V> {
    if s == [] then None
    else
      match Fold(f, s[..|s| - 1])
      case None => Some(s[|s| - 1])
      case Some(v) => Some(f(v, s[|s| - 1]))
  }

  lemma {:induction false} FoldSnoc<V>(f: (V, V) -> V, s: seq<V>, x: V)
    ensures Fold(f, s + [x]) == match Fold(f, s) case None => Some(x) case Some(v) => Some(f(v, x))
  {
    assert (s + [x])[..|s|] == s;
  }

  /** Two neighbours may be merged beforehand. */
  lemma {:induction false} FoldMerge<V(!new)>(f: (V, V) -> V, s: seq<V>, a: V, b: V)
    requires Associative(f)
    ensures Fold(f, s + [a] + [b]) == Fold(f, s + [f(a, b)])
  {
    FoldSnoc(f, s + [a], b);
    FoldSnoc(f, s, a);
    FoldSnoc(f, s, f(a, b));
  }

  lemma {:induction false} FoldPrefix<V>(f: (V, V) -> V, a: seq<V>, b: seq<V>, c: seq<V>)
    requires Fold(f, a) == Fold(f, b)
    ensures Fold(f, a + c) == Fold(f, b + c)
    decreases |c|
  {
    if c == [] {
      assert a + c == a && b + c == b;
    } else {
      var p, x := c[..|c| - 1], c[|c| - 1];
      FoldPrefix(f, a, b, p);
      FoldSnoc(f, a + p, x);
      FoldSnoc(f, b + p, x);
      assert a + c == a + p + [x] && b + c == b + p + [x];
    }
  }

  /** The values of a key in a log, or in a window read from its newest slot to its oldest one. */
  function Values<V>(s: seq<Slot<V>>, key: nat): seq<V> {
    if s == [] then []
    else Values(s[..|s| - 1], key) + if Carries(s[|s| - 1], key) then [s[|s| - 1].val] else []
  }

  function InFlight<V>(slots: seq<Slot<V>>, key: nat): seq<V> {
    if slots == [] then []
    else InFlight(slots[1..], key) + if Carries(slots[0], key) then [slots[0].val] else []
  }

  /** The oldest slot comes first. */
  lemma {:induction false} OldestFirst<V>(slots: seq<Slot<V>>, key: nat)
    requires slots != []
    ensures var n := |slots| - 1;
            InFlight(slots, key) == (if Carries(slots[n], key) then [slots[n].val] else []) + InFlight(slots[..n], key)
    decreases |slots|
  {
    var n := |slots| - 1;
    if n > 0 {
      OldestFirst(slots[1..], key);
      assert slots[1..][..n - 1] == slots[..n][1..];
    }
  }

  /** Slots without the key contribute nothing. */
  lemma {:induction false} SkipTo<V>(slots: seq<Slot<V>>, key: nat, i: nat)
    requires i < |slots| && Carries(slots[i], key) && forall j :: 0 <= j < i ==> !Carries(slots[j], key)
    ensures InFlight(slots, key) == InFlight(slots[i + 1..], key) + [slots[i].val]
    decreases i
  {
    if i > 0 {
      SkipTo(slots[1..], key, i - 1);
      assert slots[1..][i..] == slots[i + 1..];
    }
  }

  /** Windows with the same validity, keys and values for a key have the same values in flight. */
  lemma {:induction false} SameInFlight<V>(a: seq<Slot<V>>, b: seq<Slot<V>>, key: nat)
    requires |a| == |b|
    requires forall i :: 0 <= i < |a| ==> (Carries(a[i], key) <==> Carries(b[i], key))
    requires forall i :: 0 <= i < |a| ==> Carries(a[i], key) ==> a[i].val == b[i].val
    ensures InFlight(a, key) == InFlight(b, key)
    decreases |a|
  {
    if a != [] {
      SameInFlight(a[1..], b[1..], key);
    }
  }

  /** The window before and after merging slot 0 into slot `i`. */
  lemma {:induction false} MatchInFlight<V>(f: (V, V) -> V, slots: seq<Slot<V>>, marks: seq<bool>, i: nat)
    requires Inv(slots, marks) && 1 <= i < |marks| - 1 && marks[i]
    ensures var older, key := InFlight(slots[i + 1..], slots[0].key), slots[0].key;
            && InFlight(slots, key) == older + [slots[i].val] + [slots[0].val]
            && InFlight(Merged(f, slots, marks), key) == older + [f(slots[i].val, slots[0].val)]
  {
    var merged, key := Merged(f, slots, marks), slots[0].key;
    OneMatch(slots, marks);
    assert forall j :: 1 <= j < i ==> !marks[j];
    SkipTo(slots[1..], key, i - 1);
    assert slots[1..][i..] == slots[i + 1..];
    SkipTo(merged, key, i);
    assert merged[i + 1..] == slots[i + 1..];
  }

  /** Merging does not change what a key's values in flight fold to, behind whatever went before. */
  lemma {:induction false} MergeKeeps<V(!new)>(f: (V, V) -> V, slots: seq<Slot<V>>, marks: seq<bool>, key: nat,
        before: seq<V>)
    requires Associative(f) && Inv(slots, marks)
    ensures Fold(f, before + InFlight(Merged(f, slots, marks), key)) == Fold(f, before + InFlight(slots, key))
  {
    if Killed(marks) && key == slots[0].key {
      var i :| 1 <= i < |marks| - 1 && marks[i];
      MatchInFlight(f, slots, marks, i);
      var older := InFlight(slots[i + 1..], key);
      FoldMerge(f, before + older, slots[i].val, slots[0].val);
      assert before + (older + [slots[i].val] + [slots[0].val]) == before + older + [slots[i].val] + [slots[0].val];
      assert before + (older + [f(slots[i].val, slots[0].val)]) == before + older + [f(slots[i].val, slots[0].val)];
    } else {
      SameInFlight(slots, Merged(f, slots, marks), key);
    }
  }

  /** What step `x` emits. */
  function Emitted<V>(slots: seq<Slot<V>>): seq<Slot<V>>
    requires slots != []
  {
    if slots[|slots| - 1].vld then [slots[|slots| - 1]] else []
  }

  lemma {:induction false} ValuesSnoc<V>(s: seq<Slot<V>>, x: Slot<V>, key: nat)
    ensures Values(s + [x], key) == Values(s, key) + if Carries(x, key) then [x.val] else []
  {
    assert (s + [x])[..|s|] == s;
  }

  /** For each key, what has been emitted and is in flight folds to what has been taken in. */
  ghost predicate Conserved<V>(f: (V, V) -> V, input: seq<Slot<V>>, output: seq<Slot<V>>, slots: seq<Slot<V>>,
        key: nat) {
    Fold(f, Values(output, key) + InFlight(slots, key)) == Fold(f, Values(input, key))
  }

  function Value<V>(s: Slot<V>, key: nat): seq<V> {
    if Carries(s, key) then [s.val] else []
  }

  lemma {:induction false} EmittedValues<V>(output: seq<Slot<V>>, slots: seq<Slot<V>>, key: nat)
    requires slots != []
    ensures Values(output + Emitted(slots), key) == Values(output, key) + Value(slots[|slots| - 1], key)
  {
    if slots[|slots| - 1].vld {
      ValuesSnoc(output, slots[|slots| - 1], key);
    } else {
      assert output + Emitted(slots) == output;
    }
  }

  /** Shifting moves the oldest slot's value out and the new one's in. */
  lemma {:induction false} ShiftInFlight<V>(merged: seq<Slot<V>>, x: Slot<V>, key: nat)
    requires merged != []
    ensures Value(merged[|merged| - 1], key) + InFlight(Shifted(merged, x), key)
         == InFlight(merged, key) + Value(x, key)
  {
    OldestFirst(merged, key);
    assert Shifted(merged, x)[1..] == merged[..|merged| - 1];
  }

  lemma {:induction false} PassOn<V>(f: (V, V) -> V, before: seq<V>, left: seq<V>, flying: seq<V>,
        merged: seq<V>, x: seq<V>, input: seq<V>)
    requires left + flying == merged + x && Fold(f, before + merged) == Fold(f, input)
    ensures Fold(f, before + left + flying) == Fold(f, input + x)
  {
    FoldPrefix(f, before + merged, input, x);
    assert before + left + flying == before + (left + flying);
    assert before + merged + x == before + (merged + x);
  }

  lemma {:induction false} ConservedNext<V(!new)>(f: (V, V) -> V, input: seq<Slot<V>>, output: seq<Slot<V>>,
                                                  slots: seq<Slot<V>>, marks: seq<bool>, x: Slot<V>, key: nat)
    requires Associative(f) && Inv(slots, marks) && Conserved(f, input, output, slots, key)
    ensures Conserved(f, input + [x], output + Emitted(slots), Next(f, slots, marks, x).0, key)
  {
    var merged, before := Merged(f, slots, marks), Values(output, key);
    MergeKeeps(f, slots, marks, key, before);
    EmittedValues(output, slots, key);
    ShiftInFlight(merged, x, key);
    ValuesSnoc(input, x, key);
    PassOn(f, before, Value(slots[|slots| - 1], key), InFlight(Shifted(merged, x), key),
           InFlight(merged, key), Value(x, key), Values(input, key));
  }

  /** The window and all it has emitted after the cycles `input`, starting empty. */
  function Play<V>(f: (V, V) -> V, N: nat, v: V, input: seq<Slot<V>>): (r: (seq<Slot<V>>, seq<bool>, seq<Slot<V>>))
    requires N >= 3
    ensures |r.0| == |r.1| == N
  {
    if input == [] then (seq(N, _ => Slot(false, false, 0, v)), seq(N, _ => false), [])
    else
      var (slots, marks, output) := Play(f, N, v, input[..|input| - 1]);
      var (slots', marks') := Next(f, slots, marks, input[|input| - 1]);
      (slots', marks', output + Emitted(slots))
  }

  lemma {:induction false} NothingInFlight<V>(slots: seq<Slot<V>>, key: nat)
    requires forall i :: 0 <= i < |slots| ==> !slots[i].vld
    ensures InFlight(slots, key) == []
    decreases |slots|
  {
    if slots != [] {
      NothingInFlight(slots[1..], key);
    }
  }

  /** What is in a window and what it has emitted make up the inputs of a key. */
  ghost predicate Kept<V(!new)>(f: (V, V) -> V, r: (seq<Slot<V>>, seq<bool>, seq<Slot<V>>), input: seq<Slot<V>>,
        key: nat)
    requires |r.0| == |r.1| >= 3
  {
    Inv(r.0, r.1) && Conserved(f, input, r.2, r.0, key)
  }

  lemma {:induction false} KeptNext<V(!new)>(f: (V, V) -> V, N: nat, v: V, p: seq<Slot<V>>, x: Slot<V>, key: nat)
    requires Associative(f) && N >= 3 && Kept(f, Play(f, N, v, p), p, key)
    ensures Kept(f, Play(f, N, v, p + [x]), p + [x], key)
  {
    assert (p + [x])[..|p|] == p;
    var (slots, marks, output) := Play(f, N, v, p);
    InvNext(f, slots, marks, x);
    ConservedNext(f, p, output, slots, marks, x, key);
  }

  lemma {:induction false} KeptFirst<V(!new)>(f: (V, V) -> V, N: nat, v: V, key: nat)
    requires N >= 3
    ensures Kept(f, Play(f, N, v, []), [], key)
  {
    NothingInFlight(Play(f, N, v, []).0, key);
  }

  /** Over any number of cycles, with items arriving in any of them. */
  lemma {:induction false} AlwaysConserved<V(!new)>(f: (V, V) -> V, N: nat, v: V, input: seq<Slot<V>>, key: nat)
    requires Associative(f) && N >= 3
    ensures Kept(f, Play(f, N, v, input), input, key)
    decreases |input|
  {
    if input == [] {
      KeptFirst(f, N, v, key);
    } else {
      var p, x := input[..|input| - 1], input[|input| - 1];
      assert input == p + [x];
      AlwaysConserved(f, N, v, p, key);
      KeptNext(f, N, v, p, x, key);
    }
  }

  // The `last` flag.

  function Lasts<V>(s: seq<Slot<V>>): nat {
    if s == [] then 0 else Lasts(s[1..]) + if s[0].vld && s[0].last then 1 else 0
  }

  /** A flag that is merged away is lost: flags are kept exactly in steps that do not merge a flagged item. */
  lemma {:induction false} LastKeptIff<V>(f: (V, V) -> V, slots: seq<Slot<V>>, marks: seq<bool>)
    requires Inv(slots, marks)
    ensures Lasts(Merged(f, slots, marks)) == Lasts(slots) <==> !(Killed(marks) && slots[0].last)
  {
    var merged := Merged(f, slots, marks);
    SameLasts(slots[1..], merged[1..]);
  }

  lemma {:induction false} SameLasts<V>(a: seq<Slot<V>>, b: seq<Slot<V>>)
    requires |a| == |b| && forall i :: 0 <= i < |a| ==> a[i].vld == b[i].vld && a[i].last == b[i].last
    ensures Lasts(a) == Lasts(b)
    decreases |a|
  {
    if a != [] {
      SameLasts(a[1..], b[1..]);
    }
  }

  // The register itself.

  class Aggregate<V> {
    const aggr: array<Slot<V>>
    const marks: array<bool>

    ghost predicate Valid()
      reads aggr, marks
    {
      aggr.Length == marks.Length && Inv(aggr[..], marks[..])
    }

    constructor (N: nat, v: V)
      requires N >= 3
      ensures Valid() && fresh(aggr) && fresh(marks) && aggr.Length == N
      ensures forall i :: 0 <= i < N ==> !aggr[i].vld
    {
      aggr := new Slot<V>[N](_ => Slot(false, false, 0, v));
      marks := new bool[N](_ => false);
    }

    /** `garbage` stands for the contents of an item that has not been read. */
    method Step(src: Stream<Slot<V>>, dst: Stream<Slot<V>>, f: (V, V) -> V, garbage: Slot<V>)
      requires Valid() && src != dst && !garbage.vld && forall i :: 0 <= i < |src.fifo.log| ==> src.fifo.log[i].vld
      modifies aggr, marks, src, dst
      ensures Valid()
      ensures var x := if old(src.fifo).Empty() then garbage else old(src.fifo).Peek();
              (aggr[..], marks[..]) == Next(f, old(aggr[..]), old(marks[..]), x)
      ensures src.fifo == if old(src.fifo).Empty() then old(src.fifo) else old(src.fifo).Read()
      ensures dst.fifo.log == old(dst.fifo).log + Emitted(old(aggr[..])) && dst.fifo.rd == old(dst.fifo).rd
    {
      ghost var s0, m0 := aggr[..], marks[..];
      var N := aggr.Length;
      if aggr[N - 1].vld {
        dst.fifo := dst.fifo.Write(aggr[N - 1]);
      }
      MergeMatches(f);
      var x := garbage;
      if !src.fifo.Empty() {
        x := src.fifo.Peek();
        src.fifo := src.fifo.Read();
      }
      ShiftIn(x);
      MarkMatches();
      InvNext(f, s0, m0, x);
    }

    method MergeMatches(f: (V, V) -> V)
      requires aggr.Length == marks.Length >= 3
      modifies aggr
      ensures aggr[..] == Merged(f, old(aggr[..]), marks[..])
    {
      var kill := false;
      for i := 1 to aggr.Length - 1
        invariant kill <==> exists k :: 1 <= k < i && marks[k]
        invariant forall k :: 1 <= k < i ==> aggr[k] == Merged(f, old(aggr[..]), marks[..])[k]
        invariant forall k :: i <= k < aggr.Length ==> aggr[k] == old(aggr[k])
        invariant aggr[0] == old(aggr[0])
      {
        if marks[i] {
          aggr[i] := aggr[i].(val := f(aggr[i].val, aggr[0].val));
          kill := true;
        }
      }
      assert kill <==> Killed(marks[..]);
      aggr[0] := aggr[0].(vld := aggr[0].vld && !kill);
      assert forall k :: 0 <= k < aggr.Length ==> aggr[..][k] == Merged(f, old(aggr[..]), marks[..])[k];
    }

    method ShiftIn(x: Slot<V>)
      requires aggr.Length > 0
      modifies aggr
      ensures aggr[..] == Shifted(old(aggr[..]), x)
    {
      for i := aggr.Length - 1 downto 0
        invariant forall k :: i < k < aggr.Length ==> aggr[k] == old(aggr[k - 1])
        invariant forall k :: 0 <= k <= i ==> aggr[k] == old(aggr[k])
      {
        aggr[i + 1] := aggr[i];
      }
      aggr[0] := x;
    }

    method MarkMatches()
      requires aggr.Length == marks.Length >= 2 && (marks[0] == marks[marks.Length - 1] == false)
      modifies marks
      ensures marks[..] == Marks(aggr[..])
    {
      for i := 1 to marks.Length - 1
        invariant forall k :: 1 <= k < i ==> marks[k] == (aggr[0].vld && Carries(aggr[k], aggr[0].key))
        invariant marks[0] == marks[marks.Length - 1] == false
      {
        marks[i] := aggr[0].vld && aggr[i].vld && aggr[i].key == aggr[0].key;
      }
    }
  }
}
