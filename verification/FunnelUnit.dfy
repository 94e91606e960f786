/**
 The funnel as the hardware has it: an array whose tail may hold stale items, a count,
 and loops that shift, realign and overwrite it in place.
 */
module FunnelUnit {
  import opened Streams
  import opened Lanes
  import opened Funnel

  class DistrFunnel {
    const N: nat
    const K: nat
    const Buf: array<Item>
    var Cnt: nat

    ghost predicate Valid()
      reads this
    {
      0 < K < N && Buf.Length == N + K - 1 && Cnt <= N + K - 1
    }

    /** The buffered items; what lies beyond `Cnt` is stale. */
    function View(): seq<Item>
      requires Cnt <= Buf.Length
      reads this, Buf
    {
      Buf[..Cnt]
    }

    constructor (N: nat, K: nat)
      requires 0 < K < N
      ensures Valid() && fresh(Buf) && this.N == N && this.K == K && View() == []
    {
      this.N, this.K := N, K;
      Buf := new Item[N + K - 1](_ => Flit(false, 0));
      Cnt := 0;
    }

    /** Write the leading items to the lanes. */
    method WriteOut(dst: seq<Stream<Item>>)
      requires Valid() && |dst| == K && Distinct(dst)
      modifies dst
      ensures Fifos(dst) == WriteGroup(old(Fifos(dst)), if Cnt < K then View() else View()[..K])
      ensures View() == old(View())
    {
      ghost var before, q := Fifos(dst), Buf[..];
      for i := 0 to K
        invariant Buf[..] == q
        invariant forall j :: 0 <= j < K ==>
                    dst[j].fifo == if j < i && j < Cnt then before[j].Write(q[j]) else before[j]
      {
        if i < Cnt {
          dst[i].fifo := dst[i].fifo.Write(Buf[i]);
        }
      }
    }

    /** Move the items behind the first K to the front. */
    method Shift()
      requires Valid()
      modifies Buf
      ensures Buf[..N - 1] == old(Buf[K..])
    {
      for i := 0 to N - 1
        invariant forall j :: 0 <= j < i ==> Buf[j] == old(Buf[j + K])
        invariant forall j :: i <= j < Buf.Length ==> Buf[j] == old(Buf[j])
      {
        Buf[i] := Buf[i + K];
      }
    }

    /** Split a flit into items, the last K of a job's final flit flagged. */
    method SplitItems(x: Wide) returns (x_split: array<Item>)
      requires Valid() && |x.val| == N
      ensures fresh(x_split) && x_split[..] == Mark(K, x)
    {
      x_split := new Item[N](_ => Flit(false, 0));
      for i := 0 to N
        invariant forall j :: 0 <= j < i ==> x_split[j] == Mark(K, x)[j]
      {
        x_split[i] := Flit(x.last && i >= N - K, x.val[i]);
      }
    }

    /** Rotate the items of a flit so that index `Cnt % N` holds the first one. */
    method Align(x: Wide) returns (x_aligned: array<Item>)
      requires Valid() && Cnt < K && |x.val| == N
      ensures fresh(x_aligned) && x_aligned.Length == N
      ensures Rotated(x_aligned[..], Mark(K, x), Cnt)
    {
      ghost var marked := Mark(K, x);
      var x_split := SplitItems(x);
      x_aligned := new Item[N](_ => Flit(false, 0));
      for i := 0 to N
        invariant forall j :: 0 <= j < N ==> x_split[j] == marked[j]
        invariant forall j :: 0 <= j < i ==> x_aligned[j] == marked[if j < Cnt then N + j - Cnt else j - Cnt]
      {
        Realign(N, Cnt, i);
        x_aligned[i] := x_split[(N + i - Cnt) % N];
      }
    }

    /** Append the words of a flit behind the buffered items. */
    method Fill(x: Wide)
      requires Valid() && Cnt < K && |x.val| == N
      modifies this`Cnt, Buf
      ensures Valid() && View() == old(View()) + Mark(K, x)
    {
      ghost var q, marked := View(), Mark(K, x);
      var x_aligned := Align(x);
      for i := 0 to N + K - 1
        invariant Cnt == |q|
        invariant Rotated(x_aligned[..], marked, |q|)
        invariant forall j :: 0 <= j < Cnt ==> Buf[j] == q[j]
        invariant forall j :: Cnt <= j < i && j < Cnt + N ==> Buf[j] == marked[j - Cnt]
      {
        if i >= Cnt {
          InPlace(x_aligned[..], marked, Cnt, i);
          Buf[i] := x_aligned[i % N];
        }
      }
      Cnt := Cnt + N;
    }

    /** Hand a group to the lanes if one is due. */
    method HandOut(dst: seq<Stream<Item>>)
      requires Valid() && |dst| == K && Distinct(dst)
      modifies this`Cnt, Buf, dst
      ensures Valid()
      ensures View() == old(View())[|Group(K, old(View()))|..]
      ensures Fifos(dst) == WriteGroup(old(Fifos(dst)), Group(K, old(View())))
    {
      ghost var q, before, n := View(), Buf[..], Cnt;
      var fullout := Cnt >= K;
      if fullout || Buf[0].last {
        WriteOut(dst);
        Shift();
        if fullout {
          Cnt := Cnt - K;
          assert View() == before[K..][..n - K];
          TakeDrop(before, K, n);
        } else {
          Cnt := 0;
        }
      }
    }

    /** One call of the funnel for K < N. */
    method Step(src: Stream<Wide>, dst: seq<Stream<Item>>)
      requires Valid() && |dst| == K && Distinct(dst) && WidthIs(N, src.fifo.log)
      modifies this`Cnt, Buf, src, dst
      ensures Valid()
      ensures (View(), src.fifo, Fifos(dst)) == NarrowStep(old(View()), old(src.fifo), old(Fifos(dst)))
    {
      HandOut(dst);
      if Cnt < K && !src.fifo.Empty() {
        var x := src.fifo.Peek();
        src.fifo := src.fifo.Read();
        Fill(x);
      }
    }
  }

  lemma {:induction false} TakeDrop<T>(s: seq<T>, k: nat, n: nat)
    requires k <= n <= |s|
    ensures s[k..][..n - k] == s[..n][k..]
  {
  }

  lemma {:induction false} Realign(N: nat, cnt: nat, i: nat)
    requires cnt < N && i < N
    ensures (N + i - cnt) % N == if i < cnt then N + i - cnt else i - cnt
  {
    DivModUnique(if i < cnt then 0 else 1, if i < cnt then N + i - cnt else i - cnt, N);
  }

  lemma {:induction false} WrapIndex(N: nat, i: nat)
    requires i < 2 * N
    ensures i % N == if i < N then i else i - N
  {
    DivModUnique(if i < N then 0 else 1, if i < N then i else i - N, N);
  }

  /** `al` holds the items `s` from index `n` on, wrapping around. */
  predicate Rotated(al: seq<Item>, s: seq<Item>, n: nat) {
    |al| == |s| >= n && forall j :: 0 <= j < |al| ==> al[j] == s[if j < n then |al| + j - n else j - n]
  }

  lemma {:induction false} InPlace(al: seq<Item>, s: seq<Item>, n: nat, i: nat)
    requires Rotated(al, s, n) && n <= i < 2 * |al|
    ensures i % |al| < |al| && (i < n + |al| ==> al[i % |al|] == s[i - n])
  {
    WrapIndex(|al|, i);
  }

  /** One call of the funnel for K == N: the flit is split over all lanes. */
  method SplitFlit(src: Stream<Wide>, dst: seq<Stream<Item>>)
    requires Distinct(dst) && WidthIs(|dst|, src.fifo.log)
    modifies src, dst
    ensures ([], src.fifo, Fifos(dst)) == SplitStep([], old(src.fifo), old(Fifos(dst)))
  {
    if !src.fifo.Empty() {
      var x := src.fifo.Peek();
      src.fifo := src.fifo.Read();
      for i := 0 to |dst|
        invariant src.fifo == old(src.fifo).Read()
        invariant forall j :: 0 <= j < i ==> dst[j].fifo == old(dst[j].fifo).Write(Flit(x.last, x.val[j]))
        invariant forall j :: i <= j < |dst| ==> dst[j].fifo == old(dst[j].fifo)
      {
        dst[i].fifo := dst[i].fifo.Write(Flit(x.last, x.val[i]));
      }
      assert Fifos(dst) == WriteGroup(old(Fifos(dst)), Mark(|dst|, x));
    }
  }
}
