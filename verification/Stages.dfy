/**
 The stateless stages as they read and write their streams, one call per clock cycle.
 Each does to its FIFOs what the network's step functions say.
 */
module Stages {
  import opened Streams
  import opened Monoids
  import opened Lanes
  import opened Network

  /** What a mapping stage does in one cycle. */
  function MapStep<A, B>(f: A -> B, src: Fifo<A>, dst: Fifo<B>): (Fifo<A>, Fifo<B>) {
    if src.Empty() then (src, dst) else (src.Read(), dst.Write(f(src.Peek())))
  }

  /** Over any number of cycles, mapping everything consumed is everything produced. */
  lemma {:induction false} MapStepInv<A, B>(f: A -> B, src: Fifo<A>, dst: Fifo<B>)
    requires dst.log == Map(f, src.Consumed())
    ensures var (src', dst') := MapStep(f, src, dst);
            dst'.log == Map(f, src'.Consumed()) && src'.log == src.log
  {
    if !src.Empty() {
      assert Map(f, src.Consumed() + [src.Peek()]) == Map(f, src.Consumed()) + [f(src.Peek())];
    }
  }

  method MapStream<A, B>(src: Stream<A>, dst: Stream<B>, f: A -> B)
    requires {src as object} !! {dst as object}
    modifies src, dst
    ensures (src.fifo, dst.fifo) == MapStep(f, old(src.fifo), old(dst.fifo))
  {
    if !src.fifo.Empty() {
      var x := src.fifo.Peek();
      src.fifo := src.fifo.Read();
      dst.fifo := dst.fifo.Write(f(x));
    }
  }

  /** Copy an element to all destinations, with a mapping of its own for each. */
  method SplitStream<A, B>(src: Stream<A>, dst: seq<Stream<B>>, f: (A, nat) -> B)
    requires Distinct(dst) && forall i :: 0 <= i < |dst| ==> {src as object} !! {dst[i] as object}
    modifies src, dst
    ensures src.fifo == Advance(old(src.fifo))
    ensures forall i :: 0 <= i < |dst| ==>
              dst[i].fifo ==
                if old(src.fifo).Empty() then old(dst[i].fifo) else old(dst[i].fifo).Write(f(old(src.fifo).Peek(), i))
  {
    if !src.fifo.Empty() {
      var x := src.fifo.Peek();
      src.fifo := src.fifo.Read();
      for i := 0 to |dst|
        invariant src.fifo == old(src.fifo).Read()
        invariant forall k :: 0 <= k < i ==> dst[k].fifo == old(dst[k].fifo).Write(f(x, k))
        invariant forall k :: i <= k < |dst| ==> dst[k].fifo == old(dst[k].fifo)
      {
        dst[i].fifo := dst[i].fifo.Write(f(x, i));
      }
    }
  }

  method AllNonEmpty(src: seq<Stream<Flit<int>>>) returns (ready: bool)
    ensures ready <==> AllReady(Fifos(src))
  {
    ready := true;
    for i := 0 to |src|
      invariant ready <==> forall k :: 0 <= k < i ==> !src[k].fifo.Empty()
    {
      ready := ready && !src[i].fifo.Empty();
    }
    assert forall k :: 0 <= k < |src| ==> Fifos(src)[k] == src[k].fifo;
  }

  /** Read one flit from each source and fold them. */
  method ReadAll(src: seq<Stream<Flit<int>>>, m: Monoid) returns (y: Flit<int>)
    requires Distinct(src) && AllReady(Fifos(src))
    modifies src
    ensures y == ReduceFold(m, Heads(old(Fifos(src))))
    ensures forall k :: 0 <= k < |src| ==> src[k].fifo == old(Fifos(src))[k].Read()
  {
    ghost var before := Fifos(src);
    y := Flit(false, 0);
    for i := 0 to |src|
      invariant y == ReduceFold(m, Heads(before)[..i])
      invariant forall k :: 0 <= k < i ==> src[k].fifo == before[k].Read()
      invariant forall k :: i <= k < |src| ==> src[k].fifo == before[k]
    {
      var x := src[i].fifo.Peek();
      src[i].fifo := src[i].fifo.Read();
      assert Heads(before)[..i + 1][..i] == Heads(before)[..i];
      y := Flit(x.last, m.op(y.val, x.val));
    }
    assert Heads(before)[..|src|] == Heads(before);
  }

  /** Read from all sources at once, but only if all have something, and fold what was read. */
  method ReduceStreams(src: seq<Stream<Flit<int>>>, dst: Stream<Flit<int>>, m: Monoid)
    requires Distinct(src) && dst !in src
    modifies src, dst
    ensures (Fifos(src), dst.fifo) == ReduceStep(m, old(Fifos(src)), old(dst.fifo))
  {
    ghost var before := Fifos(src);
    var ready := AllNonEmpty(src);
    if ready {
      var y := ReadAll(src, m);
      dst.fifo := dst.fifo.Write(y);
      assert Fifos(src) == ReduceStep(m, before, old(dst.fifo)).0;
    }
  }

  // Hashing.

  /** The FIFOs of all streams towards the sketches, and of the lanes, are different ones. */
  ghost predicate Wired(lanes: seq<Stream<Item>>, hashed: seq<seq<Stream<Flit<nat>>>>) {
    && Distinct(lanes)
    && (forall j :: 0 <= j < |hashed| ==> |hashed[j]| == |lanes|)
    && (forall j, i, k, l ::
          0 <= j < |hashed| && 0 <= i < |lanes| && 0 <= k < |hashed| && 0 <= l < |lanes| && (j != k || i != l) ==>
          hashed[j][i] != hashed[k][l])
    && (forall j, i, l :: 0 <= j < |hashed| && 0 <= i < |lanes| && 0 <= l < |lanes| ==>
         hashed[j][i] as object != lanes[l] as object)
  }

  /** The FIFOs towards one sketch after the first `n` lanes have been served. */
  function HashedUpTo(hash: Word -> nat, lanes: seq<Fifo<Item>>, hashed: seq<Fifo<Flit<nat>>>,
        n: nat): (r: seq<Fifo<Flit<nat>>>)
    requires n <= |lanes| == |hashed|
    ensures |r| == |lanes|
  {
    seq(|lanes|, l requires 0 <= l < |lanes| => if l < n then HashLane(hash, lanes[l], hashed[l]) else hashed[l])
  }

  lemma {:induction false} HashedNext(hash: Word -> nat, lanes: seq<Fifo<Item>>, hashed: seq<Fifo<Flit<nat>>>, n: nat)
    requires n < |lanes| == |hashed|
    ensures var was := HashedUpTo(hash, lanes, hashed, n);
            HashedUpTo(hash, lanes, hashed, n + 1) == was[n := HashLane(hash, lanes[n], was[n])]
  {
  }

  /** Send a hash to all sketches. */
  method SendHash(hashed: seq<seq<Stream<Flit<nat>>>>, i: nat, n: nat, x: Flit<nat>)
    requires (forall j :: 0 <= j < |hashed| ==> |hashed[j]| == n) && i < n
    requires forall j, l, k, m ::
               0 <= j < |hashed| && 0 <= l < n && 0 <= k < |hashed| && 0 <= m < n && (j != k || l != m) ==>
               hashed[j][l] != hashed[k][m]
    modifies set j, l | 0 <= j < |hashed| && 0 <= l < |hashed[j]| :: hashed[j][l]
    ensures forall j :: 0 <= j < |hashed| ==>
              Fifos(hashed[j]) == old(Fifos(hashed[j]))[i := old(Fifos(hashed[j]))[i].Write(x)]
  {
    for j := 0 to |hashed|
      invariant forall k :: 0 <= k < j ==>
                  Fifos(hashed[k]) == old(Fifos(hashed[k]))[i := old(Fifos(hashed[k]))[i].Write(x)]
      invariant forall k :: j <= k < |hashed| ==> Fifos(hashed[k]) == old(Fifos(hashed[k]))
    {
      assert Fifos(hashed[j])[i] == hashed[j][i].fifo;
      hashed[j][i].fifo := hashed[j][i].fifo.Write(x);
    }
  }

  /** Hash what one lane offers. */
  method ServeLane(lanes: seq<Stream<Item>>, hashed: seq<seq<Stream<Flit<nat>>>>, hash: Word -> nat, i: nat)
    requires Wired(lanes, hashed) && i < |lanes|
    modifies lanes[i], set j, l | 0 <= j < |hashed| && 0 <= l < |hashed[j]| :: hashed[j][l]
    ensures lanes[i].fifo == Advance(old(lanes[i].fifo))
    ensures forall j :: 0 <= j < |hashed| ==>
              var was := old(Fifos(hashed[j])); Fifos(hashed[j]) == was[i := HashLane(hash, old(lanes[i].fifo), was[i])]
  {
    if !lanes[i].fifo.Empty() {
      var x := lanes[i].fifo.Peek();
      lanes[i].fifo := lanes[i].fifo.Read();
      assert forall j :: 0 <= j < |hashed| ==> Fifos(hashed[j]) == old(Fifos(hashed[j]));
      SendHash(hashed, i, |lanes|, Flit(x.last, hash(x.val)));
    }
  }

  /** Hash whatever the lanes offer and send each hash to all sketches. */
  method DistributeStreams(lanes: seq<Stream<Item>>, hashed: seq<seq<Stream<Flit<nat>>>>, hash: Word -> nat)
    requires Wired(lanes, hashed)
    modifies lanes, set j, l | 0 <= j < |hashed| && 0 <= l < |hashed[j]| :: hashed[j][l]
    ensures forall l :: 0 <= l < |lanes| ==> lanes[l].fifo == Advance(old(lanes[l].fifo))
    ensures forall j :: 0 <= j < |hashed| ==>
              Fifos(hashed[j]) == HashedUpTo(hash, old(Fifos(lanes)), old(Fifos(hashed[j])), |lanes|)
  {
    ghost var offered := Fifos(lanes);
    for i := 0 to |lanes|
      invariant forall l :: 0 <= l < i ==> lanes[l].fifo == Advance(offered[l])
      invariant forall l :: i <= l < |lanes| ==> lanes[l].fifo == offered[l]
      invariant forall j :: 0 <= j < |hashed| ==>
                  Fifos(hashed[j]) == HashedUpTo(hash, offered, old(Fifos(hashed[j])), i)
    {
      label Before:
      ServeLane(lanes, hashed, hash, i);
      forall j | 0 <= j < |hashed|
        ensures Fifos(hashed[j]) == HashedUpTo(hash, offered, old(Fifos(hashed[j])), i + 1)
      {
        assert old@Before(Fifos(hashed[j])) == HashedUpTo(hash, offered, old(Fifos(hashed[j])), i);
        HashedNext(hash, offered, old(Fifos(hashed[j])), i);
      }
    }
  }

  /** For every sketch this is the network's own step. */
  lemma {:induction false} DistributeIsStep(cfg: Config, sk: Sketch, lanes: seq<Fifo<Item>>)
    requires |sk.hashed| == |lanes|
    ensures DistributeSketch(cfg, sk, lanes).hashed == HashedUpTo(cfg.hash, lanes, sk.hashed, |lanes|)
  {
  }
}
