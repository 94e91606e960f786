/**
 The statistics collectors: a read-modify-write memory that first consumes key/value
 flits and, after a `last` flag, dumps and clears all its cells.

 `Collect` runs on a memory whose reads may miss any of the latest three writes;
 its forwarding registers hide that. `UCollect` runs on a perfect memory.
 Both implement the same ideal collector.
 */
module Collecting {
  import opened Streams
  import opened Monoids

  /** Key and increment, as received by a collector. */
  datatype KV = KV(key: nat, inc: nat)

  datatype Write = Write(addr: nat, val: int)

  /** Which of the three pending writes (newest first) a read happens to see. */
  datatype Visibility = Visibility(v1: bool, v2: bool, v3: bool)

  /** The committed cells and the three latest writes, newest first. */
  datatype Memory = Memory(cells: seq<int>, w1: Write, w2: Write, w3: Write) {

    /** What a read of `a` delivers when it sees the pending writes selected by `v`. */
    function Read(a: nat, v: Visibility): int
      requires a < |cells|
    {
      if v.v1 && w1.addr == a then w1.val
      else if v.v2 && w2.addr == a then w2.val
      else if v.v3 && w3.addr == a then w3.val
      else cells[a]
    }

    /** A new write commits the oldest pending one. */
    function Store(a: nat, x: int): Memory
      requires w3.addr < |cells|
    {
      Memory(cells[w3.addr := w3.val], Write(a, x), w1, w2)
    }

    /** The contents once all pending writes have arrived. */
    function Logical(): (s: seq<int>)
      ensures |s| == |cells|
    {
      seq(|cells|, a requires 0 <= a < |cells| => Read(a, Visibility(true, true, true)))
    }
  }

  /** The state of a `Collect` unit. */
  datatype Unit = Unit(dump: bool, ptr: nat, mem: Memory, z: Write, zz: Write, zzz: Write)

  /** The state of a collector on a perfect memory. */
  datatype Ideal = Ideal(dump: bool, ptr: nat, mem: seq<int>)

  type Source = Fifo<Flit<KV>>
  type Sink = Fifo<Flit<int>>

  predicate UnitOk(u: Unit, M: nat) {
    && |u.mem.cells| == M && u.ptr < M
    && u.z == u.mem.w1 && u.zz == u.mem.w2 && u.zzz == u.mem.w3
    && u.z.addr < M && u.zz.addr < M && u.zzz.addr < M
  }

  predicate KeysBelow(src: Source, M: nat) {
    forall i :: 0 <= i < |src.log| ==> src.log[i].val.key < M
  }

  function Abstract(u: Unit): Ideal {
    Ideal(u.dump, u.ptr, u.mem.Logical())
  }

  /** The value a cycle of `Collect` works on: the memory's, unless a register holds a newer one. */
  function Current(u: Unit, madr: nat, vis: Visibility): int
    requires madr < |u.mem.cells|
  {
    if madr == u.z.addr then u.z.val
    else if madr == u.zz.addr then u.zz.val
    else if madr == u.zzz.addr then u.zzz.val
    else u.mem.Read(madr, vis)
  }

  /** The registers shift and the memory receives the write. */
  function Advance(u: Unit, dump: bool, ptr: nat, wb: Write): Unit
    requires u.mem.w3.addr < |u.mem.cells|
  {
    Unit(dump, ptr, u.mem.Store(wb.addr, wb.val), wb, u.z, u.zz)
  }

  /** One cycle of `Collect`: dump a cell and clear it, update a cell, or rewrite the latest one. */
  function UnitStep(m: Monoid, g: nat -> int, u: Unit, src: Source, dst: Sink, vis: Visibility)
      : (r: (Unit, Source, Sink))
    requires UnitOk(u, |u.mem.cells|) && KeysBelow(src, |u.mem.cells|)
  {
    if u.dump then
      var last := u.ptr == |u.mem.cells| - 1;
      ( Advance(u, !last, if last then 0 else u.ptr + 1, Write(u.ptr, 0)),
        src,
        dst.Write(Flit(last, Current(u, u.ptr, vis))) )
    else if !src.Empty() then
      var x := src.Peek();
      ( Advance(u, x.last, u.ptr, Write(x.val.key, m.op(Current(u, x.val.key, vis), g(x.val.inc)))),
        src.Read(),
        dst )
    else
      (Advance(u, false, u.ptr, u.z), src, dst)
  }

  /** One cycle of the ideal collector. */
  function IdealStep(m: Monoid, g: nat -> int, s: Ideal, src: Source, dst: Sink): (r: (Ideal, Source, Sink))
    requires s.ptr < |s.mem| && KeysBelow(src, |s.mem|)
  {
    if s.dump then
      var last := s.ptr == |s.mem| - 1;
      (Ideal(!last, if last then 0 else s.ptr + 1, s.mem[s.ptr := 0]), src, dst.Write(Flit(last, s.mem[s.ptr])))
    else if !src.Empty() then
      var x := src.Peek();
      var key := x.val.key;
      (Ideal(x.last, s.ptr, s.mem[key := m.op(s.mem[key], g(x.val.inc))]), src.Read(), dst)
    else
      (s, src, dst)
  }

  /** Whatever its reads miss, the pipelined unit does in each cycle what the ideal collector does. */
  lemma {:induction false} UnitRefinesIdeal(m: Monoid, g: nat -> int, u: Unit, src: Source, dst: Sink, vis: Visibility)
    requires UnitOk(u, |u.mem.cells|) && KeysBelow(src, |u.mem.cells|)
    ensures var (u', src', dst') := UnitStep(m, g, u, src, dst, vis);
            && UnitOk(u', |u.mem.cells|)
            && IdealStep(m, g, Abstract(u), src, dst) == (Abstract(u'), src', dst')
  {
    var (u', src', dst') := UnitStep(m, g, u, src, dst, vis);
    var (s', isrc, idst) := IdealStep(m, g, Abstract(u), src, dst);
    assert s'.mem == u'.mem.Logical();
  }

  // What a collector produces over a whole run.

  function KVContribution(g: nat -> int, key: nat): KV -> int {
    (x: KV) => if x.key == key then g(x.inc) else 0
  }

  /** The value of one cell after collecting the given job. */
  function CellOf(m: Monoid, g: nat -> int, job: seq<KV>, key: nat): int {
    Sum(m, KVContribution(g, key), job)
  }

  /** The `t`-th flit ever dumped: all `M` cells, job after job. */
  function DumpAt(m: Monoid, g: nat -> int, M: nat, js: seq<seq<KV>>, t: nat): Flit<int>
    requires M > 0 && t / M < |js|
  {
    Flit(t % M == M - 1, CellOf(m, g, js[t / M], t % M))
  }

  ghost predicate Dumped(m: Monoid, g: nat -> int, M: nat, js: seq<seq<KV>>, o: seq<Flit<int>>) {
    && M > 0
    && forall t :: 0 <= t < |o| ==> t / M < |js| && o[t] == DumpAt(m, g, M, js, t)
  }

  /** State and output of a collector that has consumed `c` and produced `o`. */
  ghost predicate CollectInv(m: Monoid, g: nat -> int, s: Ideal, c: seq<Flit<KV>>, o: seq<Flit<int>>) {
    var M := |s.mem|;
    var js := Jobs(c);
    && s.ptr < M
    && Dumped(m, g, M, js, o)
    && if s.dump then
         && js != [] && Open(c) == []
         && |o| == (|js| - 1) * M + s.ptr
         && forall k :: 0 <= k < M ==> s.mem[k] == if k < s.ptr then 0 else CellOf(m, g, js[|js| - 1], k)
       else
         && s.ptr == 0
         && |o| == |js| * M
         && forall k :: 0 <= k < M ==> s.mem[k] == CellOf(m, g, Open(c), k)
  }

  ghost predicate GoodIncrement(m: Monoid, g: nat -> int) {
    Lawful(m) && InDom(m, g)
  }

  lemma {:induction false} ContributionInDom(m: Monoid, g: nat -> int, key: nat)
    requires GoodIncrement(m, g)
    ensures InDom(m, KVContribution(g, key))
  {
    forall x: KV
      ensures m.dom(KVContribution(g, key)(x))
    {
      assert m.dom(g(x.inc));
    }
  }

  lemma {:induction false} CellSnoc(m: Monoid, g: nat -> int, job: seq<KV>, x: KV, key: nat)
    requires GoodIncrement(m, g)
    ensures CellOf(m, g, job + [x], key) ==
            if x.key == key then m.op(CellOf(m, g, job, key), g(x.inc)) else CellOf(m, g, job, key)
  {
    SumSnoc(m, KVContribution(g, key), job, x);
    ContributionInDom(m, g, key);
    SumInDom(m, KVContribution(g, key), job);
    assert Pair(CellOf(m, g, job, key), 0) && Pair(0, CellOf(m, g, job, key));
  }

  lemma {:induction false} CollectStepInv(m: Monoid, g: nat -> int, s: Ideal, src: Source, dst: Sink)
    requires GoodIncrement(m, g)
    requires KeysBelow(src, |s.mem|)
    requires CollectInv(m, g, s, src.Consumed(), dst.log)
    ensures var (s', src', dst') := IdealStep(m, g, s, src, dst);
            && |s'.mem| == |s.mem|
            && CollectInv(m, g, s', src'.Consumed(), dst'.log)
  {
    var (s', src', dst') := IdealStep(m, g, s, src, dst);
    var M := |s.mem|;
    var c, js := src.Consumed(), Jobs(src.Consumed());
    if s.dump {
      DivModUnique(|js| - 1, s.ptr, M);
      assert |js| * M == (|js| - 1) * M + M;
    } else if !src.Empty() {
      var x := src.Peek();
      JobsSnoc(c, x);
      forall k | 0 <= k < M
        ensures s'.mem[k] == CellOf(m, g, Open(c) + [x.val], k)
      {
        CellSnoc(m, g, Open(c), x.val, k);
      }
      forall t | 0 <= t < |dst.log|
        ensures t / M < |Jobs(src'.Consumed())|
        ensures dst.log[t] == DumpAt(m, g, M, Jobs(src'.Consumed()), t)
      {
      }
    }
  }

  /** The constructor's state satisfies the invariant with nothing consumed or produced. */
  lemma {:induction false} CollectInit(m: Monoid, g: nat -> int, M: nat)
    requires M > 0
    ensures CollectInv(m, g, Ideal(false, 0, seq(M, _ => 0)), [], [])
  {
  }

  // The hardware units themselves.

  class Collect {
    var dump: bool
    var dump_ptr: nat
    var Mem: Memory
    var z_key: nat
    var zz_key: nat
    var zzz_key: nat
    var z_val: int
    var zz_val: int
    var zzz_val: int

    function View(): Unit
      reads this
    {
      Unit(dump, dump_ptr, Mem, Write(z_key, z_val), Write(zz_key, zz_val), Write(zzz_key, zzz_val))
    }

    ghost predicate Valid()
      reads this
    {
      UnitOk(View(), |Mem.cells|)
    }

    /** The writes a fresh memory still has pending are zeros to its first cell, which is zero anyway. */
    constructor (size: nat)
      requires size > 0
      ensures Valid() && |Mem.cells| == size
      ensures Abstract(View()) == Ideal(false, 0, seq(size, _ => 0))
    {
      dump, dump_ptr := false, 0;
      Mem := Memory(seq(size, _ => 0), Write(0, 0), Write(0, 0), Write(0, 0));
      z_key, zz_key, zzz_key := 0, 0, 0;
      z_val, zz_val, zzz_val := 0, 0, 0;
      new;
      assert Abstract(View()).mem == seq(size, _ => 0);
    }

    /** The value at `madr`, taken from the most recent register that holds it. */
    method Forward(madr: nat, mval: int) returns (curr_val: int)
      ensures curr_val ==
        if madr == z_key then z_val
        else if madr == zz_key then zz_val
        else if madr == zzz_key then zzz_val
        else mval
    {
      var match_ := false;
      curr_val := 0;
      if madr == zzz_key {
        match_, curr_val := true, zzz_val;
      }
      if madr == zz_key {
        match_, curr_val := true, zz_val;
      }
      if madr == z_key {
        match_, curr_val := true, z_val;
      }
      if !match_ {
        curr_val := mval;
      }
    }

    /** Advance the forwarding registers and issue the write. */
    method WriteBack(key: nat, val: int)
      requires Mem.w3.addr < |Mem.cells|
      modifies this
      ensures View() == Advance(old(View()), old(dump), old(dump_ptr), Write(key, val))
    {
      zzz_key, zzz_val := zz_key, zz_val;
      zz_key, zz_val := z_key, z_val;
      z_key, z_val := key, val;
      Mem := Mem.Store(key, val);
    }

    method Step(src: Stream<Flit<KV>>, dst: Stream<Flit<int>>, m: Monoid, g: nat -> int, vis: Visibility)
      requires Valid() && KeysBelow(src.fifo, |Mem.cells|)
      modifies this, src, dst
      ensures Valid()
      ensures (View(), src.fifo, dst.fifo) == UnitStep(m, g, old(View()), old(src.fifo), old(dst.fifo), vis)
      ensures (Abstract(View()), src.fifo, dst.fifo)
           == IdealStep(m, g, old(Abstract(View())), old(src.fifo), old(dst.fifo))
    {
      UnitRefinesIdeal(m, g, View(), src.fifo, dst.fifo, vis);
      var idat, istb := Flit(false, KV(0, 0)), false;
      var madr: nat;
      if dump {
        madr := dump_ptr;
      } else {
        if !src.fifo.Empty() {
          idat, istb := src.fifo.Peek(), true;
          src.fifo := src.fifo.Read();
        }
        madr := idat.val.key;
      }
      var mval := Mem.Read(madr, vis);
      var curr_val := Forward(madr, mval);

      var key, val := z_key, z_val;
      if dump {
        var last := dump_ptr == |Mem.cells| - 1;
        dst.fifo := dst.fifo.Write(Flit(last, curr_val));
        key, val := dump_ptr, 0;
        dump := !last;
        dump_ptr := if last then 0 else dump_ptr + 1;
      } else if istb {
        key, val := idat.val.key, m.op(curr_val, g(idat.val.inc));
        dump := idat.last;
      }
      WriteBack(key, val);
    }
  }

  /** The simple form: a perfect memory and no forwarding. */
  class UCollect {
    var dump: bool
    var dump_ptr: nat
    const Mem: array<int>

    function View(): Ideal
      reads this, Mem
    {
      Ideal(dump, dump_ptr, Mem[..])
    }

    constructor (size: nat)
      requires size > 0
      ensures fresh(Mem) && dump_ptr < Mem.Length
      ensures View() == Ideal(false, 0, seq(size, _ => 0))
    {
      dump, dump_ptr := false, 0;
      Mem := new int[size](_ => 0);
    }

    method Step(src: Stream<Flit<KV>>, dst: Stream<Flit<int>>, m: Monoid, g: nat -> int)
      requires dump_ptr < Mem.Length && KeysBelow(src.fifo, Mem.Length)
      modifies this, Mem, src, dst
      ensures dump_ptr < Mem.Length
      ensures (View(), src.fifo, dst.fifo) == IdealStep(m, g, old(View()), old(src.fifo), old(dst.fifo))
    {
      var idat, istb := Flit(false, KV(0, 0)), false;
      var madr: nat;
      if dump {
        madr := dump_ptr;
      } else {
        if !src.fifo.Empty() {
          idat, istb := src.fifo.Peek(), true;
          src.fifo := src.fifo.Read();
        }
        madr := idat.val.key;
      }
      var curr_val := Mem[madr];

      var stb, key, val := false, 0, 0;
      if dump {
        var last := dump_ptr == Mem.Length - 1;
        dst.fifo := dst.fifo.Write(Flit(last, curr_val));
        stb, key, val := true, dump_ptr, 0;
        dump := !last;
        dump_ptr := if last then 0 else dump_ptr + 1;
      } else if istb {
        stb, key, val := true, idat.val.key, m.op(curr_val, g(idat.val.inc));
        dump := idat.last;
      }
      if stb {
        Mem[key] := val;
      }
    }
  }
}
