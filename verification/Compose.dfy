/**
 Composition of the result record. The four kinds of results arrive in any order; the
 record takes them in turn and packs two Count-Min cells into each of its final words.
 */
module Compose {
  import opened Streams
  import opened Lanes

  datatype Inputs = Inputs(
    tick: Fifo<bool>,
    agms: seq<Fifo<int>>,
    basic: Fifo<Flit<int>>,
    card: Fifo<int>,
    cm: Fifo<Flit<int>>)

  /** `ccs` records the cycle counts that went into the records so far. */
  datatype Composer = Composer(idx: nat, lo: Option<int>, cc: nat, ccs: seq<nat>)

  /** Two 32-bit halves of a word, the second one in the upper half. */
  function Pack(lo: int, hi: int): int {
    hi * TWO_32 + lo
  }

  function Ticked(s: Composer, tick: Fifo<bool>): nat {
    ((if tick.Empty() then s.cc else 0) + 1) % TWO_32
  }

  /** What is taken from the input whose turn it is, and the word that goes out for it. */
  function TakeStep(s: Composer, i: Inputs): (r: (Composer, Inputs, Option<Flit<int>>)) {
    var R := |i.agms|;
    if s.idx < R then
      if i.agms[s.idx].Empty() then (s, i, None)
      else (s.(idx := s.idx + 1), i.(agms := i.agms[s.idx := i.agms[s.idx].Read()]),
          Some(Flit(false, i.agms[s.idx].Peek())))
    else if s.idx == R then
      if i.basic.Empty() then (s, i, None)
      else (s.(idx := if i.basic.Peek().last then s.idx + 1 else s.idx), i.(basic := i.basic.Read()),
            Some(Flit(false, i.basic.Peek().val)))
    else if s.idx == R + 1 then
      if i.card.Empty() then (s, i, None)
      else (s.(idx := s.idx + 1, ccs := s.ccs + [s.cc]), i.(card := i.card.Read()),
          Some(Flit(false, Pack(i.card.Peek(), s.cc))))
    else
      if i.cm.Empty() then (s, i, None)
      else
        var x := i.cm.Peek();
        if s.lo.None? then (s.(lo := Some(x.val)), i.(cm := i.cm.Read()), None)
        else (s.(lo := None, idx := if x.last then 0 else s.idx), i.(cm := i.cm.Read()),
            Some(Flit(x.last, Pack(s.lo.value, x.val))))
  }

  function ComposeStep(s: Composer, i: Inputs, dst: Fifo<Flit<int>>): (r: (Composer, Inputs, Fifo<Flit<int>>)) {
    var (s', i', out) := TakeStep(s.(cc := Ticked(s, i.tick)),
        i.(tick := if i.tick.Empty() then i.tick else i.tick.Read()));
    (s', i', if out.Some? then dst.Write(out.value) else dst)
  }

  class Composition {
    var cc: nat
    var idx: nat
    var lo_vld: bool
    var lo_val: int
    ghost var ccs: seq<nat>

    ghost function View(): Composer
      reads this
    {
      Composer(idx, if lo_vld then Some(lo_val) else None, cc, ccs)
    }

    constructor ()
      ensures View() == Composer(0, None, 0, [])
    {
      cc, idx, lo_vld, lo_val, ccs := 0, 0, false, 0, [];
    }

    method CountCycle(tick_src: Stream<bool>)
      modifies this`cc, tick_src
      ensures cc == Ticked(old(View()), old(tick_src.fifo))
      ensures tick_src.fifo == if old(tick_src.fifo).Empty() then old(tick_src.fifo) else old(tick_src.fifo).Read()
    {
      if !tick_src.fifo.Empty() {
        tick_src.fifo := tick_src.fifo.Read();
        cc := 0;
      }
      cc := (cc + 1) % TWO_32;
    }

    method TakeSum(src: Stream<int>) returns (out: Option<Flit<int>>)
      modifies this`idx, src
      ensures if old(src.fifo).Empty() then out == None && idx == old(idx) && src.fifo == old(src.fifo)
              else && out == Some(Flit(false, old(src.fifo).Peek()))
                   && idx == old(idx) + 1 && src.fifo == old(src.fifo).Read()
    {
      out := None;
      if !src.fifo.Empty() {
        out := Some(Flit(false, src.fifo.Peek()));
        src.fifo := src.fifo.Read();
        idx := idx + 1;
      }
    }

    method TakeNextSum(agms_sums: seq<Stream<int>>) returns (out: Option<Flit<int>>)
      requires idx < |agms_sums| && Distinct(agms_sums)
      modifies this`idx, agms_sums[idx]
      ensures var src, r := old(agms_sums[idx].fifo), old(idx);
              && out == (if src.Empty() then None else Some(Flit(false, src.Peek())))
              && idx == (if src.Empty() then r else r + 1)
              && Fifos(agms_sums) == old(Fifos(agms_sums))[r := if src.Empty() then src else src.Read()]
    {
      out := TakeSum(agms_sums[idx]);
    }

    method TakeBasic(src: Stream<Flit<int>>) returns (out: Option<Flit<int>>)
      modifies this`idx, src
      ensures if old(src.fifo).Empty() then out == None && idx == old(idx) && src.fifo == old(src.fifo)
              else var x := old(src.fifo).Peek();
                   && out == Some(Flit(false, x.val)) && src.fifo == old(src.fifo).Read()
                   && idx == if x.last then old(idx) + 1 else old(idx)
    {
      out := None;
      if !src.fifo.Empty() {
        var x := src.fifo.Peek();
        src.fifo := src.fifo.Read();
        out := Some(Flit(false, x.val));
        if x.last {
          idx := idx + 1;
        }
      }
    }

    method TakeEstimate(src: Stream<int>) returns (out: Option<Flit<int>>)
      modifies this`idx, this`ccs, src
      ensures if old(src.fifo).Empty() then out == None && View() == old(View()) && src.fifo == old(src.fifo)
              else && out == Some(Flit(false, Pack(old(src.fifo).Peek(), cc))) && src.fifo == old(src.fifo).Read()
                   && View() == old(View()).(idx := old(idx) + 1, ccs := old(ccs) + [cc])
    {
      out := None;
      if !src.fifo.Empty() {
        out := Some(Flit(false, Pack(src.fifo.Peek(), cc)));
        src.fifo := src.fifo.Read();
        ccs := ccs + [cc];
        idx := idx + 1;
      }
    }

    method TakeCell(src: Stream<Flit<int>>) returns (out: Option<Flit<int>>)
      modifies this`idx, this`lo_vld, this`lo_val, src
      ensures if old(src.fifo).Empty() then out == None && View() == old(View()) && src.fifo == old(src.fifo)
              else var x := old(src.fifo).Peek();
                   && src.fifo == old(src.fifo).Read()
                   && if !old(lo_vld) then out == None && View() == old(View()).(lo := Some(x.val))
                      else && out == Some(Flit(x.last, Pack(old(lo_val), x.val)))
                           && View() == old(View()).(lo := None, idx := if x.last then 0 else old(idx))
    {
      out := None;
      if !src.fifo.Empty() {
        var x := src.fifo.Peek();
        src.fifo := src.fifo.Read();
        if !lo_vld {
          lo_vld, lo_val := true, x.val;
        } else {
          out := Some(Flit(x.last, Pack(lo_val, x.val)));
          lo_vld := false;
          if x.last {
            idx := 0;
          }
        }
      }
    }

    /** Take what comes next, if it is there. */
    method Take(dst_basic: Stream<Flit<int>>, cardest: Stream<int>, agms_sums: seq<Stream<int>>,
          cm_counts: Stream<Flit<int>>, ghost tick: Fifo<bool>)
      returns (out: Option<Flit<int>>)
      requires idx <= |agms_sums| + 2 && Distinct(agms_sums) && cardest !in agms_sums && dst_basic != cm_counts
      modifies this, dst_basic, cardest, agms_sums, cm_counts
      ensures var (s, i, o) := TakeStep(old(View()),
              old(Inputs(tick, Fifos(agms_sums), dst_basic.fifo, cardest.fifo, cm_counts.fifo)));
              && Inputs(tick, Fifos(agms_sums), dst_basic.fifo, cardest.fifo, cm_counts.fifo) == i
              && View() == s && out == o
    {
      if idx < |agms_sums| {
        out := TakeNextSum(agms_sums);
      } else if idx == |agms_sums| {
        out := TakeBasic(dst_basic);
      } else if idx == |agms_sums| + 1 {
        out := TakeEstimate(cardest);
      } else {
        out := TakeCell(cm_counts);
      }
    }

    method Step(tick_src: Stream<bool>, dst_basic: Stream<Flit<int>>, cardest: Stream<int>,
                agms_sums: seq<Stream<int>>, cm_counts: Stream<Flit<int>>, dst: Stream<Flit<int>>)
      requires idx <= |agms_sums| + 2 && Distinct(agms_sums) && cardest !in agms_sums
      requires dst_basic != cm_counts && dst != dst_basic && dst != cm_counts
      modifies this, tick_src, dst_basic, cardest, agms_sums, cm_counts, dst
      ensures var (s, i, o) := ComposeStep(old(View()),
                old(Inputs(tick_src.fifo, Fifos(agms_sums), dst_basic.fifo, cardest.fifo, cm_counts.fifo)),
                old(dst.fifo));
              && View() == s && dst.fifo == o
              && Inputs(tick_src.fifo, Fifos(agms_sums), dst_basic.fifo, cardest.fifo, cm_counts.fifo) == i
    {
      CountCycle(tick_src);
      var out := Take(dst_basic, cardest, agms_sums, cm_counts, tick_src.fifo);
      if out.Some? {
        dst.fifo := dst.fifo.Write(out.value);
      }
    }
  }
}
