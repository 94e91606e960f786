/**
 How the server cuts a byte stream into 32-bit words: each received chunk is appended to
 the bytes carried over from the one before, and what does not fill a word is carried on.
 */
module Reassembly {
  import opened Lanes
  import opened Streams

  type Byte = b: nat | b < 256

  /** The word that four bytes in memory make up on a little-endian machine. */
  function FromBytes(b: seq<Byte>): Word
    requires |b| == 4
  {
    var b0: int, b1: int, b2: int, b3: int := b[0], b[1], b[2], b[3];
    b0 + 256 * b1 + 65536 * b2 + 16777216 * b3
  }

  function ToBytes(w: Word): (b: seq<Byte>)
    ensures |b| == 4
  {
    [w % 256, (w / 256) % 256, (w / 65536) % 256, w / 16777216]
  }

  lemma {:induction false} WordRoundTrip(w: Word)
    ensures FromBytes(ToBytes(w)) == w
  {
    var a, b, c: nat := w / 256, w / 65536, w / 16777216;
    assert w == w % 256 + 256 * a;
    ByteOut(w, 256);
    ByteOut(w, 65536);
    assert FromBytes(ToBytes(w)) == w % 256 + 256 * (a % 256) + 65536 * (b % 256) + 16777216 * c;
  }

  /** The digits of a number above `m` are those above `256 * m` and one more. */
  lemma {:induction false} ByteOut(w: nat, m: nat)
    requires m == 256 || m == 65536
    ensures w / m == (w / m) % 256 + 256 * (w / (256 * m))
  {
    if m == 256 {
      assert w / 65536 == (w / 256) / 256;
    } else {
      assert w / 16777216 == (w / 65536) / 256;
    }
  }

  lemma {:induction false} BytesRoundTrip(b: seq<Byte>)
    requires |b| == 4
    ensures ToBytes(FromBytes(b)) == b
  {
    var w: int := FromBytes(b);
    var b1: int, b2: int, b3: int := b[1], b[2], b[3];
    BytesOut(b[0], b1, b2, b3);
  }

  lemma {:induction false} BytesOut(b0: Byte, b1: Byte, b2: Byte, b3: Byte)
    ensures var w: nat := b0 + 256 * b1 + 65536 * b2 + 16777216 * b3;
            w % 256 == b0 && (w / 256) % 256 == b1 && (w / 65536) % 256 == b2 && w / 16777216 == b3
  {
    var w: nat := b0 + 256 * b1 + 65536 * b2 + 16777216 * b3;
    DivModUnique(b1 + 256 * b2 + 65536 * b3, b0, 256);
    DivModUnique(b2 + 256 * b3, b0 + 256 * b1, 65536);
    DivModUnique(b3, b0 + 256 * b1 + 65536 * b2, 16777216);
    DivModUnique(b2 + 256 * b3, b1, 256);
    DivModUnique(b3, b2, 256);
  }

  /** The first byte in memory is the lowest one of the word. */
  lemma {:induction false} LittleEndian(b: seq<Byte>)
    requires |b| == 4
    ensures var w := FromBytes(b);
            w % 256 == b[0] && (w / 256) % 256 == b[1] && (w / 65536) % 256 == b[2] && w / 16777216 == b[3]
    ensures FromBytes([1, 0, 0, 0]) == 1 && FromBytes([0, 0, 0, 1]) == 0x100_0000
  {
    var b1: int, b2: int, b3: int := b[1], b[2], b[3];
    BytesOut(b[0], b1, b2, b3);
  }

  /** The complete words of a byte sequence, and the bytes behind them. */
  function Words(b: seq<Byte>): (ws: seq<Word>)
    ensures |ws| == |b| / 4
  {
    seq(|b| / 4, i requires 0 <= i < |b| / 4 => FromBytes(b[4 * i..4 * i + 4]))
  }

  function Rest(b: seq<Byte>): (r: seq<Byte>)
    ensures |r| == |b| % 4
  {
    b[4 * (|b| / 4)..]
  }

  function BytesOf(): Word -> seq<Byte> {
    (w: Word) => ToBytes(w)
  }

  /** The words of a sequence are those of its whole-word part. */
  lemma {:induction false} Whole(b: seq<Byte>, w: seq<Byte>)
    requires w == b[..4 * (|b| / 4)]
    ensures Words(w) == Words(b)
  {
    forall i | 0 <= i < |b| / 4
      ensures Words(w)[i] == Words(b)[i]
    {
      assert w[4 * i..4 * i + 4] == b[4 * i..4 * i + 4];
    }
  }

  lemma {:induction false} WordsSnoc(a: seq<Byte>, four: seq<Byte>)
    requires |a| % 4 == 0 && |four| == 4
    ensures Words(a + four) == Words(a) + [FromBytes(four)]
  {
    var n := |a| / 4;
    assert |a + four| / 4 == n + 1;
    assert (a + four)[4 * n..4 * n + 4] == four;
    forall i | 0 <= i < n
      ensures Words(a + four)[i] == Words(a)[i]
    {
      assert (a + four)[4 * i..4 * i + 4] == a[4 * i..4 * i + 4];
    }
  }

  lemma {:induction false} WordsAreAll(w: seq<Byte>)
    requires |w| % 4 == 0
    ensures Flatten(Map(BytesOf(), Words(w))) == w
    decreases |w|
  {
    if |w| > 0 {
      var a, four := w[..|w| - 4], w[|w| - 4..];
      assert w == a + four;
      WordsAreAll(a);
      WordsSnoc(a, four);
      BytesRoundTrip(four);
      assert Map(BytesOf(), Words(a) + [FromBytes(four)]) == Map(BytesOf(), Words(a)) + [four];
      FlattenSnoc(Map(BytesOf(), Words(a)), four);
    }
  }

  /** The words and the rest are all of the stream: nothing lost, repeated or moved. */
  lemma {:induction false} WordsAndRest(b: seq<Byte>)
    ensures Flatten(Map(BytesOf(), Words(b))) + Rest(b) == b
  {
    var w := b[..4 * (|b| / 4)];
    assert |w| % 4 == 0;
    Whole(b, w);
    WordsAreAll(w);
  }

  lemma {:induction false} SliceOfRest(s: seq<Byte>, m: nat, i: nat, k: nat)
    requires m + i + k <= |s|
    ensures s[m..][i..i + k] == s[m + i..m + i + k]
  {
  }

  /** Cutting a stream anywhere, and carrying the rest over, does not change its words. */
  lemma {:induction false} CarryOver(stream: seq<Byte>, chunk: seq<Byte>)
    ensures Words(stream + chunk) == Words(stream) + Words(Rest(stream) + chunk)
    ensures Rest(stream + chunk) == Rest(Rest(stream) + chunk)
  {
    var n, all, part := |stream| / 4, stream + chunk, Rest(stream) + chunk;
    assert part == all[4 * n..];
    assert |all| / 4 == n + |part| / 4;
    forall i | 0 <= i < |all| / 4
      ensures Words(all)[i] == (Words(stream) + Words(part))[i]
    {
      if i < n {
        assert all[4 * i..4 * i + 4] == stream[4 * i..4 * i + 4];
      } else {
        SliceOfRest(all, 4 * n, 4 * (i - n), 4);
      }
    }
  }

  const JOB_SIZE: nat := 65536

  /** A buffer of `JOB_SIZE` words, of which `cnt` are valid. */
  class Job {
    var cnt: nat
    const buf: array<Byte>

    constructor ()
      ensures cnt == 0 && buf.Length == 4 * JOB_SIZE && fresh(buf)
    {
      cnt := 0;
      buf := new Byte[4 * JOB_SIZE];
    }

    /** The valid words. */
    function Items(): seq<Word>
      requires 4 * cnt <= buf.Length
      reads this, buf
    {
      Words(buf[..4 * cnt])
    }

    /** Put the carried bytes first and the received ones behind. */
    method Put(cnt0: nat, cy0: Word, data: seq<Byte>)
      requires cnt0 < 4 && buf.Length == 4 * JOB_SIZE && 0 < |data| <= buf.Length - cnt0
      modifies buf
      ensures buf[..cnt0 + |data|] == ToBytes(cy0)[..cnt0] + data
    {
      ghost var all := ToBytes(cy0)[..cnt0] + data;
      for i := 0 to 4
        invariant forall k :: 0 <= k < i ==> buf[k] == ToBytes(cy0)[k]
      {
        buf[i] := ToBytes(cy0)[i];
      }
      for i := 0 to |data|
        invariant forall k :: 0 <= k < cnt0 + i ==> buf[k] == all[k]
      {
        buf[cnt0 + i] := data[i];
      }
    }

    /**
     One turn of the receiver: join what is carried and what is received, and keep what does
     not fill a word. `cy` is arbitrary where `cnt0` says it is not valid.
     */
    method Receive(cnt0: nat, cy0: Word, data: seq<Byte>) returns (cnt1: nat, cy1: Word)
      requires cnt0 < 4 && buf.Length == 4 * JOB_SIZE && 0 < |data| <= buf.Length - cnt0
      modifies this, buf
      ensures cnt <= JOB_SIZE && cnt1 < 4
      ensures Items() == Words(ToBytes(cy0)[..cnt0] + data)
      ensures ToBytes(cy1)[..cnt1] == Rest(ToBytes(cy0)[..cnt0] + data)
    {
      ghost var all := ToBytes(cy0)[..cnt0] + data;
      Put(cnt0, cy0, data);
      var total := cnt0 + |data|;
      var items := total / 4;
      cnt1 := total % 4;
      cy1 := cy0;
      if cnt1 != 0 {
        cy1 := FromBytes(buf[4 * items..4 * items + 4]);
        BytesRoundTrip(buf[4 * items..4 * items + 4]);
      }
      cnt := items;
      Whole(all, buf[..4 * items]);
      assert ToBytes(cy1)[..cnt1] == all[4 * items..];
    }
  }
}
