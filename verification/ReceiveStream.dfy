/** The stream of packets behind a receive queue, cut up into buffers. */
module ReceiveStream {
  import opened RingIndex
  import opened ReceiveSpec

  /** What one buffer of the stream holds: a stretch of packet `pkt`. */
  datatype Chunk = Chunk(bytes: seq<bv8>, sop: bool, eop: bool, pkt: nat)

  /** A packet fills buffers one after the other; an empty packet takes one buffer. */
  function PktChunks(p: seq<bv8>, pkt: nat, bufsz: nat, first: bool): (cs: seq<Chunk>)
    requires bufsz > 0
    ensures cs != []
    decreases |p|
  {
    if |p| <= bufsz then [Chunk(p, first, true, pkt)]
    else [Chunk(p[..bufsz], first, false, pkt)] + PktChunks(p[bufsz..], pkt, bufsz, false)
  }

  /** All packets, in completion order. */
  function Chunks(pkts: seq<seq<bv8>>, bufsz: nat): seq<Chunk>
    requires bufsz > 0
  {
    if pkts == [] then []
    else Chunks(pkts[..|pkts| - 1], bufsz) + PktChunks(pkts[|pkts| - 1], |pkts| - 1, bufsz, true)
  }

  /** Number of buffers of the first `k` packets. */
  function Base(pkts: seq<seq<bv8>>, bufsz: nat, k: nat): nat
    requires bufsz > 0 && k <= |pkts|
  {
    |Chunks(pkts[..k], bufsz)|
  }

  function Flat(cs: seq<Chunk>): seq<bv8>
  {
    if cs == [] then [] else Flat(cs[..|cs| - 1]) + cs[|cs| - 1].bytes
  }

  /** All payload bytes. */
  function Payload(pkts: seq<seq<bv8>>): seq<bv8>
  {
    if pkts == [] then [] else Payload(pkts[..|pkts| - 1]) + pkts[|pkts| - 1]
  }

  /* ---- one packet ---- */

  /** The code's formula is the ceiling, at least one. */
  lemma {:induction false} BufsForStep(len: nat, bufsz: nat)
    requires bufsz > 0
    ensures len <= bufsz ==> BufsFor(len, bufsz) == 1
    ensures len > bufsz ==> BufsFor(len, bufsz) == 1 + BufsFor(len - bufsz, bufsz)
    ensures len > bufsz ==> len % bufsz == (len - bufsz) % bufsz
  {
    if 0 < len <= bufsz {
      DivIs(len + (bufsz - 1), bufsz, 1);
    } else if len > bufsz {
      DivStep(len + (bufsz - 1), bufsz);
      DivStep(len, bufsz);
    }
  }

  lemma {:induction false} MulLe(x: nat, y: nat, b: nat)
    requires x <= y
    ensures x * b <= y * b
  {
  }

  lemma {:induction false} DivIs(a: nat, b: nat, q: nat)
    requires b > 0 && q * b <= a < (q + 1) * b
    ensures a / b == q
  {
    var d := a / b;
    assert d * b <= a < (d + 1) * b;
    if d < q {
      MulLe(d + 1, q, b);
    } else if q < d {
      MulLe(q + 1, d, b);
    }
  }

  lemma {:induction false} SmallRemainder(a: nat, b: nat)
    requires b > 0 && a <= b
    ensures a % b == if a < b then a else 0
  {
    DivIs(a, b, if a < b then 0 else 1);
  }

  lemma {:induction false} FlatOne(c: Chunk)
    ensures Flat([c]) == c.bytes
  {
    assert [c][..0] == [];
  }

  lemma {:induction false} DivStep(a: nat, b: nat)
    requires b > 0 && a >= b
    ensures a / b == (a - b) / b + 1
    ensures a % b == (a - b) % b
  {
    var q := (a - b) / b;
    assert a - b == q * b + (a - b) % b;
    assert (q + 1) * b == q * b + b;
    assert (q + 1 + 1) * b == q * b + b + b;
    DivIs(a, b, q + 1);
  }

  lemma {:induction false} PktCount(p: seq<bv8>, pkt: nat, bufsz: nat, first: bool)
    requires bufsz > 0
    ensures |PktChunks(p, pkt, bufsz, first)| == BufsFor(|p|, bufsz)
    decreases |p|
  {
    BufsForStep(|p|, bufsz);
    if |p| > bufsz {
      PktCount(p[bufsz..], pkt, bufsz, false);
    }
  }

  /** A long packet: its first buffer, then the rest. */
  lemma {:induction false} PktFirst(p: seq<bv8>, pkt: nat, bufsz: nat, first: bool)
    requires 0 < bufsz < |p|
    ensures PktChunks(p, pkt, bufsz, first) ==
            [Chunk(p[..bufsz], first, false, pkt)] + PktChunks(p[bufsz..], pkt, bufsz, false)
    ensures p == p[..bufsz] + p[bufsz..]
  {
  }

  lemma {:induction false} PktShort(p: seq<bv8>, pkt: nat, bufsz: nat, first: bool)
    requires bufsz > 0 && |p| <= bufsz
    ensures PktChunks(p, pkt, bufsz, first) == [Chunk(p, first, true, pkt)]
  {
  }

  lemma {:induction false} PktFlat(p: seq<bv8>, pkt: nat, bufsz: nat, first: bool)
    requires bufsz > 0
    ensures Flat(PktChunks(p, pkt, bufsz, first)) == p
    decreases |p|
  {
    hide PktChunks, Flat;
    if |p| <= bufsz {
      PktShort(p, pkt, bufsz, first);
      FlatOne(Chunk(p, first, true, pkt));
    } else {
      var head := Chunk(p[..bufsz], first, false, pkt);
      PktFirst(p, pkt, bufsz, first);
      PktFlat(p[bufsz..], pkt, bufsz, false);
      FlatConcat([head], PktChunks(p[bufsz..], pkt, bufsz, false));
      FlatOne(head);
    }
  }

  lemma {:induction false} PktChunk(p: seq<bv8>, pkt: nat, bufsz: nat, first: bool, c: nat)
    requires bufsz > 0 && c < |PktChunks(p, pkt, bufsz, first)|
    ensures var cs := PktChunks(p, pkt, bufsz, first);
            && cs[c].pkt == pkt
            && cs[c].sop == (first && c == 0)
            && cs[c].eop == (c == |cs| - 1)
            && |cs[c].bytes| == (if c < |cs| - 1 then bufsz
                                 else if |p| == 0 then 0
                                 else if |p| % bufsz != 0 then |p| % bufsz else bufsz)
    decreases |p|
  {
    if |p| <= bufsz {
      SmallRemainder(|p|, bufsz);
    } else {
      BufsForStep(|p|, bufsz);
      hide BufsFor;
      if c > 0 {
        PktChunk(p[bufsz..], pkt, bufsz, false, c - 1);
      }
    }
  }

  /** MAIN RESULT on packet arithmetic: the number of buffers computed by `rcv_pkt` is the
      number of chunks; only the last one is short, by the remainder `rcv_pkt` stores; and
      the chunks put together are the packet. */
  lemma {:induction false} PktChunksAre(p: seq<bv8>, pkt: nat, bufsz: nat, first: bool)
    requires bufsz > 0
    ensures var cs := PktChunks(p, pkt, bufsz, first);
            && |cs| == BufsFor(|p|, bufsz)
            && Flat(cs) == p
            && (forall c :: 0 <= c < |cs| ==>
                  && cs[c].pkt == pkt
                  && cs[c].sop == (first && c == 0)
                  && cs[c].eop == (c == |cs| - 1)
                  && |cs[c].bytes| == (if c < |cs| - 1 then bufsz
                                       else if |p| == 0 then 0
                                       else if |p| % bufsz != 0 then |p| % bufsz else bufsz))
  {
    hide PktChunks, Flat, BufsFor;
    PktCount(p, pkt, bufsz, first);
    PktFlat(p, pkt, bufsz, first);
    forall c | 0 <= c < |PktChunks(p, pkt, bufsz, first)|
      ensures var cs := PktChunks(p, pkt, bufsz, first);
              && cs[c].pkt == pkt
              && cs[c].sop == (first && c == 0)
              && cs[c].eop == (c == |cs| - 1)
              && |cs[c].bytes| == (if c < |cs| - 1 then bufsz
                                   else if |p| == 0 then 0
                                   else if |p| % bufsz != 0 then |p| % bufsz else bufsz)
    {
      PktChunk(p, pkt, bufsz, first, c);
    }
  }

  lemma {:induction false} FlatConcat(a: seq<Chunk>, b: seq<Chunk>)
    ensures Flat(a + b) == Flat(a) + Flat(b)
  {
    if b == [] {
      assert a + b == a;
    } else {
      assert (a + b)[..|a + b| - 1] == a + b[..|b| - 1];
      FlatConcat(a, b[..|b| - 1]);
    }
  }

  lemma {:induction false} FlatStep(cs: seq<Chunk>, k: nat)
    requires k < |cs|
    ensures Flat(cs[..k + 1]) == Flat(cs[..k]) + cs[k].bytes
  {
    assert cs[..k + 1][..k] == cs[..k];
  }

  lemma {:induction false} FlatPrefix(cs: seq<Chunk>, k: nat)
    requires k <= |cs|
    ensures Flat(cs[..k]) <= Flat(cs)
  {
    assert cs == cs[..k] + cs[k..];
    FlatConcat(cs[..k], cs[k..]);
  }

  /* ---- the whole stream ---- */

  /** The chunks of all packets put together are the payloads in completion order. */
  lemma {:induction false} FlatIsPayload(pkts: seq<seq<bv8>>, bufsz: nat)
    requires bufsz > 0
    ensures Flat(Chunks(pkts, bufsz)) == Payload(pkts)
  {
    if pkts != [] {
      var n := |pkts| - 1;
      FlatIsPayload(pkts[..n], bufsz);
      PktFlat(pkts[n], n, bufsz, true);
      FlatConcat(Chunks(pkts[..n], bufsz), PktChunks(pkts[n], n, bufsz, true));
    }
  }

  lemma {:induction false} ChunksStep(pkts: seq<seq<bv8>>, bufsz: nat, k: nat)
    requires bufsz > 0 && k < |pkts|
    ensures Chunks(pkts[..k + 1], bufsz) == Chunks(pkts[..k], bufsz) + PktChunks(pkts[k], k, bufsz, true)
    ensures Base(pkts, bufsz, k + 1) == Base(pkts, bufsz, k) + BufsFor(|pkts[k]|, bufsz)
  {
    assert pkts[..k + 1][..k] == pkts[..k];
    PktCount(pkts[k], k, bufsz, true);
  }

  /** The first packets take the first buffers. */
  lemma {:induction false} ChunksPrefix(pkts: seq<seq<bv8>>, bufsz: nat, k: nat)
    requires bufsz > 0 && k <= |pkts|
    ensures Chunks(pkts[..k], bufsz) <= Chunks(pkts, bufsz)
    decreases |pkts| - k
  {
    if k == |pkts| {
      assert pkts[..k] == pkts;
    } else {
      ChunksStep(pkts, bufsz, k);
      ChunksPrefix(pkts, bufsz, k + 1);
    }
  }

  /** Buffer `Base(k) + c` holds chunk `c` of packet `k`. */
  lemma {:induction false} ChunkAt(pkts: seq<seq<bv8>>, bufsz: nat, k: nat, c: nat)
    requires bufsz > 0 && k < |pkts| && c < BufsFor(|pkts[k]|, bufsz)
    ensures |PktChunks(pkts[k], k, bufsz, true)| == BufsFor(|pkts[k]|, bufsz)
    ensures Base(pkts, bufsz, k) + c < |Chunks(pkts, bufsz)|
    ensures Chunks(pkts, bufsz)[Base(pkts, bufsz, k) + c] == PktChunks(pkts[k], k, bufsz, true)[c]
  {
    PktCount(pkts[k], k, bufsz, true);
    ChunksStep(pkts, bufsz, k);
    ChunksPrefix(pkts, bufsz, k + 1);
  }

  lemma {:induction false} BaseMonotone(pkts: seq<seq<bv8>>, bufsz: nat, i: nat, j: nat)
    requires bufsz > 0 && i <= j <= |pkts|
    ensures Base(pkts, bufsz, i) + (j - i) <= Base(pkts, bufsz, j)
    ensures Base(pkts, bufsz, j) <= |Chunks(pkts, bufsz)|
    decreases j - i
  {
    ChunksPrefix(pkts, bufsz, j);
    if i < j {
      ChunksStep(pkts, bufsz, i);
      PktCount(pkts[i], i, bufsz, true);
      BaseMonotone(pkts, bufsz, i + 1, j);
    }
  }

  /** Appending a packet leaves the earlier chunks in place. */
  lemma {:induction false} ChunksAppend(pkts: seq<seq<bv8>>, p: seq<bv8>, bufsz: nat)
    requires bufsz > 0
    ensures Chunks(pkts + [p], bufsz) == Chunks(pkts, bufsz) + PktChunks(p, |pkts|, bufsz, true)
    ensures forall k :: 0 <= k <= |pkts| ==> Base(pkts + [p], bufsz, k) == Base(pkts, bufsz, k)
    ensures Base(pkts + [p], bufsz, |pkts| + 1) == Base(pkts, bufsz, |pkts|) + BufsFor(|p|, bufsz)
  {
    assert (pkts + [p])[..|pkts|] == pkts;
    forall k | 0 <= k <= |pkts| ensures Base(pkts + [p], bufsz, k) == Base(pkts, bufsz, k) {
      assert (pkts + [p])[..k] == pkts[..k];
    }
    ChunksStep(pkts + [p], bufsz, |pkts|);
  }

  /* ---- which packets are read to their end ---- */

  /** Number of packets whose last buffer is among the first `r`. */
  function Released(cs: seq<Chunk>, r: nat): nat
    requires r <= |cs|
  {
    if r == 0 then 0
    else if cs[r - 1].eop then cs[r - 1].pkt + 1
    else Released(cs, r - 1)
  }

  lemma {:induction false} ReleasedPrefix(a: seq<Chunk>, b: seq<Chunk>, r: nat)
    requires r <= |a|
    ensures Released(a + b, r) == Released(a, r)
  {
    if r > 0 && !a[r - 1].eop {
      ReleasedPrefix(a, b, r - 1);
    }
  }

  /** `Released` counts exactly the packets read to their end: `k` of them if and only if
      reading has passed the end of packet `k - 1` and not that of packet `k`. */
  lemma {:induction false} ReleasedIs(pkts: seq<seq<bv8>>, bufsz: nat, r: nat)
    requires bufsz > 0 && r <= |Chunks(pkts, bufsz)|
    ensures var k := Released(Chunks(pkts, bufsz), r);
            && k <= |pkts|
            && Base(pkts, bufsz, k) <= r
            && (k < |pkts| ==> r < Base(pkts, bufsz, k + 1))
  {
    var cs := Chunks(pkts, bufsz);
    if r == 0 {
      assert pkts[..0] == [];
      if |pkts| > 0 {
        BaseMonotone(pkts, bufsz, 0, 1);
      }
    } else {
      var k, c := Locate(pkts, bufsz, r - 1);
      ChunkAt(pkts, bufsz, k, c);
      PktChunk(pkts[k], k, bufsz, true, c);
      ChunksStep(pkts, bufsz, k);
      if cs[r - 1].eop {
        if k + 1 < |pkts| {
          BaseMonotone(pkts, bufsz, k + 1, k + 2);
        }
      } else {
        ReleasedIs(pkts, bufsz, r - 1);
        var k' := Released(cs, r - 1);
        if k' < k {
          BaseMonotone(pkts, bufsz, k' + 1, k);
        } else if k < k' {
          BaseMonotone(pkts, bufsz, k + 1, k');
        }
      }
    }
  }

  /** The packet that buffer `q` belongs to. */
  lemma {:induction false} Locate(pkts: seq<seq<bv8>>, bufsz: nat, q: nat) returns (k: nat, c: nat)
    requires bufsz > 0 && q < |Chunks(pkts, bufsz)|
    ensures k < |pkts| && c < BufsFor(|pkts[k]|, bufsz) && q == Base(pkts, bufsz, k) + c
  {
    k := |pkts| - 1;
    assert pkts[..|pkts|] == pkts;
    assert pkts[..0] == [];
    while q < Base(pkts, bufsz, k)
      invariant k < |pkts| && q < Base(pkts, bufsz, k + 1)
      decreases k
    {
      k := k - 1;
    }
    ChunksStep(pkts, bufsz, k);
    c := q - Base(pkts, bufsz, k);
  }

  lemma {:induction false} ReleasedMonotone(pkts: seq<seq<bv8>>, bufsz: nat, r: nat, r': nat)
    requires bufsz > 0 && r <= r' <= |Chunks(pkts, bufsz)|
    ensures Released(Chunks(pkts, bufsz), r) <= Released(Chunks(pkts, bufsz), r')
  {
    var cs := Chunks(pkts, bufsz);
    ReleasedIs(pkts, bufsz, r);
    ReleasedIs(pkts, bufsz, r');
    var k, k' := Released(cs, r), Released(cs, r');
    if k' < k {
      BaseMonotone(pkts, bufsz, k' + 1, k);
    }
  }
}
