/** The two rings of a receive queue, described by unbounded counts. */
module ReceiveRings {
  import opened RingIndex
  import opened PhaseRing
  import opened ReceiveSpec
  import opened ReceiveStream

  /* ---- the free list ---- */

  /** The hardware has put the chunk into the buffer. */
  predicate Loaded(b: Buf, c: Chunk)
  {
    |c.bytes| <= |b.page| && b.page[..|c.bytes|] == c.bytes
  }

  /** A received buffer of which `o` bytes are read; `wsz` is the completion ring size. */
  predicate Unread(b: Buf, c: Chunk, o: nat, wsz: nat)
    requires wsz > 0
  {
    && Loaded(b, c)
    && b.valid && b.sop == c.sop && b.eop == c.eop && b.cidx == Slot(c.pkt + 1, wsz)
    && o <= |c.bytes| && b.offset == o && b.len == |c.bytes| - o
  }

  /** A buffer lent to the hardware. */
  predicate Clean(b: Buf, bufsz: nat)
  {
    b.len == bufsz && b.offset == 0 && !b.valid && !b.sop && !b.eop
  }

  predicate Positions(fl: FreeList, cs: seq<Chunk>, r0: nat, read: nat, off: nat, p: nat)
  {
    var sz := |fl.bufs|;
    && sz > 0
    && r0 <= read <= p <= |cs| < r0 + sz
    && fl.pidx == Slot(p, sz) && fl.pidxPend == Slot(read, sz)
    && fl.avail == sz - 1 - (p - r0)
    && (off > 0 ==> read < p && off < |cs[read].bytes|)
  }

  predicate UnreadFrom(fl: FreeList, cs: seq<Chunk>, wsz: nat, read: nat, off: nat, p: nat)
    requires |fl.bufs| > 0 && wsz > 0 && p <= |cs|
  {
    forall q :: read <= q < p ==>
      Unread(fl.bufs[Slot(q, |fl.bufs|)], cs[q], if q == read then off else 0, wsz)
  }

  predicate CleanFrom(fl: FreeList, bufsz: nat, p: nat, end: nat)
    requires |fl.bufs| > 0
  {
    forall q :: p <= q < end ==> Clean(fl.bufs[Slot(q, |fl.bufs|)], bufsz)
  }

  predicate LoadedFrom(fl: FreeList, cs: seq<Chunk>, p: nat)
    requires |fl.bufs| > 0
  {
    forall q :: p <= q < |cs| ==> Loaded(fl.bufs[Slot(q, |fl.bufs|)], cs[q])
  }

  /** The free list, given the buffers of the stream that the hardware has filled (`cs`),
      how many are taken over by the driver (`p`), read (`read`, and `off` bytes of the
      next one) and handed back (`r0`). */
  predicate FlOk(fl: FreeList, bufsz: nat, cs: seq<Chunk>, wsz: nat, r0: nat, read: nat, off: nat, p: nat)
  {
    && wsz > 0
    && Positions(fl, cs, r0, read, off, p)
    && UnreadFrom(fl, cs, wsz, read, off, p)
    && CleanFrom(fl, bufsz, p, r0 + |fl.bufs|)
    && LoadedFrom(fl, cs, p)
  }

  /** Buffer `q` ahead of the read position. */
  lemma {:induction false} AheadOfRead(fl: FreeList, cs: seq<Chunk>, r0: nat, read: nat, off: nat, p: nat, q: nat)
    requires Positions(fl, cs, r0, read, off, p) && q <= |fl.bufs|
    ensures Incr(fl.pidxPend, q, |fl.bufs|) == Slot(read + q, |fl.bufs|)
    ensures Delta(fl.pidx, fl.pidxPend, |fl.bufs|) == p - read
  {
    SlotIncr(read, q, |fl.bufs|);
    SlotDelta(p, read, |fl.bufs|);
  }

  /** The sources are the chunks from `read` on, the first one short of `off` bytes at its
      end. */
  predicate SourcesMatch(src: seq<seq<bv8>>, cs: seq<Chunk>, read: nat, off: nat)
  {
    && read + |src| <= |cs|
    && forall q :: 0 <= q < |src| ==> SourceMatches(src[q], cs[read + q].bytes, if q == 0 then off else 0)
  }

  predicate SourceMatches(s: seq<bv8>, bytes: seq<bv8>, o: nat)
  {
    o <= |bytes| && s == bytes[..|bytes| - o]
  }

  /** What a read sees: the unread chunks, but a partly read one from its start. */
  lemma {:induction false} SourcesAre(fl: FreeList, bufsz: nat, cs: seq<Chunk>, wsz: nat,
                                      r0: nat, read: nat, off: nat, p: nat)
    requires FlShape(fl, bufsz) && FlOk(fl, bufsz, cs, wsz, r0, read, off, p)
    ensures |Sources(fl, bufsz)| == p - read
    ensures SourcesMatch(Sources(fl, bufsz), cs, read, off)
  {
    AheadOfRead(fl, cs, r0, read, off, p, 0);
    var src := Sources(fl, bufsz);
    forall q | 0 <= q < p - read
      ensures SourceMatches(src[q], cs[read + q].bytes, if q == 0 then off else 0)
    {
      AheadOfRead(fl, cs, r0, read, off, p, q);
      var b, c := fl.bufs[Slot(read + q, |fl.bufs|)], cs[read + q];
      var o := if q == 0 then off else 0;
      assert Unread(b, c, o, wsz);
      assert b.page[..b.len] == b.page[..|c.bytes|][..b.len];
    }
  }

  /** What consuming does to the buffer at place `q`. */
  lemma {:induction false} ConsumedAt(fl: FreeList, bufsz: nat, at: nat, n: nat, foff: nat, q: nat)
    requires FlShape(fl, bufsz) && fl.pidxPend < |fl.bufs| && n <= Delta(fl.pidx, fl.pidxPend, |fl.bufs|)
    requires Incr(fl.pidxPend, n, |fl.bufs|) == Slot(at, |fl.bufs|) && at <= q < at + |fl.bufs|
    requires foff > 0 ==> foff <= fl.bufs[Slot(at, |fl.bufs|)].len
    ensures var b := fl.bufs[Slot(q, |fl.bufs|)];
            Consume(fl, bufsz, n, foff).bufs[Slot(q, |fl.bufs|)] ==
            if q == at && foff > 0 then b.(offset := b.offset + foff, len := b.len - foff) else b
  {
    hide Slot, Incr, Delta;
    if q != at {
      SlotInjective(at, q, |fl.bufs|);
    }
  }

  /** Reading `n` more buffers, and `foff` bytes of the one after them. */
  lemma {:induction false} ConsumeOk(fl: FreeList, bufsz: nat, cs: seq<Chunk>, wsz: nat,
                                     r0: nat, read: nat, off: nat, p: nat, n: nat, foff: nat)
    requires FlShape(fl, bufsz) && FlOk(fl, bufsz, cs, wsz, r0, read, off, p)
    requires n <= p - read
    requires foff > 0 ==> n < p - read && foff + (if n == 0 then off else 0) < |cs[read + n].bytes|
    ensures n <= Delta(fl.pidx, fl.pidxPend, |fl.bufs|)
    ensures foff > 0 ==> foff <= fl.bufs[Incr(fl.pidxPend, n, |fl.bufs|)].len
    ensures FlOk(Consume(fl, bufsz, n, foff), bufsz, cs, wsz, r0, read + n, foff + (if n == 0 then off else 0), p)
  {
    hide Slot, Incr, Delta, Consume, Loaded, FlShape;
    var sz := |fl.bufs|;
    AheadOfRead(fl, cs, r0, read, off, p, n);
    if foff > 0 {
      assert Unread(fl.bufs[Slot(read + n, sz)], cs[read + n], if n == 0 then off else 0, wsz);
    }
    var fl' := Consume(fl, bufsz, n, foff);
    var off' := foff + (if n == 0 then off else 0);
    forall q | read + n <= q < r0 + sz
      ensures var b, b' := fl.bufs[Slot(q, sz)], fl'.bufs[Slot(q, sz)];
              b' == if q == read + n && foff > 0 then b.(offset := b.offset + foff, len := b.len - foff) else b
    {
      ConsumedAt(fl, bufsz, read + n, n, foff, q);
    }
    if foff > 0 {
      LoadedIs(fl.bufs[Slot(read + n, sz)], fl'.bufs[Slot(read + n, sz)], cs[read + n]);
    }
    assert UnreadFrom(fl', cs, wsz, read + n, off', p);
    assert CleanFrom(fl', bufsz, p, r0 + sz) && LoadedFrom(fl', cs, p);
  }

  lemma {:induction false} LoadedIs(b: Buf, b': Buf, c: Chunk)
    requires b'.page == b.page
    ensures Loaded(b', c) <==> Loaded(b, c)
  {
  }

  /** Handing the read buffers back. */
  lemma {:induction false} RefillOk(fl: FreeList, bufsz: nat, cs: seq<Chunk>, wsz: nat,
                                    r0: nat, read: nat, off: nat, p: nat)
    requires FlShape(fl, bufsz) && FlOk(fl, bufsz, cs, wsz, r0, read, off, p)
    ensures FlOk(Refill(fl, bufsz, Slot(r0, |fl.bufs|), read - r0), bufsz, cs, wsz, read, read, off, p)
  {
    var sz := |fl.bufs|;
    var fl' := Refill(fl, bufsz, Slot(r0, sz), read - r0);
    forall q | read <= q < read + sz
      ensures fl'.bufs[Slot(q, sz)] ==
              if q < r0 + sz then fl.bufs[Slot(q, sz)] else Recycled(fl.bufs[Slot(q, sz)], bufsz)
    {
      if q < r0 + sz {
        SlotDelta(q, r0, sz);
      } else {
        PhaseFlips(q - sz, sz);
        SlotDelta(q - sz, r0, sz);
      }
    }
  }

  /** The stream continues at position `p` with a packet of `len` bytes. */
  predicate PacketAt(cs: seq<Chunk>, p: nat, len: nat, bufsz: nat, pkt: nat)
    requires bufsz > 0
  {
    var nb := BufsFor(len, bufsz);
    && p + nb <= |cs|
    && forall q :: p <= q < p + nb ==> ChunkOf(cs[q], q - p, nb, len, bufsz, pkt)
  }

  /** Where position `q` of the window lies, seen from position `p`. */
  lemma {:induction false} WindowDelta(q: nat, p: nat, sz: nat)
    requires sz > 0 && (p <= q < p + sz || q < p < q + sz)
    ensures Delta(Slot(q, sz), Slot(p, sz), sz) == if q >= p then q - p else sz - (p - q)
  {
    if q >= p {
      SlotDelta(q, p, sz);
    } else {
      SlotDelta(p, q, sz);
    }
  }

  /** No buffer the packet claims is in use. */
  lemma {:induction false} ClaimsClean(fl: FreeList, bufsz: nat, cs: seq<Chunk>, wsz: nat,
                                       r0: nat, read: nat, off: nat, p: nat, len: nat)
    requires bufsz > 0 && FlOk(fl, bufsz, cs, wsz, r0, read, off, p) && p + BufsFor(len, bufsz) <= |cs|
    ensures !ClaimsUsed(fl, bufsz, len)
  {
    hide BufsFor;
    forall s | 0 <= s < |fl.bufs| && Delta(s, fl.pidx, |fl.bufs|) < BufsFor(len, bufsz)
      ensures !fl.bufs[s].valid
    {
      var q := SlotOf(p, s, |fl.bufs|);
      assert Clean(fl.bufs[Slot(q, |fl.bufs|)], bufsz);
    }
  }

  /** What claiming does to the buffer at position `q` of the window. */
  lemma {:induction false} ClaimAt(fl: FreeList, bufsz: nat, len: nat, cidxNext: nat, p: nat, q: nat)
    requires bufsz > 0 && FlShape(fl, bufsz) && BufsFor(len, bufsz) <= |fl.bufs| && fl.pidx == Slot(p, |fl.bufs|)
    requires p <= q < p + |fl.bufs| || (q < p < q + |fl.bufs| && p + BufsFor(len, bufsz) <= q + |fl.bufs|)
    ensures Claim(fl, bufsz, len, cidxNext).bufs[Slot(q, |fl.bufs|)] ==
            if p <= q < p + BufsFor(len, bufsz)
            then Claimed(fl.bufs[Slot(q, |fl.bufs|)], q - p, BufsFor(len, bufsz), len, bufsz, cidxNext)
            else fl.bufs[Slot(q, |fl.bufs|)]
  {
    hide BufsFor;
    WindowDelta(q, p, |fl.bufs|);
  }

  lemma {:induction false} ClaimUnread(b: Buf, c: Chunk, k: nat, len: nat, bufsz: nat, pkt: nat, wsz: nat)
    requires bufsz > 0 && wsz > 0 && k < BufsFor(len, bufsz)
    requires Clean(b, bufsz) && Loaded(b, c) && ChunkOf(c, k, BufsFor(len, bufsz), len, bufsz, pkt)
    ensures Unread(Claimed(b, k, BufsFor(len, bufsz), len, bufsz, Slot(pkt + 1, wsz)), c, 0, wsz)
  {
    hide BufsFor;
  }

  /** The buffers of the packet are unread afterwards. */
  lemma {:induction false} ClaimTakes(fl: FreeList, bufsz: nat, cs: seq<Chunk>, wsz: nat,
                                      p: nat, len: nat, pkt: nat, end: nat, q: nat)
    requires bufsz > 0 && wsz > 0 && FlShape(fl, bufsz) && fl.pidx == Slot(p, |fl.bufs|)
    requires BufsFor(len, bufsz) <= |fl.bufs| && PacketAt(cs, p, len, bufsz, pkt) && |cs| <= end
    requires CleanFrom(fl, bufsz, p, end) && LoadedFrom(fl, cs, p) && p <= q < p + BufsFor(len, bufsz)
    ensures Unread(Claim(fl, bufsz, len, Slot(pkt + 1, wsz)).bufs[Slot(q, |fl.bufs|)], cs[q], 0, wsz)
  {
    hide BufsFor, Loaded, Unread, Clean, Claimed, ChunkOf, Claim;
    ClaimAt(fl, bufsz, len, Slot(pkt + 1, wsz), p, q);
    ClaimUnread(fl.bufs[Slot(q, |fl.bufs|)], cs[q], q - p, len, bufsz, pkt, wsz);
  }

  /** The driver takes over the next packet. */
  lemma {:induction false} ClaimOk(fl: FreeList, bufsz: nat, cs: seq<Chunk>, wsz: nat,
                                   r0: nat, read: nat, off: nat, p: nat, len: nat, pkt: nat)
    requires bufsz > 0 && FlShape(fl, bufsz) && FlOk(fl, bufsz, cs, wsz, r0, read, off, p)
    requires PacketAt(cs, p, len, bufsz, pkt)
    ensures BufsFor(len, bufsz) <= |fl.bufs| && !ClaimsUsed(fl, bufsz, len)
    ensures FlOk(Claim(fl, bufsz, len, Slot(pkt + 1, wsz)), bufsz, cs, wsz, r0, read, off, p + BufsFor(len, bufsz))
  {
    hide BufsFor, Loaded, Unread, Clean, Claimed, ChunkOf;
    var sz, nb := |fl.bufs|, BufsFor(len, bufsz);
    var fl' := Claim(fl, bufsz, len, Slot(pkt + 1, wsz));
    ClaimsClean(fl, bufsz, cs, wsz, r0, read, off, p, len);
    SlotIncr(p, nb, sz);
    forall q | p <= q < p + nb
      ensures Unread(fl'.bufs[Slot(q, sz)], cs[q], 0, wsz)
    {
      ClaimTakes(fl, bufsz, cs, wsz, p, len, pkt, r0 + sz, q);
    }
    forall q | read <= q < p || p + nb <= q < r0 + sz
      ensures fl'.bufs[Slot(q, sz)] == fl.bufs[Slot(q, sz)]
    {
      ClaimAt(fl, bufsz, len, Slot(pkt + 1, wsz), p, q);
    }
  }

  /** Chunk `c` of a packet of `nb` buffers, as `PktChunksAre` describes it. */
  predicate ChunkOf(ch: Chunk, c: nat, nb: nat, len: nat, bufsz: nat, pkt: nat)
    requires bufsz > 0
  {
    && ch.pkt == pkt && ch.sop == (c == 0) && ch.eop == (c == nb - 1)
    && |ch.bytes| == (if c < nb - 1 then bufsz
                      else if len == 0 then 0 else if len % bufsz != 0 then len % bufsz else bufsz)
  }

  /* ---- what the hardware does to the free list ---- */

  /** The hardware writes chunk `c` of a packet into the `c`-th buffer from slot `at` on. */
  function Deliver(fl: FreeList, at: nat, added: seq<Chunk>): (fl': FreeList)
    requires at < |fl.bufs|
    requires forall c, s :: 0 <= c < |added| && 0 <= s < |fl.bufs| ==> |added[c].bytes| <= |fl.bufs[s].page|
    ensures |fl'.bufs| == |fl.bufs|
  {
    fl.(bufs := seq(|fl.bufs|, s requires 0 <= s < |fl.bufs| =>
      var b, c := fl.bufs[s], Delta(s, at, |fl.bufs|);
      if c < |added| then b.(page := added[c].bytes + b.page[|added[c].bytes|..]) else b))
  }

  /** What delivery does to the buffer at position `q` of the window. */
  lemma {:induction false} DeliverAt(fl: FreeList, bufsz: nat, h: nat, added: seq<Chunk>, q: nat)
    requires FlShape(fl, bufsz) && forall c :: 0 <= c < |added| ==> |added[c].bytes| <= bufsz
    requires h <= q < h + |fl.bufs| || (q < h < q + |fl.bufs| && h + |added| <= q + |fl.bufs|)
    ensures var b, b' := fl.bufs[Slot(q, |fl.bufs|)], Deliver(fl, Slot(h, |fl.bufs|), added).bufs[Slot(q, |fl.bufs|)];
            && (h <= q < h + |added| ==> Loaded(b', added[q - h]))
            && (!(h <= q < h + |added|) ==> b' == b)
            && b' == b.(page := b'.page) && |b'.page| == |b.page|
  {
    WindowDelta(q, h, |fl.bufs|);
  }

  lemma {:induction false} DeliverShape(fl: FreeList, bufsz: nat, at: nat, added: seq<Chunk>)
    requires FlShape(fl, bufsz) && at < |fl.bufs| && forall c :: 0 <= c < |added| ==> |added[c].bytes| <= bufsz
    ensures FlShape(Deliver(fl, at, added), bufsz)
  {
  }

  lemma {:induction false} DeliverOk(fl: FreeList, bufsz: nat, cs: seq<Chunk>, wsz: nat,
                                     r0: nat, read: nat, off: nat, p: nat, added: seq<Chunk>)
    requires FlShape(fl, bufsz) && FlOk(fl, bufsz, cs, wsz, r0, read, off, p)
    requires forall c :: 0 <= c < |added| ==> |added[c].bytes| <= bufsz
    requires |cs| + |added| < r0 + |fl.bufs|
    ensures FlShape(Deliver(fl, Slot(|cs|, |fl.bufs|), added), bufsz)
    ensures FlOk(Deliver(fl, Slot(|cs|, |fl.bufs|), added), bufsz, cs + added, wsz, r0, read, off, p)
  {
    hide Loaded, Deliver, Unread;
    var sz, h := |fl.bufs|, |cs|;
    DeliverShape(fl, bufsz, Slot(h, sz), added);
    var fl' := Deliver(fl, Slot(h, sz), added);
    forall q | read <= q < r0 + sz
      ensures var b, b' := fl.bufs[Slot(q, sz)], fl'.bufs[Slot(q, sz)];
              && (h <= q < h + |added| ==> Loaded(b', (cs + added)[q]))
              && (q < h ==> b' == b)
              && (Clean(b, bufsz) ==> Clean(b', bufsz))
    {
      DeliverAt(fl, bufsz, h, added, q);
    }
    assert fl'.pidx == fl.pidx && fl'.pidxPend == fl.pidxPend && fl'.avail == fl.avail by {
      DeliverFields(fl, bufsz, Slot(h, sz), added);
    }
  }

  lemma {:induction false} DeliverFields(fl: FreeList, bufsz: nat, at: nat, added: seq<Chunk>)
    requires FlShape(fl, bufsz) && at < |fl.bufs| && forall c :: 0 <= c < |added| ==> |added[c].bytes| <= bufsz
    ensures var fl' := Deliver(fl, at, added);
            fl'.pidx == fl.pidx && fl'.pidxPend == fl.pidxPend && fl'.avail == fl.avail
  {
  }

  /* ---- which completions are released ---- */

  lemma {:induction false} LastEopIs(fl: FreeList, bufsz: nat, cs: seq<Chunk>, wsz: nat,
                                     r0: nat, read: nat, off: nat, p: nat, n: nat)
    requires FlOk(fl, bufsz, cs, wsz, r0, read, off, p) && n <= p - read
    ensures n <= |fl.bufs| && fl.pidxPend < |fl.bufs|
    ensures LastEop(fl, n, Slot(Released(cs, read), wsz)) == Slot(Released(cs, read + n), wsz)
  {
    if n > 0 {
      AheadOfRead(fl, cs, r0, read, off, p, n - 1);
      var q := read + n - 1;
      assert Unread(fl.bufs[Slot(q, |fl.bufs|)], cs[q], if q == read then off else 0, wsz);
      LastEopIs(fl, bufsz, cs, wsz, r0, read, off, p, n - 1);
    }
  }

  /* ---- the completion ring ---- */

  /** The entries the hardware writes in default mode. */
  function CmplLog(pkts: seq<seq<bv8>>): (log: seq<Cmpl>)
    ensures |log| == |pkts|
  {
    seq(|pkts|, k requires 0 <= k < |pkts| => Cmpl(false, false, true, |pkts[k]|))
  }

  /** The consumer stands at entry `n`. */
  ghost predicate CrOk(cr: CmplRing, pkts: seq<seq<bv8>>, n: nat)
  {
    && Holds(cr.mem, CmplLog(pkts))
    && n <= |pkts| <= n + |cr.mem|
    && cr.cidx == cr.cur == Slot(n, |cr.mem|)
    && cr.color == Phase(n, |cr.mem|)
  }

  lemma {:induction false} NextCmplOk(cr: CmplRing, pkts: seq<seq<bv8>>, n: nat)
    requires CrOk(cr, pkts, n) && n < |pkts|
    ensures CrOk(NextCmpl(cr), pkts, n + 1)
    ensures Incr(cr.cidx, 1, |cr.mem|) == Slot(n + 1, |cr.mem|)
  {
    PhaseAdvance(n, |cr.mem|);
    SlotIncr(n, 1, |cr.mem|);
  }
}
