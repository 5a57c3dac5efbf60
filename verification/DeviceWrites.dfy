/** Requests of the character device (drv/cdev.c) through a transmit queue: from the user's
    buffer to the descriptors, and back for reads of a memory-mapped queue. */
module DeviceWrites {
  import opened ScatterGather
  import opened Segmentation
  import opened TransmitSpec
  import opened TransmitTiling
  import opened TransmitRuns
  import opened TransmitOrder
  import opened TransmitContent

  /** Bytes that the first `m` descriptors transfer. */
  function LenBefore(own: seq<Desc>, m: nat): nat
    requires m <= |own|
  {
    if m == 0 then 0 else LenBefore(own, m - 1) + own[m - 1].len
  }

  /** The side of a descriptor that is in memory, and the side that is on the card. */
  function HostSide(kind: Kind, c2h: bool, d: Desc): nat
  {
    if kind.MM? && c2h then d.dst else d.src
  }

  function CardSide(c2h: bool, d: Desc): nat
  {
    if c2h then d.src else d.dst
  }

  /** Entries that fit are posted one descriptor each. */
  lemma {:induction false} PieceOfEntry(kind: Kind, sgl: seq<Sg>, card: nat, e: nat)
    requires OneCutEach(kind, sgl) && e < |sgl|
    ensures |Intended(kind, sgl, card)| == |sgl|
    ensures Intended(kind, sgl, card)[e] == Piece(sgl[e].addr, card + TotalLen(sgl[..e]), sgl[e].len)
  {
    hide Cuts, CutsLen, TotalLen;
    CutsOnePerEntry(kind, sgl);
    CutsLenOnePerEntry(Cuts(kind, sgl)[..e], sgl[..e]);
  }

  /** What descriptors that carry the pieces transfer before descriptor `m`. */
  lemma {:induction false} CarriedBefore(kind: Kind, c2h: bool, own: seq<Desc>, sgl: seq<Sg>, card: nat, m: nat)
    requires OneCutEach(kind, sgl) && |own| == |Intended(kind, sgl, card)| == |sgl| && m <= |own|
    requires forall k :: 0 <= k < |own| ==> Carries(kind, c2h, own[k], Intended(kind, sgl, card)[k])
    ensures LenBefore(own, m) == TotalLen(sgl[..m])
  {
    hide Intended, TotalLen, OneCutEach;
    if m == 0 {
      NoLen();
      assert sgl[..0] == [];
    } else {
      CarriedBefore(kind, c2h, own, sgl, card, m - 1);
      PieceOfEntry(kind, sgl, card, m - 1);
      TotalLenStep(sgl, m - 1);
    }
  }

  lemma {:induction false} CdevEntries(kind: Kind, id: nat, buf: nat, len: nat, pages: seq<nat>, pos: nat, bus: nat -> nat)
    requires 0 < len < U32 && |pages| == PagesNr(buf, len) < U16
    ensures var r := BuildRequest(id, Segments(buf, len, pages), len, pos, bus);
            OneCutEach(kind, r.sgl) && NonEmpty(r.sgl)
  {
    hide PagesNr, BuildRequest;
    RequestIsWellFormed(kind, id, buf, len, pages, pos, bus);
    NonEmptyEntries(id, buf, len, pages, pos, bus);
  }

  lemma {:induction false} NonEmptyEntries(id: nat, buf: nat, len: nat, pages: seq<nat>, pos: nat, bus: nat -> nat)
    requires 0 < len < U32 && |pages| == PagesNr(buf, len) < U16
    ensures NonEmpty(BuildRequest(id, Segments(buf, len, pages), len, pos, bus).sgl)
  {
    hide PagesNr, Segments;
    var s := Segments(buf, len, pages);
    SegmentsTile(buf, len, pages);
    forall i | 0 <= i < |s| ensures 0 < s[i].len {
      TilesEntry(s, buf, i);
    }
  }

  /** MAIN RESULT from end to end.  In every run in which no posting call has stopped inside
      an entry: once a request of the character device is off the work list, descriptors
      were posted for it one a page, and byte `k` of the user's buffer is byte number `k` of
      what they transfer, from its own place in the page that holds it; on a memory-mapped
      queue it goes to, or comes from, the card address `pos + k`. */
  lemma {:induction false} BufferReachesTheRing(kind: Kind, c2h: bool, size: nat, steps: seq<Step>, i: nat,
                                                buf: nat, len: nat, pages: seq<nat>, pos: nat, bus: nat -> nat, k: nat)
    requires size > 0 && 0 < len < U32 && |pages| == PagesNr(buf, len) < U16 && k < len
    requires var y := Exec(kind, c2h, size, steps);
             && AllSound(kind, y.submitted) && !y.inside
             && i < |y.tx.lists.completed| + |y.tx.lists.pend| && i < |y.submitted|
             && y.submitted[i] == BuildRequest(i, Segments(buf, len, pages), len, pos, bus)
    ensures var own, e := OwnDescs(Exec(kind, c2h, size, steps).log, i), (buf + k) / PAGE_SIZE - buf / PAGE_SIZE;
            && |own| == |pages| && 0 <= e < |own|
            && LenBefore(own, e) <= k < LenBefore(own, e) + own[e].len
            && HostSide(kind, c2h, own[e]) + (k - LenBefore(own, e)) == bus(pages[e]) + (buf + k) % PAGE_SIZE
            && (kind.MM? ==> CardSide(c2h, own[e]) + (k - LenBefore(own, e)) == pos + k)
  {
    hide Exec, AllSound, Segments, BuildRequest, Intended, NonEmpty, OneCutEach, PagesNr, TotalLen;
    var y := Exec(kind, c2h, size, steps);
    var r := y.submitted[i];
    CdevEntries(kind, i, buf, len, pages, pos, bus);
    RequestNamesTheBuffer(i, buf, len, pages, pos, bus, k);
    RingCarriesTheTiling(kind, c2h, size, steps, i);
    var e := (buf + k) / PAGE_SIZE - buf / PAGE_SIZE;
    var own := OwnDescs(y.log, i);
    PieceOfEntry(kind, r.sgl, r.epAddr, e);
    CarriedBefore(kind, c2h, own, r.sgl, r.epAddr, e);
    TotalLenStep(r.sgl, e);
    assert Carries(kind, c2h, own[e], Intended(kind, r.sgl, r.epAddr)[e]);
  }
}
