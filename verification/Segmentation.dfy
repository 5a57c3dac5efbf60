/** How drv/cdev.c turns a user buffer into the scatter list of a request. */
module Segmentation {
  import opened ScatterGather
  import opened TransmitSpec
  import opened TransmitRuns

  const U16: nat := 0x1_0000
  const U64: nat := 0x1_0000_0000_0000_0000
  const EFAULT: int := -14
  const ENOMEM: int := -12

  /** One page of the buffer: `struct qdma_sw_sg` before it is mapped for DMA. */
  datatype UserSg = UserSg(page: nat, offset: nat, len: nat)

  /** The answer of `get_user_pages_fast`. */
  datatype Pin = PinError(code: int) | Pinned(pages: seq<nat>)

  datatype Mapping = Sgl(sgl: seq<UserSg>) | Failed(code: int)

  /** The page count as computed, in an `unsigned int`. */
  function PagesNr(buf: nat, len: nat): nat
  {
    if len == 0 then 1
    else ((buf + len + PAGE_SIZE - 1) - (buf - buf % PAGE_SIZE)) / PAGE_SIZE % U32
  }

  /** What the loop fills in, page after page.  The length is clipped to an `unsigned int`
      before the minimum is taken. */
  function Segments(buf: nat, len: nat, pages: seq<nat>): (s: seq<UserSg>)
    ensures |s| == |pages|
    decreases |pages|
  {
    if pages == [] then []
    else
      var offset := buf % PAGE_SIZE;
      var nbytes := Min(PAGE_SIZE - offset, len % U32);
      [UserSg(pages[0], offset, nbytes)] + Segments(buf + nbytes, len - nbytes, pages[1..])
  }

  predicate AdjacentDuplicate(pages: seq<nat>)
  {
    exists i :: 1 <= i < |pages| && pages[i - 1] == pages[i]
  }

  /** What mapping a buffer answers: the checks in the order in which they are made. */
  function Mapped(buf: nat, len: nat, sgMem: bool, pageMem: bool, pin: Pin): Mapping
  {
    if PagesNr(buf, len) == 0 then Failed(EINVAL)
    else if !sgMem || !pageMem then Failed(ENOMEM)
    else match pin
      case PinError(code) => Failed(code)
      case Pinned(pages) =>
        if |pages| != PagesNr(buf, len) || AdjacentDuplicate(pages) then Failed(EFAULT)
        else Sgl(Segments(buf, len, pages))
  }

  /** The check for a page that comes twice in a row. */
  method HasDuplicate(pages: seq<nat>) returns (found: bool)
    ensures found <==> AdjacentDuplicate(pages)
  {
    var i := 1;
    while i < |pages|
      invariant 1 <= i && forall k :: 1 <= k < Min(i, |pages|) ==> pages[k - 1] != pages[k]
    {
      if pages[i - 1] == pages[i] {
        return true;
      }
      i := i + 1;
    }
    return false;
  }

  /** The first page's segment and the rest. */
  lemma {:induction false} SegmentsFirst(buf: nat, len: nat, pages: seq<nat>, i: nat)
    requires i <= |pages|
    ensures i == |pages| ==> |Segments(buf, len, pages[i..])| == 0
    ensures i < |pages| ==>
              var nbytes := Min(PAGE_SIZE - buf % PAGE_SIZE, len % U32);
              Segments(buf, len, pages[i..]) ==
              [UserSg(pages[i], buf % PAGE_SIZE, nbytes)] + Segments(buf + nbytes, len - nbytes, pages[i + 1..])
  {
    if i < |pages| {
      assert pages[i..][1..] == pages[i + 1..];
    }
  }

  /** The loop that fills the list. */
  method FillSgl(buf: nat, len: nat, pages: seq<nat>) returns (sgl: seq<UserSg>)
    ensures sgl == Segments(buf, len, pages)
  {
    hide Segments;
    sgl := [];
    var at: nat, left: nat := buf, len;
    assert pages[0..] == pages;
    for i := 0 to |pages|
      invariant sgl + Segments(at, left, pages[i..]) == Segments(buf, len, pages)
    {
      var offset := at % PAGE_SIZE;
      var nbytes := Min(PAGE_SIZE - offset, left % U32);
      SegmentsFirst(at, left, pages, i);
      sgl := sgl + [UserSg(pages[i], offset, nbytes)];
      at, left := at + nbytes, left - nbytes;
    }
    SegmentsFirst(at, left, pages, |pages|);
  }

  /** `map_user_buf_to_sgl` for a buffer within the address space; `sgMem` and `pageMem`
      tell whether the two allocations succeed. */
  method MapUserBuf(buf: nat, len: nat, sgMem: bool, pageMem: bool, pin: Pin) returns (m: Mapping)
    requires buf + len + PAGE_SIZE <= U64
    requires pin.PinError? ==> pin.code < 0
    ensures m == Mapped(buf, len, sgMem, pageMem, pin)
  {
    hide Segments, PagesNr, AdjacentDuplicate;
    var pagesNr := PagesNr(buf, len);
    if pagesNr == 0 {
      return Failed(EINVAL);
    }
    if !sgMem {
      return Failed(ENOMEM);
    }
    if !pageMem {
      return Failed(ENOMEM);
    }
    if pin.PinError? {
      return Failed(pin.code);
    }
    if |pin.pages| != pagesNr {
      return Failed(EFAULT);
    }
    var duplicate := HasDuplicate(pin.pages);
    if duplicate {
      return Failed(EFAULT);
    }
    var sgl := FillSgl(buf, len, pin.pages);
    return Sgl(sgl);
  }

  /* ---- what the segments are ---- */

  function UserLen(s: seq<UserSg>): nat
  {
    if s == [] then 0 else s[0].len + UserLen(s[1..])
  }

  /** Every segment continues where the previous one ended and stays inside its page. */
  predicate TilesFrom(s: seq<UserSg>, buf: nat)
    decreases |s|
  {
    s == [] ||
    (&& s[0].offset == buf % PAGE_SIZE
     && 0 < s[0].len && s[0].offset + s[0].len <= PAGE_SIZE
     && TilesFrom(s[1..], buf + s[0].len))
  }

  /** The page count is exactly the number of pages that the buffer touches. */
  lemma {:induction false} PagesNrExact(buf: nat, len: nat)
    requires 0 < len < U32
    ensures PagesNr(buf, len) == (buf + len - 1) / PAGE_SIZE - buf / PAGE_SIZE + 1
    ensures PagesNr(buf, len) == (buf % PAGE_SIZE + len + PAGE_SIZE - 1) / PAGE_SIZE
  {
  }

  /** One page takes what is left of it, and the rest needs one page less. */
  lemma {:induction false} PagesNrStep(buf: nat, len: nat)
    requires 0 < len < U32
    ensures var nbytes := Min(PAGE_SIZE - buf % PAGE_SIZE, len);
            && PagesNr(buf, len) > 0
            && (nbytes == len ==> PagesNr(buf, len) == 1)
            && (nbytes < len ==> PagesNr(buf + nbytes, len - nbytes) == PagesNr(buf, len) - 1)
  {
    PagesNrExact(buf, len);
    var nbytes := Min(PAGE_SIZE - buf % PAGE_SIZE, len);
    if nbytes < len {
      PagesNrExact(buf + nbytes, len - nbytes);
    }
  }

  /** The segment of the first page, then the rest. */
  lemma {:induction false} SegmentsCons(buf: nat, len: nat, pages: seq<nat>)
    requires len < U32 && |pages| > 0
    ensures var nbytes := Min(PAGE_SIZE - buf % PAGE_SIZE, len);
            Segments(buf, len, pages) == [UserSg(pages[0], buf % PAGE_SIZE, nbytes)] + Segments(buf + nbytes, len - nbytes, pages[1..])
  {
  }

  /** MAIN RESULT on segmentation: with one page per page touched, the segments tile the
      buffer from its first to its last byte, are not empty and cross no page boundary. */
  lemma {:induction false} SegmentsTile(buf: nat, len: nat, pages: seq<nat>)
    requires 0 < len < U32 && |pages| == PagesNr(buf, len)
    ensures TilesFrom(Segments(buf, len, pages), buf)
    ensures UserLen(Segments(buf, len, pages)) == len
    decreases |pages|
  {
    hide PagesNr, Segments;
    PagesNrStep(buf, len);
    SegmentsCons(buf, len, pages);
    var nbytes := Min(PAGE_SIZE - buf % PAGE_SIZE, len);
    if nbytes == len {
      assert pages[1..] == [];
      assert |Segments(buf + nbytes, 0, pages[1..])| == 0;
    } else {
      SegmentsTile(buf + nbytes, len - nbytes, pages[1..]);
    }
  }

  /** Number of pages that the buffer touches; an empty one counts as one page. */
  function Touched(buf: nat, len: nat): nat
  {
    if len == 0 then 1 else (buf + len - 1) / PAGE_SIZE - buf / PAGE_SIZE + 1
  }

  /** The answer for a buffer within the address space.  It is mapped if and only if the
      pages it touches can be counted, memory can be had for them, and exactly they are
      pinned, no two in a row the same; otherwise the first obstacle is reported. */
  lemma {:induction false} MappedIff(buf: nat, len: nat, sgMem: bool, pageMem: bool, pin: Pin)
    requires pin.PinError? ==> pin.code < 0
    ensures var m, n := Mapped(buf, len, sgMem, pageMem, pin), Touched(buf, len) % U32;
            && (n == 0 ==> m == Failed(EINVAL))
            && (n > 0 && !(sgMem && pageMem) ==> m == Failed(ENOMEM))
            && (n > 0 && sgMem && pageMem && pin.PinError? ==> m == Failed(pin.code))
            && (n > 0 && sgMem && pageMem && pin.Pinned? ==>
                 if |pin.pages| != n || (exists i :: 0 < i < n && pin.pages[i - 1] == pin.pages[i])
                 then m == Failed(EFAULT)
                 else m.Sgl? && |m.sgl| == n
                      && (forall i :: 0 <= i < n ==> m.sgl[i].page == pin.pages[i])
                      && (0 < len < U32 ==> TilesFrom(m.sgl, buf) && UserLen(m.sgl) == len))
  {
    hide UserLen, TilesFrom;
    TouchedIs(buf, len);
    if pin.Pinned? {
      SegmentPages(buf, len, pin.pages);
      if 0 < len < U32 && |pin.pages| == PagesNr(buf, len) {
        SegmentsTile(buf, len, pin.pages);
      }
    }
  }

  lemma {:induction false} TouchedIs(buf: nat, len: nat)
    ensures PagesNr(buf, len) == Touched(buf, len) % U32
  {
  }

  lemma {:induction false} SegmentPages(buf: nat, len: nat, pages: seq<nat>)
    ensures forall i :: 0 <= i < |pages| ==> Segments(buf, len, pages)[i].page == pages[i]
    decreases |pages|
  {
    if pages != [] {
      var nbytes := Min(PAGE_SIZE - buf % PAGE_SIZE, len % U32);
      SegmentPages(buf + nbytes, len - nbytes, pages[1..]);
    }
  }

  /* ---- the request ---- */

  /** `sgl_map`: a page's bus address plus the offset. */
  function MapSgl(s: seq<UserSg>, bus: nat -> nat): (r: seq<Sg>)
    ensures |r| == |s|
  {
    seq(|s|, i requires 0 <= i < |s| => Sg(bus(s[i].page) + s[i].offset, s[i].len))
  }

  /** The request that `cdev_gen_read_write` submits: the entry count is an `unsigned
      short`, the byte count an `unsigned int`. */
  function BuildRequest(id: nat, s: seq<UserSg>, len: nat, pos: nat, bus: nat -> nat): Req
  {
    var sgcnt := |s| % U16;
    Req(id, MapSgl(s, bus)[..sgcnt], pos, len % U32, false, 0, 0)
  }

  lemma {:induction false} TilesEntry(s: seq<UserSg>, buf: nat, i: nat)
    requires TilesFrom(s, buf) && i < |s|
    ensures s[i].offset + s[i].len <= PAGE_SIZE
    ensures 0 < s[i].len <= PAGE_SIZE
    decreases |s|
  {
    if i > 0 {
      TilesEntry(s[1..], buf + s[0].len, i - 1);
    }
  }

  lemma {:induction false} MapSglLen(s: seq<UserSg>, bus: nat -> nat)
    ensures TotalLen(MapSgl(s, bus)) == UserLen(s)
  {
    if s != [] {
      assert MapSgl(s, bus)[1..] == MapSgl(s[1..], bus);
      MapSglLen(s[1..], bus);
    }
  }

  /** MAIN RESULT.  A non-empty request from drv/cdev.c meets what the posting engine needs,
      for memory-mapped and for streaming queues, if and only if its page count fits the
      16-bit entry count of a request. */
  lemma {:induction false} RequestIsWellFormed(kind: Kind, id: nat, buf: nat, len: nat, pages: seq<nat>,
                                               pos: nat, bus: nat -> nat)
    requires 0 < len < U32 && |pages| == PagesNr(buf, len)
    ensures WellFormed(kind, BuildRequest(id, Segments(buf, len, pages), len, pos, bus))
            <==> PagesNr(buf, len) < U16
  {
    hide Segments, PagesNr, TotalLen, UserLen;
    var s := Segments(buf, len, pages);
    var r, all := BuildRequest(id, s, len, pos, bus), MapSgl(s, bus);
    SegmentsTile(buf, len, pages);
    PagesNrStep(buf, len);
    MapSglLen(s, bus);
    forall i | 0 <= i < |all| ensures 0 < all[i].len <= PAGE_SIZE {
      TilesEntry(s, buf, i);
    }
    assert all[..|all|] == all;
    if |pages| >= U16 {
      TotalLenStrict(all, |s| % U16, |all|);
    }
  }

  /** Byte `k` of the buffer lies in the segment of the page that holds it. */
  lemma {:induction false} ByteInSegment(buf: nat, len: nat, pages: seq<nat>, k: nat)
    requires 0 < len < U32 && |pages| == PagesNr(buf, len) && k < len
    ensures var s, e := Segments(buf, len, pages), (buf + k) / PAGE_SIZE - buf / PAGE_SIZE;
            && 0 <= e < |s| && s[e].page == pages[e]
            && UserLen(s[..e]) <= k < UserLen(s[..e + 1])
            && s[e].offset + (k - UserLen(s[..e])) == (buf + k) % PAGE_SIZE
    decreases |pages|
  {
    hide PagesNr, Segments;
    PagesNrStep(buf, len);
    var nbytes := Min(PAGE_SIZE - buf % PAGE_SIZE, len);
    var s := Segments(buf, len, pages);
    SegmentsCons(buf, len, pages);
    UserLenFirst(s, 0);
    if k < nbytes {
      SamePage(buf, k);
    } else {
      var e := (buf + k) / PAGE_SIZE - buf / PAGE_SIZE;
      NextPage(buf, k);
      ByteInSegment(buf + nbytes, len - nbytes, pages[1..], k - nbytes);
      UserLenFirst(s, e - 1);
      UserLenFirst(s, e);
    }
  }

  lemma {:induction false} SamePage(buf: nat, k: nat)
    requires k < PAGE_SIZE - buf % PAGE_SIZE
    ensures (buf + k) / PAGE_SIZE == buf / PAGE_SIZE && (buf + k) % PAGE_SIZE == buf % PAGE_SIZE + k
  {
  }

  lemma {:induction false} NextPage(buf: nat, k: nat)
    requires k >= PAGE_SIZE - buf % PAGE_SIZE
    ensures (buf + (PAGE_SIZE - buf % PAGE_SIZE)) / PAGE_SIZE == buf / PAGE_SIZE + 1
    ensures (buf + k) / PAGE_SIZE > buf / PAGE_SIZE
  {
  }

  lemma {:induction false} UserLenFirst(s: seq<UserSg>, k: nat)
    requires k < |s|
    ensures UserLen(s[..k + 1]) == s[0].len + UserLen(s[1..][..k])
    ensures UserLen(s[..0]) == 0
  {
    assert s[..k + 1][1..] == s[1..][..k];
  }

  /** MAIN RESULT on where a request lies.  Byte `k` of the user's buffer is in exactly one
      entry of the request, the one for the page that holds it, at the byte's own place in
      that page and as byte number `k` of the list; the request counts all bytes and starts
      at the file position. */
  lemma {:induction false} RequestNamesTheBuffer(id: nat, buf: nat, len: nat, pages: seq<nat>, pos: nat, bus: nat -> nat, k: nat)
    requires 0 < len < U32 && |pages| == PagesNr(buf, len) < U16 && k < len
    ensures var r, e := BuildRequest(id, Segments(buf, len, pages), len, pos, bus), (buf + k) / PAGE_SIZE - buf / PAGE_SIZE;
            && r.id == id && r.count == len == TotalLen(r.sgl) && r.epAddr == pos && !r.async
            && |r.sgl| == |pages| && 0 <= e < |r.sgl|
            && TotalLen(r.sgl[..e]) <= k < TotalLen(r.sgl[..e + 1])
            && r.sgl[e].addr + (k - TotalLen(r.sgl[..e])) == bus(pages[e]) + (buf + k) % PAGE_SIZE
            && (forall e' :: 0 <= e' < |r.sgl| && TotalLen(r.sgl[..e']) <= k < TotalLen(r.sgl[..e' + 1]) ==> e' == e)
  {
    hide PagesNr, Segments, UserLen, TotalLen;
    var s, e := Segments(buf, len, pages), (buf + k) / PAGE_SIZE - buf / PAGE_SIZE;
    var all := MapSgl(s, bus);
    ByteInSegment(buf, len, pages, k);
    SegmentsTile(buf, len, pages);
    MapSglLen(s, bus);
    MapSglPrefix(s, bus, e);
    MapSglPrefix(s, bus, e + 1);
    assert all[..|all|] == all;
    forall e' | 0 <= e' < |all| && TotalLen(all[..e']) <= k < TotalLen(all[..e' + 1]) ensures e' == e {
      if e' < e {
        TotalLenMonotone(all, e' + 1, e);
      } else if e < e' {
        TotalLenMonotone(all, e + 1, e');
      }
    }
  }

  lemma {:induction false} MapSglPrefix(s: seq<UserSg>, bus: nat -> nat, e: nat)
    requires e <= |s|
    ensures TotalLen(MapSgl(s, bus)[..e]) == UserLen(s[..e])
  {
    MapSglLen(s[..e], bus);
    assert MapSgl(s, bus)[..e] == MapSgl(s[..e], bus);
  }

  /** A request for no bytes is one empty entry: streaming queues post it as an empty
      descriptor, memory-mapped queues refuse it. */
  lemma {:induction false} EmptyRequest(id: nat, buf: nat, page: nat, pos: nat, bus: nat -> nat, space: nat)
    requires space > 0
    ensures PagesNr(buf, 0) == 1
    ensures var r := BuildRequest(id, Segments(buf, 0, [page]), 0, pos, bus);
            && WellFormed(StH2c, r)
            && !WellFormed(MM, r)
            && Decide(MM, r.sgl, 0, space) == Fail(EIO)
            && Decide(StH2c, r.sgl, 0, space) == Take(0, [Cut(r.sgl[0].addr, 0)])
  {
    var s := Segments(buf, 0, [page]);
    var r := BuildRequest(id, s, 0, pos, bus);
    assert s[0].len == 0 && |r.sgl| == 1;
    assert r.sgl[0..] == r.sgl && r.sgl[1..] == [];
    assert Cuts(MM, r.sgl) == EntryCuts(MM, r.sgl[0].addr, 0) + Cuts(MM, r.sgl[1..]) == [];
    assert Cuts(StH2c, r.sgl) == EntryCuts(StH2c, r.sgl[0].addr, 0) + Cuts(StH2c, r.sgl[1..])
        == [Cut(r.sgl[0].addr, 0)];
    assert TotalLen(r.sgl) == 0 + TotalLen(r.sgl[1..]) == 0;
    assert EntryOk(StH2c, r.sgl[0], 1);
    assert !EntryOk(MM, r.sgl[0], 1);
  }
}
