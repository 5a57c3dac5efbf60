/** The receive side of a queue (streaming card to host, default mode) as a state machine
    on values: libqdma/qdma_st_c2h.c.

    `ReceiveQueue` (ReceiveQueue.dfy) is the same machine with the driver's mutable
    objects; its methods are proved to compute the functions of this module.
 */
module ReceiveSpec {
  import opened RingIndex
  import opened PhaseRing

  const EINVAL: int := -22

  function Min(a: nat, b: nat): nat { if a <= b then a else b }

  /** A receive buffer with its bookkeeping (`struct qdma_sw_sg`, `struct qdma_sdesc_info`). */
  datatype Buf = Buf(page: seq<bv8>, len: nat, offset: nat,
                     valid: bool, sop: bool, eop: bool, cidx: nat)

  /** The free list: the ring of buffers lent to the hardware. */
  datatype FreeList = FreeList(bufs: seq<Buf>, avail: int, pidx: nat, pidxPend: nat)

  /** What the hardware reports about one packet. */
  datatype Cmpl = Cmpl(format: bool, err: bool, descUsed: bool, len: nat)

  /** The completion ring as its consumer sees it. */
  datatype CmplRing = CmplRing(mem: seq<Entry<Cmpl>>, cidx: nat, color: bool, cur: nat)

  /** One entry of a read request's scatter list: a window of a page. */
  datatype Window = Window(offset: nat, len: nat)

  /** A read request with its control block and the pages it fills. */
  datatype Read = Read(id: nat, async: bool, sg: seq<Window>, mem: seq<seq<bv8>>, count: nat,
                       left: int, sgIdx: nat, sgOff: nat)

  datatype ReadDone = ReadDone(id: nat, status: int)

  datatype Rx = Rx(bufsz: nat, uddEn: bool, fl: FreeList, cr: CmplRing,
                   pktDlen: int, uddCnt: nat, wrbPend: nat, err: bool, warned: bool,
                   pend: seq<Read>, done: seq<ReadDone>, regPidx: nat, regCidx: nat)

  /* ---- what the code relies on ---- */

  predicate FlShape(fl: FreeList, bufsz: nat)
  {
    && fl.pidx < |fl.bufs| && fl.pidxPend < |fl.bufs|
    && (forall s :: 0 <= s < |fl.bufs| ==> fl.bufs[s].len <= bufsz == |fl.bufs[s].page|)
  }

  predicate CrShape(cr: CmplRing, bufsz: nat, bufs: nat)
    requires bufsz > 0
  {
    && cr.cidx == cr.cur < |cr.mem|
    && (forall s :: 0 <= s < |cr.mem| ==> BufsFor(cr.mem[s].val.len, bufsz) <= bufs)
  }

  /** The target cursor points into the list, and every window lies in its page. */
  predicate ReadShape(rd: Read)
  {
    && |rd.mem| == |rd.sg| && rd.sgIdx <= |rd.sg|
    && (forall j :: 0 <= j < |rd.sg| ==> rd.sg[j].offset + rd.sg[j].len <= |rd.mem[j]|)
    && (rd.sgIdx < |rd.sg| ==> rd.sgOff <= rd.sg[rd.sgIdx].len)
  }

  predicate Shape(rx: Rx)
  {
    && rx.bufsz > 0
    && FlShape(rx.fl, rx.bufsz)
    && CrShape(rx.cr, rx.bufsz, |rx.fl.bufs|)
    && (forall i :: 0 <= i < |rx.pend| ==> ReadShape(rx.pend[i]))
  }

  /* ---- copying ---- */

  /** Where the copy loops stand: source buffer and offset, target entry and offset. */
  datatype Cursor = Cursor(i: nat, foff: nat, j: nat, toff: nat, mem: seq<seq<bv8>>)

  predicate CursorOk(src: seq<seq<bv8>>, sg: seq<Window>, c: Cursor)
  {
    && c.i <= |src|
    && (c.i < |src| ==> c.foff <= |src[c.i]|)
    && (c.i == |src| ==> c.foff == 0)
    && c.j <= |sg|
    && (c.j < |sg| ==> c.toff <= sg[c.j].len)
    && |c.mem| == |sg|
    && (forall j :: 0 <= j < |sg| ==> sg[j].offset + sg[j].len <= |c.mem[j]|)
  }

  /** `memcpy` into a page. */
  function Patch(page: seq<bv8>, at: nat, data: seq<bv8>): (r: seq<bv8>)
    requires at + |data| <= |page|
    ensures |r| == |page|
  {
    page[..at] + data + page[at + |data|..]
  }

  /** One piece is copied: as much as the source buffer has and the target entry takes. */
  function CopyPiece(src: seq<seq<bv8>>, sg: seq<Window>, c: Cursor): (c': Cursor)
    requires CursorOk(src, sg, c) && c.i < |src| && c.j < |sg|
    ensures CursorOk(src, sg, c')
  {
    var n := Min(|src[c.i]| - c.foff, sg[c.j].len - c.toff);
    var mem := c.mem[c.j := Patch(c.mem[c.j], sg[c.j].offset + c.toff, src[c.i][c.foff..c.foff + n])];
    if c.toff + n == sg[c.j].len
    then Cursor(c.i, c.foff + n, c.j + 1, 0, mem)
    else Cursor(c.i, c.foff + n, c.j, c.toff + n, mem)
  }

  /** The nested loops of `descq_st_c2h_read`, run to their end. */
  function Copy(src: seq<seq<bv8>>, sg: seq<Window>, c: Cursor): (c': Cursor)
    requires CursorOk(src, sg, c)
    ensures CursorOk(src, sg, c')
    decreases |src| - c.i, (if c.i < |src| then |src[c.i]| - c.foff else 0) + (|sg| - c.j)
  {
    if c.i == |src| then c
    else if c.foff == |src[c.i]| && (c.foff > 0 || c.j < |sg|) then
      Copy(src, sg, c.(i := c.i + 1, foff := 0))
    else if c.j == |sg| then c
    else Copy(src, sg, CopyPiece(src, sg, c))
  }

  /** What a read can take from: the buffers between `pidxPend` and `pidx`, each from the
      START of its page (the offset of a partly read buffer is not added). */
  function Sources(fl: FreeList, bufsz: nat): (src: seq<seq<bv8>>)
    requires FlShape(fl, bufsz)
    ensures |src| == Delta(fl.pidx, fl.pidxPend, |fl.bufs|)
  {
    var n := |fl.bufs|;
    seq(Delta(fl.pidx, fl.pidxPend, n), q requires 0 <= q < Delta(fl.pidx, fl.pidxPend, n) =>
      var b := fl.bufs[Incr(fl.pidxPend, q, n)];
      b.page[..b.len])
  }

  function Bytes(src: seq<seq<bv8>>): seq<bv8>
  {
    if src == [] then [] else Bytes(src[..|src| - 1]) + src[|src| - 1]
  }

  /* ---- the free list ---- */

  /** A buffer handed back to the hardware. */
  function Recycled(b: Buf, bufsz: nat): Buf
  {
    b.(len := bufsz, offset := 0, valid := false, sop := false, eop := false)
  }

  /** `qdma_flq_refill` with recycling: `cnt` buffers from slot `idx` on. */
  function Refill(fl: FreeList, bufsz: nat, idx: nat, cnt: nat): (fl': FreeList)
    requires FlShape(fl, bufsz) && idx < |fl.bufs| && cnt <= |fl.bufs|
    ensures FlShape(fl', bufsz) && |fl'.bufs| == |fl.bufs|
    ensures fl'.pidx == fl.pidx && fl'.pidxPend == fl.pidxPend && fl'.avail == fl.avail + cnt
  {
    var bufs := seq(|fl.bufs|, s requires 0 <= s < |fl.bufs| =>
      if Delta(s, idx, |fl.bufs|) < cnt then Recycled(fl.bufs[s], bufsz) else fl.bufs[s]);
    fl.(bufs := bufs, avail := fl.avail + cnt)
  }

  /** `n` buffers are read to their end and `foff` bytes of the next one. */
  function Consume(fl: FreeList, bufsz: nat, n: nat, foff: nat): (fl': FreeList)
    requires FlShape(fl, bufsz) && n <= Delta(fl.pidx, fl.pidxPend, |fl.bufs|)
    requires foff > 0 ==> n < |fl.bufs| && foff <= fl.bufs[Incr(fl.pidxPend, n, |fl.bufs|)].len
    ensures FlShape(fl', bufsz) && |fl'.bufs| == |fl.bufs|
    ensures fl'.pidx == fl.pidx && fl'.pidxPend == Incr(fl.pidxPend, n, |fl.bufs|) && fl'.avail == fl.avail
  {
    var at := Incr(fl.pidxPend, n, |fl.bufs|);
    var bufs := if foff > 0
      then fl.bufs[at := fl.bufs[at].(offset := fl.bufs[at].offset + foff, len := fl.bufs[at].len - foff)]
      else fl.bufs;
    fl.(bufs := bufs, pidxPend := at)
  }

  /** The completion index stored with the last end-of-packet among the next `n` buffers. */
  function LastEop(fl: FreeList, n: nat, was: nat): nat
    requires fl.pidxPend < |fl.bufs| && n <= |fl.bufs|
  {
    if n == 0 then was
    else
      var b := fl.bufs[Incr(fl.pidxPend, n - 1, |fl.bufs|)];
      if b.eop then b.cidx else LastEop(fl, n - 1, was)
  }

  /** Descriptors a packet of `len` bytes takes; an empty one takes one as well. */
  function BufsFor(len: nat, bufsz: nat): nat
    requires bufsz > 0
  {
    if len > 0 then (len + (bufsz - 1)) / bufsz else 1
  }

  /** The slot `c` places into a packet of `nb` buffers. */
  function Claimed(b: Buf, c: nat, nb: nat, len: nat, bufsz: nat, cidxNext: nat): Buf
    requires bufsz > 0
  {
    if c >= nb then b
    else b.(valid := true, cidx := cidxNext, sop := b.sop || c == 0, eop := b.eop || c == nb - 1,
            len := if c < nb - 1 then b.len
                   else if len == 0 then 0
                   else if len % bufsz != 0 then len % bufsz else b.len)
  }

  /** `rcv_pkt`: the packet claims the buffers from `pidx` on. */
  function Claim(fl: FreeList, bufsz: nat, len: nat, cidxNext: nat): (fl': FreeList)
    requires bufsz > 0 && FlShape(fl, bufsz) && BufsFor(len, bufsz) <= |fl.bufs|
    ensures FlShape(fl', bufsz) && |fl'.bufs| == |fl.bufs|
  {
    var nb, n := BufsFor(len, bufsz), |fl.bufs|;
    var bufs := seq(n, s requires 0 <= s < n =>
      Claimed(fl.bufs[s], Delta(s, fl.pidx, n), nb, len, bufsz, cidxNext));
    fl.(bufs := bufs, avail := fl.avail - nb, pidx := Incr(fl.pidx, nb, n))
  }

  /** The condition of the `WARN_ON` in `rcv_pkt`. */
  predicate ClaimsUsed(fl: FreeList, bufsz: nat, len: nat)
    requires bufsz > 0 && fl.pidx < |fl.bufs|
  {
    exists s :: 0 <= s < |fl.bufs| && Delta(s, fl.pidx, |fl.bufs|) < BufsFor(len, bufsz) && fl.bufs[s].valid
  }

  /* ---- reading ---- */

  /** The result of a read: the queue, the request, and the return value. */
  datatype ReadResult = ReadResult(rx: Rx, rd: Read, rv: int)

  /** `descq_st_c2h_read` up to, but without, the refill and the register updates. */
  function ReadCore(rx: Rx, rd: Read): (r: ReadResult)
    requires Shape(rx) && ReadShape(rd)
    ensures Shape(r.rx) && ReadShape(r.rd)
    ensures |r.rx.fl.bufs| == |rx.fl.bufs|
    ensures Taken(rx, rd) <= |rx.fl.bufs|
  {
    var src := Sources(rx.fl, rx.bufsz);
    if src == [] then ReadResult(rx, rd, 0)
    else if rd.sgIdx > 0 && rd.sgIdx >= |rd.sg| then ReadResult(rx, rd, EINVAL)
    else
      var c := Copy(src, rd.sg, Cursor(0, 0, rd.sgIdx, rd.sgOff, rd.mem));
      var copied := |Bytes(src[..c.i])| + c.foff;
      var rd' := rd.(mem := c.mem, sgIdx := c.j, sgOff := c.toff, left := rd.left - copied);
      ReadResult(rx.(fl := Consume(rx.fl, rx.bufsz, c.i, c.foff),
                     wrbPend := LastEop(rx.fl, c.i, rx.wrbPend),
                     pktDlen := rx.pktDlen - copied), rd', copied)
  }

  /** Number of buffers a read takes to their end. */
  function Taken(rx: Rx, rd: Read): nat
    requires Shape(rx) && ReadShape(rd)
  {
    var src := Sources(rx.fl, rx.bufsz);
    if src == [] || (rd.sgIdx > 0 && rd.sgIdx >= |rd.sg|) then 0
    else Copy(src, rd.sg, Cursor(0, 0, rd.sgIdx, rd.sgOff, rd.mem)).i
  }

  /** `descq_st_c2h_read` with refill and register updates. */
  function ReadNow(rx: Rx, rd: Read): (r: ReadResult)
    requires Shape(rx) && ReadShape(rd)
    ensures Shape(r.rx) && ReadShape(r.rd)
  {
    var r := ReadCore(rx, rd);
    if Sources(rx.fl, rx.bufsz) == [] || r.rv < 0 then r
    else
      var fl := Refill(r.rx.fl, rx.bufsz, rx.fl.pidxPend, Taken(rx, rd));
      r.(rx := r.rx.(fl := fl, regPidx := Decr(fl.pidxPend, 1, |fl.bufs|), regCidx := r.rx.wrbPend))
  }

  /** `qdma_c2h_packets_proc_dflt`: serve the waiting reads in order. */
  function ServeReads(rx: Rx): (rx': Rx)
    requires Shape(rx)
    ensures Shape(rx') && |rx'.fl.bufs| == |rx.fl.bufs|
    decreases |rx.pend|
  {
    if rx.pend == [] then rx
    else
      var rd := rx.pend[0];
      if rd.left == 0 then Finish(rx, rd, 0)
      else
        var r := ReadCore(rx, rd);
        if r.rv < 0 then Finish(r.rx, r.rd, r.rv)
        else if r.rd.left == 0 then ServeReads(Finish(r.rx, r.rd, 0))
        else r.rx.(pend := [r.rd] + r.rx.pend[1..])
  }

  lemma {:induction false} ServeEnd(rx: Rx)
    requires Shape(rx) && rx.pend == []
    ensures ServeReads(rx) == rx
  {
  }

  /** One turn of the loop over the waiting reads. */
  lemma {:induction false} ServeTurn(rx: Rx)
    requires Shape(rx) && rx.pend != []
    ensures ReadShape(rx.pend[0])
    ensures var rd, r := rx.pend[0], ReadCore(rx, rx.pend[0]);
            && r.rx.pend == rx.pend
            && ServeReads(rx) ==
               if rd.left == 0 then Finish(rx, rd, 0)
               else if r.rv < 0 then Finish(r.rx, r.rd, r.rv)
               else if r.rd.left == 0 then ServeReads(Finish(r.rx, r.rd, 0))
               else r.rx.(pend := [r.rd] + r.rx.pend[1..])
  {
    hide Copy, Sources, Bytes, FlShape, CrShape, Consume;
  }

  /** `qdma_sgt_req_done`: the status a caller sees.  A read with a callback is compared
      against an offset that no read ever advances. */
  function ReadStatus(rd: Read, error: int): int
  {
    if rd.async && rd.count != 0 then EINVAL else error
  }

  /** The oldest waiting read ends. */
  function Finish(rx: Rx, rd: Read, status: int): (rx': Rx)
    requires Shape(rx) && rx.pend != []
    ensures Shape(rx')
  {
    rx.(pend := rx.pend[1..], done := rx.done + [ReadDone(rd.id, ReadStatus(rd, status))])
  }

  /* ---- completions ---- */

  /** `wrb_next` */
  function NextCmpl(cr: CmplRing): (cr': CmplRing)
    requires cr.cidx == cr.cur < |cr.mem|
    ensures cr'.cidx == cr'.cur < |cr'.mem|
  {
    if cr.cidx + 1 == |cr.mem| then cr.(cidx := 0, color := !cr.color, cur := 0)
    else cr.(cidx := cr.cidx + 1, cur := cr.cur + 1)
  }

  /** The cases in which `parse_cmpl_entry` halts the queue. */
  predicate BadCmpl(c: Cmpl, uddEn: bool)
  {
    c.err || c.format || (!c.descUsed && !uddEn)
  }

  /** The outcome of the completion loop. */
  datatype Collected = Collected(rx: Rx, cnt: nat, halted: bool)

  /** The loop of `descq_process_completion_st_c2h`; it runs ahead with `fl.pidx`. */
  function Collect(rx: Rx, budget: nat): (r: Collected)
    requires Shape(rx)
    ensures Shape(r.rx) && r.rx.pend == rx.pend
    ensures |r.rx.fl.bufs| == |rx.fl.bufs| && r.rx.fl.pidxPend == rx.fl.pidxPend
    decreases budget
  {
    if budget == 0 then Collected(rx, 0, false)
    else
      var e := rx.cr.mem[rx.cr.cur];
      if BadCmpl(e.val, rx.uddEn) then Collected(rx.(err := true), 0, true)
      else if e.color != rx.cr.color then Collected(rx, 0, false)
      else
        var r := Collect(TakeCmpl(rx, e.val), budget - 1);
        r.(cnt := r.cnt + 1)
  }

  /** One completion is processed. */
  function TakeCmpl(rx: Rx, c: Cmpl): (rx': Rx)
    requires Shape(rx) && BufsFor(c.len, rx.bufsz) <= |rx.fl.bufs|
    ensures Shape(rx') && rx'.pend == rx.pend
    ensures |rx'.fl.bufs| == |rx.fl.bufs| && rx'.fl.pidxPend == rx.fl.pidxPend
  {
    if c.descUsed then
      rx.(fl := Claim(rx.fl, rx.bufsz, c.len, Incr(rx.cr.cidx, 1, |rx.cr.mem|)),
          warned := rx.warned || ClaimsUsed(rx.fl, rx.bufsz, c.len),
          pktDlen := rx.pktDlen + c.len,
          uddCnt := if rx.uddEn then rx.uddCnt + 1 else rx.uddCnt,
          cr := NextCmpl(rx.cr))
    else
      rx.(uddCnt := rx.uddCnt + 1, cr := NextCmpl(rx.cr))
  }

  /** How many completions a service call may process. */
  function Allowance(budget: nat, waiting: nat): nat
  {
    if budget == 0 || budget > waiting then waiting else budget
  }

  /** `descq_process_completion_st_c2h`: the hardware reports `status` as its index. */
  function ServiceRx(rx: Rx, status: nat, budget: nat): (rx': Rx)
    requires Shape(rx) && status < |rx.cr.mem|
    ensures Shape(rx')
  {
    var waiting := Delta(status, rx.cr.cidx, |rx.cr.mem|);
    if rx.err || rx.pend == [] || waiting == 0 then rx
    else
      var r := Collect(rx, Allowance(budget, waiting));
      if r.halted then r.rx.(fl := r.rx.fl.(pidx := rx.fl.pidx))
      else if r.cnt == 0 then r.rx
      else
        var t := ServeReads(r.rx);
        var cnt := Delta(t.fl.pidxPend, rx.fl.pidxPend, |t.fl.bufs|);
        var u := if cnt == 0 then t
                 else
                   var fl := Refill(t.fl, t.bufsz, rx.fl.pidxPend, cnt);
                   t.(fl := fl, regPidx := Decr(fl.pidxPend, 1, |fl.bufs|));
        u.(regCidx := u.wrbPend)
  }

  /** The second half of `qdma_request_submit_st_c2h`: wait for more data. */
  function Enqueue(rx: Rx, rd: Read): (rx': Rx)
    requires Shape(rx) && ReadShape(rd)
    ensures Shape(rx')
  {
    rx.(pend := rx.pend + [rd], regCidx := rx.wrbPend)
  }

  /** A started queue: `pages` are lent to the hardware, and the completion ring is zero. */
  function Configured(pages: seq<seq<bv8>>, bufsz: nat, wsz: nat, uddEn: bool): Rx
    requires pages != []
  {
    Rx(bufsz, uddEn,
       FreeList(seq(|pages|, s requires 0 <= s < |pages| => Buf(pages[s], bufsz, 0, false, false, false, 0)),
                |pages| - 1, 0, 0),
       CmplRing(seq(wsz, s => Entry(false, Cmpl(false, false, false, 0))), 0, true, 0),
       0, 0, 0, false, false, [], [], |pages| - 1, 0)
  }
}
