/** The transmit side of a queue (memory-mapped in both directions, and streaming host to
    card) as a state machine on values: libqdma/qdma_descq.c, libqdma/qdma_thread.c.

    `DescQueue` (TransmitQueue.dfy) is the same machine with the driver's mutable objects;
    its methods are proved to compute the functions of this module.
 */
module TransmitSpec {
  import opened RingIndex
  import opened ScatterGather

  /** A request with the driver's control block: `descNr` and `offset` change. */
  datatype Req = Req(id: nat, sgl: seq<Sg>, epAddr: nat, count: nat, async: bool,
                     descNr: nat, offset: nat)

  /** One slot of the descriptor ring. */
  datatype Desc = Desc(src: nat, dst: nat, len: nat, valid: bool, sop: bool, eop: bool)

  datatype Ring = Ring(slots: seq<Desc>, avail: nat, pidx: nat, cidx: nat)

  datatype Completion = Completion(id: nat, status: int)

  datatype Lists = Lists(credit: nat, work: seq<Req>, pend: seq<Req>, completed: seq<Completion>)

  datatype Tx = Tx(kind: Kind, c2h: bool, ring: Ring, lists: Lists, pidxReg: nat)

  /** Indices are in range and `avail` accounts for every slot but one. */
  predicate Shape(ring: Ring)
  {
    && ring.pidx < |ring.slots|
    && ring.cidx < |ring.slots|
    && ring.avail + Delta(ring.pidx, ring.cidx, |ring.slots|) == |ring.slots| - 1
  }

  /* ---- what one call posts ---- */

  datatype Resume = From(idx: nat) | Refuse

  /** Where a call starts in the scatter list. */
  function ResumeAt(sgl: seq<Sg>, offset: nat): (r: Resume)
    ensures r.From? ==> r.idx <= |sgl|
  {
    if offset == 0 then From(0)
    else match Locate(sgl, offset)
      case At(i, _) => if i < |sgl| then From(i) else Refuse
      case OutOfRange => Refuse
  }

  /** The descriptors one call emits when `space` slots are free. */
  function Batch(kind: Kind, sgl: seq<Sg>, from: nat, space: nat): (b: seq<Cut>)
    requires from <= |sgl|
    ensures |b| <= space
  {
    var all := Cuts(kind, sgl[from..]);
    all[..Min(space, |all|)]
  }

  /** What a posting call does: nothing as the ring is full, fail, or take a batch. */
  datatype Verdict = NoSpace | Fail(code: int) | Take(from: nat, batch: seq<Cut>)

  function Decide(kind: Kind, sgl: seq<Sg>, offset: nat, space: nat): (v: Verdict)
    ensures v.Take? ==> v.from <= |sgl| && |v.batch| <= space
    ensures v.Fail? ==> v.code < 0
  {
    if space == 0 then NoSpace
    else match ResumeAt(sgl, offset)
      case Refuse => Fail(EINVAL)
      case From(i) =>
        var b := Batch(kind, sgl, i, space);
        if kind.MM? && b == [] then Fail(EIO) else Take(i, b)
  }

  /* ---- the ring ---- */

  function MmDesc(c2h: bool, cut: Cut, card: nat, first: bool, last: bool): Desc
  {
    if c2h then Desc(card, cut.addr, cut.len, true, first, last)
    else Desc(cut.addr, card, cut.len, true, first, last)
  }

  /** A streaming descriptor keeps the flags that its slot had before. */
  function StDesc(was: Desc, cut: Cut, eop: bool): Desc
  {
    was.(src := cut.addr, len := cut.len, eop := was.eop || eop)
  }

  /** The slot `c` places after `pidx`, once a memory-mapped batch is written: the start
      flag is on the first and the end flag on the last descriptor of the batch only. */
  function MmSlot(was: Desc, c: nat, c2h: bool, b: seq<Cut>, card: nat): Desc
  {
    if c < |b|
    then MmDesc(c2h, b[c], card + CutsLen(b[..c]), c == 0, c == |b| - 1)
    else was
  }

  /** The same for a streaming batch.  `lastFrom` counts the descriptors that come before
      those of the list's last entry. */
  function StSlot(was: Desc, c: nat, b: seq<Cut>, sop: bool, lastFrom: nat): Desc
  {
    var w := if c == 0 && sop then was.(sop := true) else was;
    if c < |b| then StDesc(w, b[c], lastFrom <= c) else w
  }

  function LastFrom(kind: Kind, sgl: seq<Sg>, from: nat): nat
    requires from <= |sgl|
  {
    if from == |sgl| then 0 else |Cuts(kind, sgl[from..|sgl| - 1])|
  }

  /** All slots after a batch. */
  function Written(kind: Kind, c2h: bool, ring: Ring, sgl: seq<Sg>, card: nat, offset: nat,
                   from: nat, b: seq<Cut>): (slots: seq<Desc>)
    requires Shape(ring) && from <= |sgl|
    ensures |slots| == |ring.slots|
  {
    seq(|ring.slots|, s requires 0 <= s < |ring.slots| =>
      var c := Delta(s, ring.pidx, |ring.slots|);
      if kind.MM? then MmSlot(ring.slots[s], c, c2h, b, card + offset)
      else StSlot(ring.slots[s], c, b, offset == 0, LastFrom(kind, sgl, from)))
  }

  /** The ring after `n` slots are taken. */
  function Advance(ring: Ring, slots: seq<Desc>, n: nat): (ring': Ring)
    requires Shape(ring) && n <= ring.avail && |slots| == |ring.slots|
    ensures Shape(ring')
  {
    ring.(slots := slots, avail := ring.avail - n, pidx := Incr(ring.pidx, n, |ring.slots|))
  }

  /* ---- the lists ---- */

  /** `n` descriptors with `bytes` bytes are posted for the request at position `k` of the
      work list; when its whole count is posted it moves to the end of the pending list. */
  function NotePosted(ls: Lists, k: nat, n: nat, bytes: nat): (ls': Lists)
    requires k < |ls.work|
    ensures ls'.credit == ls.credit && ls'.completed == ls.completed
    ensures |ls.work| - 1 <= |ls'.work| <= |ls.work|
  {
    var r := ls.work[k];
    var r' := r.(descNr := r.descNr + n, offset := (r.offset + bytes) % U32);
    if r'.offset == r.count
    then ls.(work := ls.work[..k] + ls.work[k + 1..], pend := ls.pend + [r'])
    else ls.(work := ls.work[k := r'])
  }

  /** `qdma_sgt_req_done`: the status a caller sees. */
  function Status(r: Req, error: int): int
  {
    if r.async && r.offset != r.count then EINVAL else error
  }

  function FinishWork(ls: Lists, k: nat, error: int): (ls': Lists)
    requires k < |ls.work|
    ensures |ls'.work| == |ls.work| - 1
  {
    ls.(work := ls.work[..k] + ls.work[k + 1..],
        completed := ls.completed + [Completion(ls.work[k].id, Status(ls.work[k], error))])
  }

  function FinishPend(ls: Lists): (ls': Lists)
    requires ls.pend != []
  {
    ls.(pend := ls.pend[1..],
        completed := ls.completed + [Completion(ls.pend[0].id, Status(ls.pend[0], 0))])
  }

  /** `req_update_pend`: hand `credit` descriptors to the pending requests in order. */
  function Distribute(ls: Lists, credit: nat): (ls': Lists)
    decreases |ls.pend|
  {
    if ls.pend == [] then ls.(credit := credit)
    else
      var h := ls.pend[0];
      if credit >= h.descNr then
        if credit == h.descNr then FinishPend(ls).(credit := 0)
        else Distribute(FinishPend(ls), credit - h.descNr)
      else
        ls.(pend := [h.(descNr := h.descNr - credit)] + ls.pend[1..], credit := 0)
  }

  /* ---- the queue ---- */

  /** `qdma_descq_proc_sgt_request` for the request at position `k` of the work list. */
  function Post(tx: Tx, k: nat): (res: (Tx, int))
    requires Shape(tx.ring) && k < |tx.lists.work|
    ensures Shape(res.0.ring) && |res.0.ring.slots| == |tx.ring.slots|
    ensures res.0.kind == tx.kind && res.0.c2h == tx.c2h
    ensures |tx.lists.work| - 1 <= |res.0.lists.work| <= |tx.lists.work|
    ensures res.1 < 0 ==> res.0 == tx
  {
    var r := tx.lists.work[k];
    match Decide(tx.kind, r.sgl, r.offset, tx.ring.avail)
    case NoSpace => (tx, 0)
    case Fail(code) => (tx, code)
    case Take(from, b) =>
      var slots := Written(tx.kind, tx.c2h, tx.ring, r.sgl, r.epAddr, r.offset, from, b);
      var ring := Advance(tx.ring, slots, |b|);
      (tx.(ring := ring, lists := NotePosted(tx.lists, k, |b|, CutsLen(b)),
           pidxReg := if b == [] then tx.pidxReg else ring.pidx), 0)
  }

  /** `qdma_thread_wrk_proc` from position `k` of the work list on. */
  function Worker(tx: Tx, k: nat): (tx': Tx)
    requires Shape(tx.ring) && k <= |tx.lists.work|
    ensures Shape(tx'.ring) && |tx'.ring.slots| == |tx.ring.slots|
    ensures tx'.kind == tx.kind && tx'.c2h == tx.c2h
    decreases |tx.lists.work| - k
  {
    if k == |tx.lists.work| then tx
    else
      var (t1, rv) := Post(tx, k);
      var t2 := if rv < 0 then t1.(lists := FinishWork(t1.lists, k, rv)) else t1;
      if t2.ring.avail == 0 then t2
      else Worker(t2, if |t2.lists.work| < |tx.lists.work| then k else k + 1)
  }

  /** The hardware consumer index is circularly within [cidx, pidx]. */
  predicate HwIndexOk(ring: Ring, cidxHw: nat)
    requires Shape(ring)
  {
    cidxHw < |ring.slots| &&
    Delta(cidxHw, ring.cidx, |ring.slots|) <= Delta(ring.pidx, ring.cidx, |ring.slots|)
  }

  /** `descq_wb_credit` */
  function Reclaim(ring: Ring, cidxHw: nat): (ring': Ring)
    requires Shape(ring) && HwIndexOk(ring, cidxHw)
    ensures Shape(ring')
  {
    ring.(cidx := cidxHw, avail := ring.avail + Delta(cidxHw, ring.cidx, |ring.slots|))
  }

  /** `descq_mm_n_h2c_wb` on the consumer index `cidxHw` that the hardware wrote back. */
  function Service(tx: Tx, cidxHw: nat): (tx': Tx)
    requires Shape(tx.ring) && HwIndexOk(tx.ring, cidxHw)
    ensures Shape(tx'.ring) && |tx'.ring.slots| == |tx.ring.slots|
    ensures tx'.kind == tx.kind && tx'.c2h == tx.c2h
  {
    if tx.ring.pidx == tx.ring.cidx || cidxHw == tx.ring.cidx then tx
    else
      var n := Delta(cidxHw, tx.ring.cidx, |tx.ring.slots|);
      tx.(ring := Reclaim(tx.ring, cidxHw),
          lists := Distribute(tx.lists, n + tx.lists.credit),
          pidxReg := tx.ring.pidx)
  }

  function Submit(tx: Tx, r: Req): (tx': Tx)
  {
    tx.(lists := tx.lists.(work := tx.lists.work + [r]))
  }

  /** `qdma_descq_config_complete` on a zeroed ring of `size` slots. */
  function Configured(kind: Kind, c2h: bool, size: nat): (tx: Tx)
    requires size > 0
    ensures Shape(tx.ring)
  {
    Tx(kind, c2h, Ring(seq(size, _ => Desc(0, 0, 0, false, false, false)), size - 1, 0, 0),
       Lists(0, [], [], []), 0)
  }
}
