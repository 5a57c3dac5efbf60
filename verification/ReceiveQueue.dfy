/** The receive side of a queue with the driver's mutable state (libqdma/qdma_st_c2h.c).
    Every method is proved to take the queue from one state of `ReceiveSpec` to the state
    that module computes. */
module ReceiveQueue {
  import opened RingIndex
  import opened PhaseRing
  import opened ReceiveSpec
  import opened ReceiveCopy
  import opened ReceiveStream

  /** `struct qdma_request` with its control block, for a read. */
  class ReadRequest {
    const id: nat
    const async: bool
    const sg: seq<Window>
    const count: nat
    var mem: seq<seq<bv8>>
    var left: int
    var sgIdx: nat
    var sgOff: nat
    var done: bool
    var status: int

    constructor (id: nat, async: bool, sg: seq<Window>, mem: seq<seq<bv8>>, count: nat)
      ensures View() == Read(id, async, sg, mem, count, 0, 0, 0) && !done
    {
      this.id, this.async, this.sg, this.count, this.mem := id, async, sg, count, mem;
      left, sgIdx, sgOff, done, status := 0, 0, 0, false, 0;
    }

    ghost function View(): Read
      reads this
    {
      Read(id, async, sg, mem, count, left, sgIdx, sgOff)
    }
  }

  /* ---- the copy loops, one turn at a time ---- */

  lemma {:induction false} PieceTurn(src: seq<seq<bv8>>, sg: seq<Window>, c: Cursor)
    requires CursorOk(src, sg, c) && c.i < |src| && c.foff < |src[c.i]| && c.j < |sg|
    ensures Copy(src, sg, c) == Copy(src, sg, CopyPiece(src, sg, c))
  {
    hide CopyPiece, CursorOk;
  }

  lemma {:induction false} BufferTurn(src: seq<seq<bv8>>, sg: seq<Window>, c: Cursor)
    requires CursorOk(src, sg, c) && c.i < |src| && c.foff == |src[c.i]| && (c.foff > 0 || c.j < |sg|)
    ensures CursorOk(src, sg, c.(i := c.i + 1, foff := 0))
    ensures Copy(src, sg, c) == Copy(src, sg, c.(i := c.i + 1, foff := 0))
    ensures |Bytes(src[..c.i + 1])| == |Bytes(src[..c.i])| + c.foff
  {
    hide CopyPiece;
    BytesStep(src, c.i);
  }

  lemma {:induction false} CopyEnd(src: seq<seq<bv8>>, sg: seq<Window>, c: Cursor)
    requires CursorOk(src, sg, c) && (c.i == |src| || c.j == |sg|)
    requires c.i < |src| && c.foff > 0 ==> c.foff < |src[c.i]|
    ensures Copy(src, sg, c) == c
  {
    hide CopyPiece;
  }

  lemma {:induction false} SourceAt(fl: FreeList, bufsz: nat, q: nat)
    requires FlShape(fl, bufsz) && q < Delta(fl.pidx, fl.pidxPend, |fl.bufs|)
    ensures var b := fl.bufs[Incr(fl.pidxPend, q, |fl.bufs|)];
            b.len <= |b.page| && Sources(fl, bufsz)[q] == b.page[..b.len]
  {
  }

  lemma {:induction false} LastEopStep(fl: FreeList, n: nat, was: nat)
    requires fl.pidxPend < |fl.bufs| && n < |fl.bufs|
    ensures LastEop(fl, n + 1, was) ==
            (var b := fl.bufs[Incr(fl.pidxPend, n, |fl.bufs|)]; if b.eop then b.cidx else LastEop(fl, n, was))
  {
  }

  lemma {:induction false} NothingYet(src: seq<seq<bv8>>, fl: FreeList, was: nat)
    requires fl.pidxPend < |fl.bufs|
    ensures |Bytes(src[..0])| == 0 && LastEop(fl, 0, was) == was
  {
  }

  lemma {:induction false} IncrStep(idx: nat, i: nat, sz: nat)
    requires idx < sz && i < sz
    ensures Incr(Incr(idx, i, sz), 1, sz) == Incr(idx, i + 1, sz)
  {
  }

  /** The piece the loop copies is the specified one. */
  lemma {:induction false} PieceIs(src: seq<seq<bv8>>, sg: seq<Window>, c: Cursor, b: Buf)
    requires CursorOk(src, sg, c) && c.i < |src| && c.j < |sg|
    requires b.len <= |b.page| && src[c.i] == b.page[..b.len]
    ensures var n := Min(b.len - c.foff, sg[c.j].len - c.toff);
            && sg[c.j].offset + c.toff + n <= |c.mem[c.j]| && c.foff + n <= |b.page|
            && var mem := c.mem[c.j := Patch(c.mem[c.j], sg[c.j].offset + c.toff, b.page[c.foff..c.foff + n])];
               CopyPiece(src, sg, c) == if c.toff + n == sg[c.j].len then Cursor(c.i, c.foff + n, c.j + 1, 0, mem)
                                        else Cursor(c.i, c.foff + n, c.j, c.toff + n, mem)
  {
    var n := Min(b.len - c.foff, sg[c.j].len - c.toff);
    assert src[c.i][c.foff..c.foff + n] == b.page[c.foff..c.foff + n];
  }

  /** Refilling the buffers read whole and shortening the next one are independent. */
  lemma {:induction false} RefillThenConsume(fl: FreeList, bufsz: nat, n: nat, foff: nat)
    requires FlShape(fl, bufsz) && n <= Delta(fl.pidx, fl.pidxPend, |fl.bufs|)
    requires foff > 0 ==> n < |fl.bufs| && foff <= fl.bufs[Incr(fl.pidxPend, n, |fl.bufs|)].len
    ensures var at, filled := Incr(fl.pidxPend, n, |fl.bufs|), Refill(fl, bufsz, fl.pidxPend, n);
            && filled.bufs[at] == fl.bufs[at]
            && Consume(filled, bufsz, n, foff) == Refill(Consume(fl, bufsz, n, foff), bufsz, fl.pidxPend, n)
  {
    var at, sz := Incr(fl.pidxPend, n, |fl.bufs|), |fl.bufs|;
    assert Delta(at, fl.pidxPend, sz) == n;
    var a, b := Consume(Refill(fl, bufsz, fl.pidxPend, n), bufsz, n, foff),
                Refill(Consume(fl, bufsz, n, foff), bufsz, fl.pidxPend, n);
    assert |a.bufs| == |b.bufs|;
    forall s | 0 <= s < sz ensures a.bufs[s] == b.bufs[s] {
      if s != at { }
    }
  }

  lemma {:induction false} RefillNone(fl: FreeList, bufsz: nat, idx: nat)
    requires FlShape(fl, bufsz) && idx < |fl.bufs|
    ensures Refill(fl, bufsz, idx, 0) == fl
  {
    assert Refill(fl, bufsz, idx, 0).bufs == fl.bufs;
  }

  /** Both sides of `descq_st_c2h_read` when there is something to read. */
  lemma {:induction false} ReadCoreIs(rx: Rx, rd: Read, c: Cursor)
    requires Shape(rx) && ReadShape(rd) && Delta(rx.fl.pidx, rx.fl.pidxPend, |rx.fl.bufs|) > 0
    requires rd.sgIdx == 0 || rd.sgIdx < |rd.sg|
    requires CursorOk(Sources(rx.fl, rx.bufsz), rd.sg, Cursor(0, 0, rd.sgIdx, rd.sgOff, rd.mem))
    requires c == Copy(Sources(rx.fl, rx.bufsz), rd.sg, Cursor(0, 0, rd.sgIdx, rd.sgOff, rd.mem))
    ensures c.i <= |Sources(rx.fl, rx.bufsz)| <= |rx.fl.bufs|
    ensures c.foff > 0 ==> c.foff <= rx.fl.bufs[Incr(rx.fl.pidxPend, c.i, |rx.fl.bufs|)].len
    ensures var copied := |Bytes(Sources(rx.fl, rx.bufsz)[..c.i])| + c.foff;
            var fl := Consume(rx.fl, rx.bufsz, c.i, c.foff);
            var rx' := rx.(fl := fl, wrbPend := LastEop(rx.fl, c.i, rx.wrbPend), pktDlen := rx.pktDlen - copied);
            var rd' := rd.(mem := c.mem, sgIdx := c.j, sgOff := c.toff, left := rd.left - copied);
            && ReadCore(rx, rd) == ReadResult(rx', rd', copied)
            && ReadNow(rx, rd) == ReadResult(rx'.(fl := Refill(fl, rx.bufsz, rx.fl.pidxPend, c.i),
                                                  regPidx := Decr(fl.pidxPend, 1, |rx.fl.bufs|),
                                                  regCidx := rx'.wrbPend), rd', copied)
  {
    hide Copy, Bytes, LastEop, CrShape;
  }

  /** The fields after a read, put together. */
  lemma {:induction false} ReadResultIs(rx: Rx, rd: Read, c: Cursor, refill: bool, fl: FreeList, rx': Rx, rd': Read, rv: int)
    requires Shape(rx) && ReadShape(rd) && Delta(rx.fl.pidx, rx.fl.pidxPend, |rx.fl.bufs|) > 0
    requires rd.sgIdx == 0 || rd.sgIdx < |rd.sg|
    requires CursorOk(Sources(rx.fl, rx.bufsz), rd.sg, Cursor(0, 0, rd.sgIdx, rd.sgOff, rd.mem))
    requires c == Copy(Sources(rx.fl, rx.bufsz), rd.sg, Cursor(0, 0, rd.sgIdx, rd.sgOff, rd.mem))
    requires c.i <= |Sources(rx.fl, rx.bufsz)| <= |rx.fl.bufs| && rv == |Bytes(Sources(rx.fl, rx.bufsz)[..c.i])| + c.foff
    requires c.foff > 0 ==> c.foff <= rx.fl.bufs[Incr(rx.fl.pidxPend, c.i, |rx.fl.bufs|)].len
    requires fl == Consume(rx.fl, rx.bufsz, c.i, c.foff)
    requires rx' == rx.(fl := if refill then Refill(fl, rx.bufsz, rx.fl.pidxPend, c.i) else fl,
                        wrbPend := LastEop(rx.fl, c.i, rx.wrbPend), pktDlen := rx.pktDlen - rv,
                        regPidx := if refill then Decr(fl.pidxPend, 1, |rx.fl.bufs|) else rx.regPidx,
                        regCidx := if refill then LastEop(rx.fl, c.i, rx.wrbPend) else rx.regCidx)
    requires rd' == rd.(mem := c.mem, sgIdx := c.j, sgOff := c.toff, left := rd.left - rv)
    ensures ReadResult(rx', rd', rv) == if refill then ReadNow(rx, rd) else ReadCore(rx, rd)
    ensures Shape(rx') && ReadShape(rd')
  {
    hide Copy, Bytes, LastEop, Shape, ReadShape, CursorOk, Sources, Refill, Consume, ReadCore, ReadNow;
    ShapeFl(rx);
    ReadCoreIs(rx, rd, c);
  }

  /** There is nothing to read, or the request has no room left. */
  lemma {:induction false} ReadNoneIs(rx: Rx, rd: Read)
    requires Shape(rx) && ReadShape(rd)
    requires Delta(rx.fl.pidx, rx.fl.pidxPend, |rx.fl.bufs|) == 0 || (rd.sgIdx > 0 && rd.sgIdx == |rd.sg|)
    ensures var rv := if Delta(rx.fl.pidx, rx.fl.pidxPend, |rx.fl.bufs|) == 0 then 0 else EINVAL;
            ReadCore(rx, rd) == ReadNow(rx, rd) == ReadResult(rx, rd, rv)
  {
    hide Copy, Bytes, LastEop, CrShape;
  }

  lemma {:induction false} ShapeFl(m: Rx)
    requires Shape(m)
    ensures FlShape(m.fl, m.bufsz) && m.fl.pidx < |m.fl.bufs| && m.fl.pidxPend < |m.fl.bufs|
  {
  }

  class RxQueue {
    const bufsz: nat
    const uddEn: bool
    const bufs: array<Buf>
    const cmpl: array<Entry<Cmpl>>
    var avail: int
    var pidx: nat
    var pidxPend: nat
    var cidxWrb: nat
    var color: bool
    var wrbCur: nat
    var pktDlen: int
    var uddCnt: nat
    var wrbPend: nat
    var err: bool
    var warned: bool
    var regPidx: nat
    var regCidx: nat
    var pend: seq<ReadRequest>
    ghost var model: Rx

    /** The free list as the fields have it. */
    ghost function List(): FreeList
      reads this, bufs
    {
      FreeList(bufs[..], avail, pidx, pidxPend)
    }

    /** The fields show `m`, with take-over position `at`. */
    ghost predicate Shows(m: Rx, at: nat)
      reads this, bufs, cmpl
    {
      && m.bufsz == bufsz && m.uddEn == uddEn
      && m.fl == FreeList(bufs[..], avail, at, pidxPend)
      && m.cr == CmplRing(cmpl[..], cidxWrb, color, wrbCur)
      && m.pktDlen == pktDlen && m.uddCnt == uddCnt && m.wrbPend == wrbPend
      && m.err == err && m.warned == warned && m.regPidx == regPidx && m.regCidx == regCidx
      && Shape(m)
    }

    ghost predicate ListOk()
      reads this, pend
    {
      && (forall i, j :: 0 <= i < j < |pend| ==> pend[i] != pend[j])
      && |pend| == |model.pend|
      && (forall i :: 0 <= i < |pend| ==> pend[i].View() == model.pend[i])
    }

    ghost predicate Valid()
      reads this, bufs, cmpl, pend
    {
      Shows(model, pidx) && ListOk()
    }

    /** A started queue: `qdma_descq_config_complete`, the filled free list, and the index
        registers of `qdma_descq_prog_hw`. */
    constructor (pages: seq<seq<bv8>>, bufsz: nat, rngszWrb: nat, uddEn: bool)
      requires pages != [] && bufsz > 0 && rngszWrb > 0 && forall s :: 0 <= s < |pages| ==> |pages[s]| == bufsz
      ensures Valid() && fresh(bufs) && fresh(cmpl) && pend == []
      ensures model == Configured(pages, bufsz, rngszWrb, uddEn)
    {
      this.bufsz, this.uddEn := bufsz, uddEn;
      bufs := new Buf[|pages|](s requires 0 <= s < |pages| => Buf(pages[s], bufsz, 0, false, false, false, 0));
      cmpl := new Entry<Cmpl>[rngszWrb](_ => Entry(false, Cmpl(false, false, false, 0)));
      avail, pidx, pidxPend := |pages| - 1, 0, 0;
      cidxWrb, color, wrbCur := 0, true, 0;
      pktDlen, uddCnt, wrbPend, err, warned := 0, 0, 0, false, false;
      regPidx, regCidx, pend := |pages| - 1, 0, [];
      model := Configured(pages, bufsz, rngszWrb, uddEn);
      new;
      assert bufs[..] == model.fl.bufs && cmpl[..] == model.cr.mem;
      assert BufsFor(0, bufsz) == 1;
    }

    /** The outer copy loop of `descq_st_c2h_read`. */
    method CopyLoops(req: ReadRequest, fsgcnt: nat, from: nat)
      returns (i: nat, foff: nat, j: nat, tsgoff: nat, copied: nat, at: nat)
      requires Shows(model, pidx) && ReadShape(req.View()) && from == req.sgIdx
      requires fsgcnt == Delta(pidx, pidxPend, bufs.Length)
      modifies req`mem, this`wrbPend
      ensures var src := Sources(model.fl, bufsz);
              && CursorOk(src, req.sg, Cursor(0, 0, req.sgIdx, req.sgOff, old(req.mem)))
              && Copy(src, req.sg, Cursor(0, 0, req.sgIdx, req.sgOff, old(req.mem))) == Cursor(i, foff, j, tsgoff, req.mem)
              && i <= |src| == fsgcnt && copied == |Bytes(src[..i])| + foff
              && at == Incr(pidxPend, i, bufs.Length)
              && (foff > 0 ==> i < |src| && foff < bufs[at].len)
      ensures wrbPend == LastEop(model.fl, i, old(wrbPend))
    {
      hide Copy, CopyPiece, Sources, Bytes, LastEop, Patch, CrShape, BufsFor;
      ghost var fl, src := model.fl, Sources(model.fl, bufsz);
      ghost var goal := Copy(src, req.sg, Cursor(0, 0, req.sgIdx, req.sgOff, req.mem));
      NothingYet(src, fl, wrbPend);
      i, foff, j, tsgoff, copied, at := 0, 0, from, req.sgOff, 0, pidxPend;
      while i < fsgcnt && j < |req.sg|
        invariant i <= fsgcnt && at == Incr(pidxPend, i, bufs.Length)
        invariant CursorOk(src, req.sg, Cursor(i, foff, j, tsgoff, req.mem))
        invariant Copy(src, req.sg, Cursor(i, foff, j, tsgoff, req.mem)) == goal
        invariant copied == |Bytes(src[..i])| + foff
        invariant foff > 0 ==> i < fsgcnt && j == |req.sg| && foff < bufs[at].len
        invariant wrbPend == LastEop(fl, i, old(wrbPend))
      {
        SourceAt(fl, bufsz, i);
        var b := bufs[at];
        assert b == fl.bufs[Incr(fl.pidxPend, i, |fl.bufs|)];
        foff, j, tsgoff := CopyBuffer(req, b, j, tsgoff, src, i);
        copied := copied + foff;
        if foff == b.len {
          BufferTurn(src, req.sg, Cursor(i, foff, j, tsgoff, req.mem));
          LastEopStep(fl, i, old(wrbPend));
          IncrStep(pidxPend, i, bufs.Length);
          if b.eop {
            wrbPend := b.cidx;
          }
          at := Incr(at, 1, bufs.Length);
          i := i + 1;
          foff := 0;
        }
      }
      if i < fsgcnt {
        SourceAt(fl, bufsz, i);
      }
      CopyEnd(src, req.sg, Cursor(i, foff, j, tsgoff, req.mem));
    }

    /** The inner copy loop: one buffer is copied as far as the target list reaches. */
    method CopyBuffer(req: ReadRequest, b: Buf, from: nat, fromOff: nat, ghost src: seq<seq<bv8>>, ghost i: nat)
      returns (foff: nat, j: nat, tsgoff: nat)
      requires i < |src| && b.len <= |b.page| && src[i] == b.page[..b.len] && from < |req.sg|
      requires CursorOk(src, req.sg, Cursor(i, 0, from, fromOff, req.mem))
      modifies req`mem
      ensures CursorOk(src, req.sg, Cursor(i, foff, j, tsgoff, req.mem))
      ensures Copy(src, req.sg, Cursor(i, foff, j, tsgoff, req.mem)) ==
              Copy(src, req.sg, Cursor(i, 0, from, fromOff, old(req.mem)))
      ensures foff == b.len || j == |req.sg|
      ensures foff == 0 && b.len == 0 ==> j < |req.sg|
    {
      hide Copy, CopyPiece, Patch;
      ghost var goal := Copy(src, req.sg, Cursor(i, 0, from, fromOff, req.mem));
      var flen := b.len;
      foff, j, tsgoff := 0, from, fromOff;
      while flen > 0 && j < |req.sg|
        invariant foff + flen == b.len && (b.len == 0 ==> j < |req.sg|)
        invariant CursorOk(src, req.sg, Cursor(i, foff, j, tsgoff, req.mem))
        invariant Copy(src, req.sg, Cursor(i, foff, j, tsgoff, req.mem)) == goal
        decreases flen, |req.sg| - j
      {
        ghost var c := Cursor(i, foff, j, tsgoff, req.mem);
        PieceIs(src, req.sg, c, b);
        PieceTurn(src, req.sg, c);
        var copy := Min(flen, req.sg[j].len - tsgoff);
        req.mem := req.mem[j := Patch(req.mem[j], req.sg[j].offset + tsgoff, b.page[foff..foff + copy])];
        flen, foff, tsgoff := flen - copy, foff + copy, tsgoff + copy;
        if tsgoff == req.sg[j].len {
          tsgoff := 0;
          j := j + 1;
        }
      }
    }

    /** `qdma_flq_refill` with recycling. */
    method FlqRefill(idx: nat, count: nat)
      requires FlShape(List(), bufsz) && idx < bufs.Length && count <= bufs.Length
      modifies this`avail, bufs
      ensures List() == Refill(old(List()), bufsz, idx, count)
    {
      ghost var fl := List();
      var i, at := 0, idx;
      while i < count
        invariant i <= count && at <= bufs.Length && (if at == bufs.Length then 0 else at) == Incr(idx, i, bufs.Length)
        invariant avail == fl.avail + i
        invariant forall s :: 0 <= s < bufs.Length ==>
                    bufs[s] == if Delta(s, idx, bufs.Length) < i then Recycled(fl.bufs[s], bufsz) else fl.bufs[s]
      {
        if at == bufs.Length {
          at := 0;
        }
        bufs[at] := Recycled(bufs[at], bufsz);
        avail := avail + 1;
        at := at + 1;
        i := i + 1;
      }
      assert bufs[..] == Refill(fl, bufsz, idx, count).bufs;
    }

    /** The buffers read are accounted for, and handed back if asked. */
    method TakeBack(i: nat, foff: nat, at: nat, refill: bool)
      requires FlShape(List(), bufsz)
      requires i <= Delta(pidx, pidxPend, bufs.Length) && at == Incr(pidxPend, i, bufs.Length)
      requires foff > 0 ==> foff <= bufs[at].len
      modifies this`avail, this`pidxPend, bufs
      ensures var fl := Consume(old(List()), bufsz, i, foff);
              List() == if refill then Refill(fl, bufsz, old(pidxPend), i) else fl
    {
      hide Refill;
      RefillThenConsume(List(), bufsz, i, foff);
      RefillNone(List(), bufsz, pidxPend);
      if refill && i > 0 {
        FlqRefill(pidxPend, i);
      }
      pidxPend := at;
      if foff > 0 {
        bufs[at] := bufs[at].(offset := bufs[at].offset + foff, len := bufs[at].len - foff);
      }
    }

    /** Walk to the entry of the target list where the last call stopped. */
    method Seek(req: ReadRequest) returns (j: nat)
      requires ReadShape(req.View())
      ensures j == req.sgIdx
    {
      j := 0;
      while j < |req.sg| && j < req.sgIdx
        invariant j <= req.sgIdx
      {
        j := j + 1;
      }
    }

    /** `descq_st_c2h_read`; its two flags are always equal. */
    method Read(req: ReadRequest, updatePidx: bool, refill: bool) returns (rv: int)
      requires Shows(model, pidx) && ReadShape(req.View()) && updatePidx == refill
      modifies this`avail, this`pidxPend, this`pktDlen, this`wrbPend, this`regPidx, this`regCidx, this`model
      modifies req`mem, req`left, req`sgIdx, req`sgOff, bufs
      ensures Shows(model, pidx) && ReadShape(req.View())
      ensures ReadResult(model, req.View(), rv) ==
              if refill then ReadNow(old(model), old(req.View())) else ReadCore(old(model), old(req.View()))
    {
      hide Copy, Sources, Bytes, LastEop, CrShape, BufsFor, Refill, Consume, ReadCore, ReadNow;
      ghost var m0, rd0 := model, req.View();
      var fsgcnt := Delta(pidx, pidxPend, bufs.Length);
      if fsgcnt == 0 {
        ReadNoneIs(m0, rd0);
        return 0;
      }
      var start := 0;
      if req.sgIdx > 0 {
        start := Seek(req);
        if start == |req.sg| {
          ReadNoneIs(m0, rd0);
          return EINVAL;
        }
      }
      ghost var after;
      rv, after := ReadSome(req, fsgcnt, start, updatePidx, refill);
      model := after;
    }

    /** There is something to read, and `from` is an entry to put it. */
    method ReadSome(req: ReadRequest, fsgcnt: nat, from: nat, updatePidx: bool, refill: bool)
      returns (rv: int, ghost after: Rx)
      requires Shows(model, pidx) && ReadShape(req.View()) && updatePidx == refill
      requires fsgcnt == Delta(pidx, pidxPend, bufs.Length) > 0
      requires from == req.sgIdx && (req.sgIdx == 0 || req.sgIdx < |req.sg|)
      modifies this`avail, this`pidxPend, this`pktDlen, this`wrbPend, this`regPidx, this`regCidx
      modifies req`mem, req`left, req`sgIdx, req`sgOff, bufs
      ensures Shows(after, pidx) && ReadShape(req.View())
      ensures ReadResult(after, req.View(), rv) ==
              if refill then ReadNow(old(model), old(req.View())) else ReadCore(old(model), old(req.View()))
    {
      hide Copy, Sources, Bytes, LastEop, CrShape, BufsFor, Refill, Consume, ReadCore, ReadNow, Shape, FlShape, ReadShape, CursorOk, Delta, Incr, Decr;
      ghost var m0, rd0, c := model, req.View(), Cursor(0, 0, 0, 0, []);
      ShapeFl(m0);
      rv, c := CopyAndConclude(req, fsgcnt, from, updatePidx, refill);
      after := m0.(fl := List(), wrbPend := wrbPend, pktDlen := pktDlen, regPidx := regPidx, regCidx := regCidx);
      ReadResultIs(m0, rd0, c, refill, Consume(m0.fl, bufsz, c.i, c.foff), after, req.View(), rv);
    }

    /** The copy loops and what follows them; `c` is where the loops stopped. */
    method CopyAndConclude(req: ReadRequest, fsgcnt: nat, from: nat, updatePidx: bool, refill: bool)
      returns (rv: nat, ghost c: Cursor)
      requires Shows(model, pidx) && ReadShape(req.View()) && from == req.sgIdx
      requires fsgcnt == Delta(pidx, pidxPend, bufs.Length)
      modifies this`avail, this`pidxPend, this`pktDlen, this`wrbPend, this`regPidx, this`regCidx
      modifies req`mem, req`left, req`sgIdx, req`sgOff, bufs
      ensures var src, fl := Sources(model.fl, bufsz), model.fl;
              && CursorOk(src, req.sg, Cursor(0, 0, old(req.sgIdx), old(req.sgOff), old(req.mem)))
              && c == Copy(src, req.sg, Cursor(0, 0, old(req.sgIdx), old(req.sgOff), old(req.mem)))
              && c.i <= |src| <= |fl.bufs| && rv == |Bytes(src[..c.i])| + c.foff
              && (c.foff > 0 ==> c.foff <= fl.bufs[Incr(fl.pidxPend, c.i, |fl.bufs|)].len)
              && var fl' := Consume(fl, bufsz, c.i, c.foff);
                 && List() == (if refill then Refill(fl', bufsz, fl.pidxPend, c.i) else fl')
                 && regPidx == (if updatePidx then Decr(fl'.pidxPend, 1, |fl.bufs|) else old(regPidx))
      ensures wrbPend == LastEop(model.fl, c.i, old(wrbPend))
      ensures regCidx == (if updatePidx then wrbPend else old(regCidx))
      ensures req.View() == old(req.View()).(mem := c.mem, sgIdx := c.j, sgOff := c.toff, left := old(req.left) - rv)
      ensures pktDlen == old(pktDlen) - rv
    {
      hide Copy, Sources, Bytes, LastEop, CrShape, BufsFor, Refill, Consume, Shape, FlShape, ReadShape, CursorOk, Delta, Incr, Decr;
      ShapeFl(model);
      var i, foff, j, tsgoff, copied, at := CopyLoops(req, fsgcnt, from);
      c := Cursor(i, foff, j, tsgoff, req.mem);
      Conclude(req, i, foff, at, j, tsgoff, copied, updatePidx, refill);
      rv := copied;
    }

    /** The end of `descq_st_c2h_read`: index registers, request cursor, and counters. */
    method Settle(req: ReadRequest, j: nat, tsgoff: nat, copied: nat, updatePidx: bool)
      requires pidxPend < bufs.Length
      modifies this`regPidx, this`regCidx, this`pktDlen, req`left, req`sgIdx, req`sgOff
      ensures regPidx == (if updatePidx then Decr(pidxPend, 1, bufs.Length) else old(regPidx))
      ensures regCidx == (if updatePidx then wrbPend else old(regCidx))
      ensures req.View() == old(req.View()).(sgIdx := j, sgOff := tsgoff, left := old(req.left) - copied)
      ensures pktDlen == old(pktDlen) - copied
    {
      if updatePidx {
        regPidx := Decr(pidxPend, 1, bufs.Length);
        regCidx := wrbPend;
      }
      req.sgIdx := j;
      req.sgOff := tsgoff;
      req.left := req.left - copied;
      pktDlen := pktDlen - copied;
    }
  
    /** What follows the copy loops. */
    method Conclude(req: ReadRequest, i: nat, foff: nat, at: nat, j: nat, tsgoff: nat, copied: nat,
                    updatePidx: bool, refill: bool)
      requires FlShape(List(), bufsz)
      requires i <= Delta(pidx, pidxPend, bufs.Length) && at == Incr(pidxPend, i, bufs.Length)
      requires foff > 0 ==> foff <= bufs[at].len
      modifies this`avail, this`pidxPend, this`regPidx, this`regCidx, this`pktDlen
      modifies req`left, req`sgIdx, req`sgOff, bufs
      ensures var fl := Consume(old(List()), bufsz, i, foff);
              && List() == (if refill then Refill(fl, bufsz, old(pidxPend), i) else fl)
              && regPidx == (if updatePidx then Decr(fl.pidxPend, 1, bufs.Length) else old(regPidx))
      ensures regCidx == (if updatePidx then wrbPend else old(regCidx))
      ensures req.View() == old(req.View()).(sgIdx := j, sgOff := tsgoff, left := old(req.left) - copied)
      ensures pktDlen == old(pktDlen) - copied
    {
      hide Refill;
      TakeBack(i, foff, at, refill);
      Settle(req, j, tsgoff, copied, updatePidx);
    }
  
    /* ---- completions ---- */

    /** `wrb_next` */
    method WrbNext(ghost m: Rx, at: nat) returns (ghost m': Rx)
      requires Shows(m, at)
      modifies this`cidxWrb, this`color, this`wrbCur
      ensures m' == m.(cr := NextCmpl(m.cr)) && Shows(m', at)
    {
      hide FlShape, BufsFor;
      wrbCur := wrbCur + 1;
      cidxWrb := cidxWrb + 1;
      if cidxWrb == cmpl.Length {
        cidxWrb := 0;
        color := !color;
        wrbCur := 0;
      }
      m' := m.(cr := NextCmpl(m.cr));
    }

    /** The loop of `rcv_pkt` that marks the buffers of a packet. */
    method MarkBuffers(start: nat, flNr: nat, cidxNext: nat)
      requires start < bufs.Length && flNr <= bufs.Length
      modifies this`warned, bufs
      ensures warned <==> old(warned) || exists s :: 0 <= s < bufs.Length && Delta(s, start, bufs.Length) < flNr && old(bufs[s].valid)
      ensures forall s :: 0 <= s < bufs.Length ==>
                bufs[s] == if Delta(s, start, bufs.Length) < flNr then old(bufs[s]).(valid := true, cidx := cidxNext)
                           else old(bufs[s])
    {
      var i, at := 0, start;
      while i < flNr
        invariant i <= flNr && at == Incr(start, i, bufs.Length)
        invariant warned <==> old(warned) || exists s :: 0 <= s < bufs.Length && Delta(s, start, bufs.Length) < i && old(bufs[s].valid)
        invariant forall s :: 0 <= s < bufs.Length ==>
                    bufs[s] == if Delta(s, start, bufs.Length) < i then old(bufs[s]).(valid := true, cidx := cidxNext)
                               else old(bufs[s])
      {
        assert Delta(at, start, bufs.Length) == i;
        if bufs[at].valid {
          warned := true;
        }
        bufs[at] := bufs[at].(valid := true, cidx := cidxNext);
        at := if at + 1 == bufs.Length then 0 else at + 1;
        i := i + 1;
      }
    }

    /** What `rcv_pkt` does to the buffers of a packet. */
    method FillPacket(len: nat, at: nat, flNr: nat, last: nat, cidxNext: nat)
      requires bufsz > 0 && at < bufs.Length && 0 < flNr <= bufs.Length && last == Incr(at, flNr - 1, bufs.Length)
      modifies this`warned, bufs
      ensures warned <==> old(warned) || exists s :: 0 <= s < bufs.Length && Delta(s, at, bufs.Length) < flNr && old(bufs[s].valid)
      ensures forall s :: 0 <= s < bufs.Length ==>
                bufs[s] == Claimed(old(bufs[s]), Delta(s, at, bufs.Length), flNr, len, bufsz, cidxNext)
    {
      ghost var was := bufs[..];
      if len > 0 {
        var lastLen := len % bufsz;
        if lastLen > 0 {
          bufs[last] := bufs[last].(len := lastLen);
        }
      } else {
        bufs[last] := bufs[last].(len := 0);
      }
      assert forall s :: 0 <= s < bufs.Length ==> bufs[s].valid == was[s].valid;
      assert forall s :: 0 <= s < bufs.Length && s != last ==> bufs[s] == was[s];
      assert forall s :: 0 <= s < bufs.Length ==> (s == last <==> Delta(s, at, bufs.Length) == flNr - 1);
      assert forall s :: 0 <= s < bufs.Length ==> (s == at <==> Delta(s, at, bufs.Length) == 0);
      MarkBuffers(at, flNr, cidxNext);
      bufs[at] := bufs[at].(sop := true);
      bufs[last] := bufs[last].(eop := true);
    }

    /** `rcv_pkt` */
    method RcvPkt(len: nat, at: nat, ghost m: Rx) returns (next: nat, ghost m': Rx)
      requires Shows(m, at) && BufsFor(len, bufsz) <= bufs.Length
      modifies this`avail, this`pktDlen, this`uddCnt, this`warned, bufs
      ensures Shows(m', next)
      ensures m' == m.(fl := Claim(m.fl, bufsz, len, Incr(cidxWrb, 1, cmpl.Length)),
                       warned := m.warned || ClaimsUsed(m.fl, bufsz, len),
                       pktDlen := m.pktDlen + len,
                       uddCnt := if uddEn then m.uddCnt + 1 else m.uddCnt)
    {
      hide Claimed, BufsFor;
      ghost var fl := m.fl;
      var flNr := FlNr(len);
      var last := Incr(at, flNr - 1, bufs.Length);
      avail := avail - flNr;
      FillPacket(len, at, flNr, last, Incr(cidxWrb, 1, cmpl.Length));
      pktDlen := pktDlen + len;
      if uddEn {
        uddCnt := uddCnt + 1;
      }
      next := Incr(last, 1, bufs.Length);
      assert bufs[..] == Claim(fl, bufsz, len, Incr(cidxWrb, 1, cmpl.Length)).bufs;
      m' := m.(fl := FreeList(bufs[..], avail, next, pidxPend), warned := warned, pktDlen := pktDlen, uddCnt := uddCnt);
    }

    /** Descriptors a packet takes; even an empty one takes one. */
    method FlNr(len: nat) returns (flNr: nat)
      requires bufsz > 0
      ensures flNr == BufsFor(len, bufsz) > 0
    {
      LenAtLeast(len, bufsz);
      flNr := if len > 0 then (len + (bufsz - 1)) / bufsz else 1;
    }
  
    /** `parse_cmpl_entry`: an entry that cannot be handled halts the queue. */
    method ParseCmplEntry() returns (ok: bool, color: bool, c: Cmpl)
      requires wrbCur < cmpl.Length
      modifies this`err
      ensures color == cmpl[wrbCur].color && c == cmpl[wrbCur].val
      ensures ok == !BadCmpl(c, uddEn) && err == (old(err) || !ok)
    {
      var e := cmpl[wrbCur];
      color, c := e.color, e.val;
      ok := true;
      if c.err || c.format || (!c.descUsed && !uddEn) {
        err := true;
        ok := false;
      }
    }

    /** One turn of the completion loop. */
    method TakeOne(c: Cmpl, at: nat, ghost m: Rx) returns (next: nat, ghost m': Rx)
      requires Shows(m, at) && BufsFor(c.len, bufsz) <= bufs.Length && (c.descUsed || uddEn)
      modifies this`avail, this`pktDlen, this`uddCnt, this`warned, this`cidxWrb, this`color, this`wrbCur, bufs
      ensures Shows(m', next) && m' == TakeCmpl(m, c)
    {
      hide BufsFor, Claim, ClaimsUsed, FlShape, CrShape;
      if c.descUsed {
        next, m' := RcvPkt(c.len, at, m);
      } else {
        uddCnt := uddCnt + 1;
        next, m' := at, m.(uddCnt := uddCnt);
      }
      m' := WrbNext(m', next);
    }

    /** The completion loop of `descq_process_completion_st_c2h`; it works on a copy of the
        take-over position, which is stored only when the loop ends without an error. */
    method CollectLoop(budget: nat) returns (halted: bool, cnt: nat, at: nat, ghost m: Rx)
      requires Shows(model, pidx)
      modifies this`avail, this`pktDlen, this`uddCnt, this`warned, this`cidxWrb, this`color, this`wrbCur, this`err, bufs
      ensures Shows(m, at) && Collect(model, budget) == Collected(m, cnt, halted) && (cnt == 0 ==> at == pidx)
    {
      hide Collect, TakeCmpl, BadCmpl, Shape, BufsFor;
      halted, cnt, at, m := false, 0, pidx, model;
      ghost var goal := Collect(model, budget);
      while cnt < budget
        invariant cnt <= budget && !halted && Shows(m, at) && (cnt == 0 ==> at == pidx)
        invariant goal == (var r := Collect(m, budget - cnt); r.(cnt := r.cnt + cnt))
        decreases budget - cnt
      {
        CollectTurn(m, budget - cnt);
        var ok, entryColor, c := ParseCmplEntry();
        if !ok {
          ErrKeepsShape(m);
          m := m.(err := true);
          halted := true;
          return;
        }
        if entryColor != color {
          return;
        }
        assert c.descUsed || uddEn by { GoodEntry(c, uddEn); }
        at, m := TakeOne(c, at, m);
        cnt := cnt + 1;
      }
      CollectTurn(m, 0);
    }

    /* ---- reads ---- */

    /** `qdma_sgt_req_done` for the oldest waiting read. */
    method FinishHead(error: int)
      requires Shows(model, pidx) && pend != [] && TailOk()
      modifies this`pend, this`model, pend[0]
      ensures Valid() && pend == old(pend[1..]) && old(pend[0]).done && old(pend[0]).status == ReadStatus(old(pend[0].View()), error)
      ensures old(model).pend != [] && model == Finish(old(model), old(pend[0].View()), error)
    {
      hide CrShape, FlShape, ReadShape;
      pend[0].status := if pend[0].async && pend[0].count != 0 then EINVAL else error;
      pend[0].done := true;
      model := Finish(model, pend[0].View(), error);
      pend := pend[1..];
    }

    /** The waiting reads but the oldest are as in the model. */
    ghost predicate TailOk()
      reads this, pend
    {
      && (forall i, j :: 0 <= i < j < |pend| ==> pend[i] != pend[j])
      && |pend| == |model.pend|
      && (forall i :: 0 < i < |pend| ==> pend[i].View() == model.pend[i])
    }

    /** One turn of the loop over the waiting reads. */
    method ServeHead() returns (more: bool)
      requires Valid() && pend != []
      modifies this`avail, this`pidxPend, this`pktDlen, this`wrbPend, this`regPidx, this`regCidx, this`model, this`pend
      modifies pend[0], bufs
      ensures Valid() && (more ==> pend == old(pend[1..])) && (pend == old(pend) || pend == old(pend[1..]))
      ensures ServeReads(old(model)) == if more then ServeReads(model) else model
    {
      hide ServeReads, ReadCore, ReadNow, FlShape, CrShape, ReadShape;
      var cb := pend[0];
      ServeTurn(model);
      if cb.left == 0 {
        FinishHead(0);
        more := false;
      } else {
        more := ReadHead();
      }
    }

    lemma {:induction false} HeadShows()
      requires ListOk() && pend != []
      ensures model.pend != [] && pend[0].View() == model.pend[0]
    {
    }

    /** Only the oldest waiting read and the rings have changed. */
    twostate lemma {:induction false} TailStays()
      requires old(ListOk()) && pend == old(pend) && pend != [] && model.pend == old(model.pend)
      requires forall i :: 0 < i < |pend| && pend[i] != pend[0] ==> pend[i].View() == old(pend[i].View())
      ensures TailOk()
    {
    }

    /** The oldest waiting read takes what there is, and ends if it is full or refused. */
    method ReadHead() returns (more: bool)
      requires Valid() && pend != [] && model.pend != [] && ReadShape(model.pend[0])
      requires ReadCore(model, model.pend[0]).rx.pend == model.pend
      modifies this`avail, this`pidxPend, this`pktDlen, this`wrbPend, this`regPidx, this`regCidx, this`model, this`pend
      modifies pend[0], bufs
      ensures Valid() && (more ==> pend == old(pend[1..])) && (pend == old(pend) || pend == old(pend[1..]))
      ensures var rd, r := old(model.pend[0]), ReadCore(old(model), old(model.pend[0]));
              && r.rx.pend != []
              && (more <==> r.rv >= 0 && r.rd.left == 0)
              && model == (if r.rv < 0 then Finish(r.rx, r.rd, r.rv)
                           else if r.rd.left == 0 then Finish(r.rx, r.rd, 0)
                           else r.rx.(pend := [r.rd] + r.rx.pend[1..]))
    {
      hide ReadCore, ReadNow, Shape, ReadShape, Finish, TailOk, Shows, ListOk;
      var cb := pend[0];
      HeadShows();
      var rv := Read(cb, false, false);
      TailStays();
      more := false;
      if rv < 0 {
        FinishHead(rv);
      } else if cb.left == 0 {
        FinishHead(0);
        more := true;
      } else {
        KeepHead();
      }
    }

    /** The oldest waiting read goes on waiting. */
    method KeepHead()
      requires Shows(model, pidx) && pend != [] && TailOk() && ReadShape(pend[0].View())
      modifies this`model
      ensures Valid() && old(model).pend != []
      ensures model == old(model).(pend := [old(pend[0].View())] + old(model).pend[1..])
    {
      hide Shape;
      PutBackShape(model, pend[0].View());
      model := model.(pend := [pend[0].View()] + model.pend[1..]);
    }

    /** `qdma_c2h_packets_proc_dflt` */
    method ProcDefault()
      requires Valid()
      modifies this`avail, this`pidxPend, this`pktDlen, this`wrbPend, this`regPidx, this`regCidx, this`model, this`pend
      modifies pend, bufs
      ensures Valid() && model == ServeReads(old(model)) && forall r :: r in pend ==> r in old(pend)
    {
      hide ServeReads, Shape;
      ghost var goal := ServeReads(model);
      while pend != []
        invariant Valid() && goal == ServeReads(model) && forall r :: r in pend ==> r in old(pend)
        decreases |pend|
      {
        assert pend[0] in pend;
        var more := ServeHead();
        if !more {
          return;
        }
      }
      ServeEnd(model);
    }

    /** `descq_process_completion_st_c2h`: the hardware reports index `status`. */
    method ProcessCompletion(status: nat, budget: nat)
      requires Valid() && status < cmpl.Length
      modifies this, pend, bufs
      ensures Valid() && model == ServiceRx(old(model), status, budget)
      ensures forall r :: r in pend ==> r in old(pend)
    {
      hide ServeReads, Collect, Shape, Refill, Returned, ServiceRx;
      ServiceTurn(model, status, budget);
      if err || pend == [] {
        return;
      }
      var waiting := Delta(status, cidxWrb, cmpl.Length);
      if waiting == 0 {
        return;
      }
      var allowed := if budget == 0 || budget > waiting then waiting else budget;
      var was := pidxPend;
      ghost var m0 := model;
      var halted, cnt, at, m := CollectLoop(allowed);
      CollectPend(m0, allowed);
      if halted {
        model := m.(fl := m.fl.(pidx := pidx));
      } else if cnt == 0 {
        model := m;
      } else {
        model := m;
        ServeTaken(at, was);
      }
    }

    /** The end of a service call that has taken over completions. */
    method ServeTaken(at: nat, was: nat)
      requires Shows(model, at) && ListOk() && was == pidxPend
      modifies this, pend, bufs
      ensures Valid() && Shape(old(model)) && was < |ServeReads(old(model)).fl.bufs|
      ensures model == Returned(ServeReads(old(model)), was) && forall r :: r in pend ==> r in old(pend)
    {
      hide ServeReads, Refill, CrShape;
      pidx := at;
      ProcDefault();
      ReturnTaken(was);
    }

    /** The buffers read since slot `was` go back to the hardware, and the completions. */
    method ReturnTaken(was: nat)
      requires Valid() && was < bufs.Length
      modifies this`avail, this`regPidx, this`regCidx, this`model, bufs
      ensures Valid() && Shape(old(model)) && model == Returned(old(model), was)
    {
      hide Refill, CrShape;
      if pidxPend != was {
        FlqRefill(was, Delta(pidxPend, was, bufs.Length));
        regPidx := Decr(pidxPend, 1, bufs.Length);
      }
      regCidx := wrbPend;
      model := Returned(model, was);
    }

    /** The first half of `qdma_request_submit_st_c2h`: take what is there. */
    method SubmitRead(req: ReadRequest) returns (complete: bool)
      requires Valid() && req !in pend && ReadShape(req.View())
      modifies this`avail, this`pidxPend, this`pktDlen, this`wrbPend, this`regPidx, this`regCidx, this`model
      modifies req`mem, req`left, req`sgIdx, req`sgOff, bufs
      ensures Valid() && ReadShape(req.View()) && complete == (req.left == 0)
      ensures var r := ReadNow(old(model), old(req.View()).(left := req.count));
              model == r.rx && req.View() == r.rd
    {
      hide ReadNow, ReadCore, FlShape, CrShape;
      req.left := req.count;
      ReadKeepsList(model, req.View());
      var rv := Read(req, true, true);
      complete := req.left == 0;
    }

    /** The second half: join the waiting reads, unless the queue is offline by now. */
    method JoinWaiting(req: ReadRequest, online: bool) returns (rv: int)
      requires Valid() && req !in pend && ReadShape(req.View())
      modifies this`pend, this`regCidx, this`model
      ensures Valid()
      ensures online ==> rv == 0 && pend == old(pend) + [req] && model == Enqueue(old(model), req.View())
      ensures !online ==> rv == EINVAL && pend == old(pend) && model == old(model)
    {
      hide FlShape, CrShape, ReadShape;
      if !online {
        return EINVAL;
      }
      pend := pend + [req];
      regCidx := wrbPend;
      model := Enqueue(model, req.View());
      rv := 0;
    }
  }

  lemma {:induction false} ReadKeepsList(rx: Rx, rd: Read)
    requires Shape(rx) && ReadShape(rd)
    ensures ReadNow(rx, rd).rx.pend == rx.pend
  {
    hide Copy, Sources, Bytes, FlShape, CrShape, Consume, Refill;
  }

  /** What a service call hands back at its end. */
  function Returned(t: Rx, was: nat): (t': Rx)
    requires Shape(t) && was < |t.fl.bufs|
    ensures Shape(t')
  {
    var fl := if t.fl.pidxPend == was then t.fl else Refill(t.fl, t.bufsz, was, Delta(t.fl.pidxPend, was, |t.fl.bufs|));
    t.(fl := fl, regPidx := if t.fl.pidxPend == was then t.regPidx else Decr(fl.pidxPend, 1, |fl.bufs|), regCidx := t.wrbPend)
  }

  lemma {:induction false} CollectPend(rx: Rx, budget: nat)
    requires Shape(rx)
    ensures Collect(rx, budget).rx.pend == rx.pend && Collect(rx, budget).rx.fl.pidxPend == rx.fl.pidxPend
  {
  }

  lemma {:induction false} ServiceTurn(rx: Rx, status: nat, budget: nat)
    requires Shape(rx) && status < |rx.cr.mem|
    ensures rx.cr.cidx < |rx.cr.mem| && rx.fl.pidxPend < |rx.fl.bufs|
    ensures var waiting := Delta(status, rx.cr.cidx, |rx.cr.mem|);
            var r := Collect(rx, Allowance(budget, waiting));
            && rx.fl.pidxPend < |ServeReads(r.rx).fl.bufs|
            && ServiceRx(rx, status, budget) ==
               if rx.err || rx.pend == [] || waiting == 0 then rx
               else if r.halted then r.rx.(fl := r.rx.fl.(pidx := rx.fl.pidx))
               else if r.cnt == 0 then r.rx
               else Returned(ServeReads(r.rx), rx.fl.pidxPend)
  {
    hide Collect, ServeReads, Refill, BufsFor, ReadShape;
  }

  lemma {:induction false} PutBackShape(m: Rx, rd: Read)
    requires Shape(m) && ReadShape(rd) && m.pend != []
    ensures Shape(m.(pend := [rd] + m.pend[1..]))
  {
    hide FlShape, CrShape, ReadShape;
  }

  lemma {:induction false} ErrKeepsShape(m: Rx)
    requires Shape(m)
    ensures Shape(m.(err := true))
  {
  }

  lemma {:induction false} GoodEntry(c: Cmpl, uddEn: bool)
    requires !BadCmpl(c, uddEn)
    ensures c.descUsed || uddEn
  {
  }

  /** One turn of the completion loop. */
  lemma {:induction false} CollectTurn(rx: Rx, budget: nat)
    requires Shape(rx)
    ensures rx.cr.cur < |rx.cr.mem|
    ensures var e := rx.cr.mem[rx.cr.cur];
            && BufsFor(e.val.len, rx.bufsz) <= |rx.fl.bufs|
            && Collect(rx, budget) ==
               if budget == 0 then Collected(rx, 0, false)
               else if BadCmpl(e.val, rx.uddEn) then Collected(rx.(err := true), 0, true)
               else if e.color != rx.cr.color then Collected(rx, 0, false)
               else var r := Collect(TakeCmpl(rx, e.val), budget - 1); r.(cnt := r.cnt + 1)
  {
    hide TakeCmpl, BadCmpl, FlShape, ReadShape, BufsFor;
  }

  lemma {:induction false} LenAtLeast(len: nat, bufsz: nat)
    requires bufsz > 0
    ensures BufsFor(len, bufsz) > 0
  {
    BufsForStep(len, bufsz);
  }
}
