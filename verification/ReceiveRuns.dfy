/** Runs of a receive queue: what every interleaving of packet arrival, completion service
    and reading keeps, in default mode (no packet callback). */
module ReceiveRuns {
  import opened RingIndex
  import opened PhaseRing
  import opened ReceiveSpec
  import opened ReceiveCopy
  import opened ReceiveStream
  import opened ReceiveRings

  /** A queue and its history: the packets the hardware has completed (`pkts`), how many
      of them the driver has taken over (`n`), how many buffers are read to their end
      (`read`) and how far into the next one (`off`), the completion count the hardware
      last reported (`status`), and what was put into which read request so far (`log`).
      `inside` records whether any read has ended inside a buffer.  `limbo` holds the
      reads that are submitted but not yet on the pending list, `filled` those that are
      complete, and `joined` lists what the reads that ever waited asked for, in the order in
      which they joined the pending list. */
  datatype Sys = Sys(rx: Rx, pkts: seq<seq<bv8>>, n: nat, read: nat, off: nat, status: nat,
                     log: seq<Move>, inside: bool, limbo: seq<Read>, filled: seq<Read>, joined: seq<Joined>)

  datatype Move = Move(id: nat, bytes: seq<bv8>)

  datatype Joined = Joined(id: nat, async: bool, count: nat)

  /** All bytes delivered, in the order of delivery. */
  function Delivered(log: seq<Move>): seq<bv8>
  {
    if log == [] then [] else Delivered(log[..|log| - 1]) + log[|log| - 1].bytes
  }

  function Stream(y: Sys): seq<Chunk>
    requires y.rx.bufsz > 0
  {
    Chunks(y.pkts, y.rx.bufsz)
  }

  /** Buffers of the packets taken over by the driver. */
  function Taken0(y: Sys): nat
    requires y.rx.bufsz > 0 && y.n <= |y.pkts|
  {
    Base(y.pkts, y.rx.bufsz, y.n)
  }

  /** Completions that may be handed back to the hardware. */
  function Rel(y: Sys): nat
    requires y.rx.bufsz > 0 && y.read <= |Stream(y)|
  {
    Released(Stream(y), y.read)
  }

  /* ---- the invariant ---- */

  /** Both rings are determined by the history; `r0` buffers are handed back. */
  ghost predicate RingsOk(y: Sys, r0: nat)
  {
    && Shape(y.rx)
    && y.n <= y.status <= |y.pkts|
    && CrOk(y.rx.cr, y.pkts, y.n)
    && FlOk(y.rx.fl, y.rx.bufsz, Stream(y), |y.rx.cr.mem|, r0, y.read, y.off, Taken0(y))
    && y.rx.wrbPend == Slot(Rel(y), |y.rx.cr.mem|)
    && |y.pkts| < Rel(y) + |y.rx.cr.mem|
  }

  /** Every byte is accounted for, and unless a read has ended inside a buffer, what was
      delivered is the beginning of the stream. */
  predicate Accounts(cs: seq<Chunk>, p: nat, read: nat, off: nat, pktDlen: int, delivered: seq<bv8>, inside: bool)
  {
    && read <= p <= |cs|
    && pktDlen == |Flat(cs[..p])| - |Flat(cs[..read])| - off
    && |delivered| == |Flat(cs[..read])| + off
    && (!inside ==> off == 0 && delivered == Flat(cs[..read]))
  }

  predicate BytesOk(y: Sys)
    requires y.rx.bufsz > 0 && y.n <= |y.pkts|
  {
    Accounts(Stream(y), Taken0(y), y.read, y.off, y.rx.pktDlen, Delivered(y.log), y.inside)
  }

  /** A read whose remaining count is the room left in its target list. */
  predicate Sane(rd: Read)
  {
    ReadShape(rd) && rd.left == RoomAt(rd.sg, rd.sgIdx, rd.sgOff)
  }

  predicate ReadsOk(rds: seq<Read>)
  {
    forall i :: 0 <= i < |rds| ==> Sane(rds[i]) && rds[i].left > 0
  }

  /** What holds at any time while the queue is locked. */
  ghost predicate Core(y: Sys, r0: nat)
  {
    && RingsOk(y, r0)
    && BytesOk(y)
    && ReadsOk(y.rx.pend) && ReadsOk(y.limbo)
    && !y.rx.err && !y.rx.warned
  }

  /** What the hardware has been told. */
  predicate RegsOk(rx: Rx, read: nat)
    requires |rx.fl.bufs| > 0
  {
    rx.regPidx == Slot(read + |rx.fl.bufs| - 1, |rx.fl.bufs|) && rx.regCidx == rx.wrbPend
  }

  /** What holds whenever the lock is free. */
  ghost predicate Inv(y: Sys)
  {
    Core(y, y.read) && RegsOk(y.rx, y.read)
  }

  /* ---- reading ---- */

  /** Bytes a read takes from the buffer after the last one it takes whole. */
  function Partial(rx: Rx, rd: Read): nat
    requires Shape(rx) && ReadShape(rd)
  {
    var src := Sources(rx.fl, rx.bufsz);
    if src == [] || (rd.sgIdx > 0 && rd.sgIdx >= |rd.sg|) then 0
    else Copy(src, rd.sg, Cursor(0, 0, rd.sgIdx, rd.sgOff, rd.mem)).foff
  }

  /** What the target list of a read holds beyond what it held before. */
  function NewBytes(before: Read, after: Read): seq<bv8>
    requires ReadShape(before) && ReadShape(after)
  {
    var a, b := Received(before), Received(after);
    if |a| <= |b| then b[|a|..] else []
  }

  /** The history after one call of the read function. */
  function AfterRead(y: Sys, rd: Read): (y': Sys)
    requires Shape(y.rx) && ReadShape(rd)
    ensures Shape(y'.rx)
  {
    var r, t, foff := ReadCore(y.rx, rd), Taken(y.rx, rd), Partial(y.rx, rd);
    var off := foff + (if t == 0 then y.off else 0);
    y.(rx := r.rx, read := y.read + t, off := off,
       log := y.log + [Move(rd.id, NewBytes(rd, r.rd))], inside := y.inside || off > 0)
  }

  /** The bytes in the buffers that a read takes whole. */
  lemma {:induction false} TakenBytes(cs: seq<Chunk>, src: seq<seq<bv8>>, read: nat, off: nat, i: nat)
    requires SourcesMatch(src, cs, read, off) && i <= |src|
    ensures |Bytes(src[..i])| == |Flat(cs[..read + i])| - |Flat(cs[..read])| - (if i > 0 then off else 0)
    ensures off == 0 ==> Flat(cs[..read]) + Bytes(src[..i]) == Flat(cs[..read + i])
  {
    if i > 0 {
      TakenBytes(cs, src, read, off, i - 1);
      assert src[..i][..i - 1] == src[..i - 1];
      FlatStep(cs, read + i - 1);
      assert SourceMatches(src[i - 1], cs[read + (i - 1)].bytes, if i - 1 == 0 then off else 0);
    }
  }

  lemma {:induction false} BytesNone(src: seq<seq<bv8>>)
    ensures Bytes(src[..0]) == [] && (src == [] ==> Bytes(src) == [])
  {
  }

  /** What one read does, in terms of its sources. */
  lemma {:induction false} ReadIs(rx: Rx, rd: Read)
    requires Shape(rx) && Sane(rd) && (rd.sgIdx == 0 || rd.sgIdx < |rd.sg|)
    ensures var src, t, foff := Sources(rx.fl, rx.bufsz), Taken(rx, rd), Partial(rx, rd);
            var r := ReadCore(rx, rd);
            && t <= |src|
            && r.rv == |Bytes(src[..t])| + foff <= |Bytes(src)|
            && (foff > 0 ==> t < |src| && foff < |src[t]|)
            && r.rd.left == rd.left - r.rv
            && Sane(r.rd)
            && (r.rd.left > 0 ==> t == |src| && foff == 0)
            && (r.rd.left > 0 ==> r.rd.sgIdx < |r.rd.sg|)
            && NewBytes(rd, r.rd) == Bytes(src)[..r.rv]
            && Received(r.rd) == Received(rd) + NewBytes(rd, r.rd)
  {
    hide Copy, Room, Filled, Bytes, Consume, LastEop, Sources, FlShape, CrShape;
    var src := Sources(rx.fl, rx.bufsz);
    BytesNone(src);
    if src != [] {
      var c := Cursor(0, 0, rd.sgIdx, rd.sgOff, rd.mem);
      CopyStops(src, rd.sg, c);
      CopyMoves(src, rd.sg, c);
    }
  }

  lemma {:induction false} NothingTaken(rx: Rx)
    requires Shape(rx)
    ensures Consume(rx.fl, rx.bufsz, 0, 0) == rx.fl && LastEop(rx.fl, 0, rx.wrbPend) == rx.wrbPend
    ensures rx.fl.pidx < |rx.fl.bufs| && rx.fl.pidxPend < |rx.fl.bufs|
  {
    assert rx.fl.(bufs := rx.fl.bufs) == rx.fl;
  }

  /** What one read does to the queue. */
  lemma {:induction false} ReadCoreFields(rx: Rx, rd: Read)
    requires Shape(rx) && ReadShape(rd) && (rd.sgIdx == 0 || rd.sgIdx < |rd.sg|)
    ensures var t, foff := Taken(rx, rd), Partial(rx, rd);
            && t <= Delta(rx.fl.pidx, rx.fl.pidxPend, |rx.fl.bufs|)
            && (foff > 0 ==> foff <= rx.fl.bufs[Incr(rx.fl.pidxPend, t, |rx.fl.bufs|)].len)
            && ReadCore(rx, rd).rx ==
               rx.(fl := Consume(rx.fl, rx.bufsz, t, foff), wrbPend := LastEop(rx.fl, t, rx.wrbPend),
                   pktDlen := rx.pktDlen - ReadCore(rx, rd).rv)
  {
    hide CrShape, Bytes, LastEop, Copy, Recycled, Consume;
    assert rx.fl.(bufs := rx.fl.bufs) == rx.fl;
    NothingTaken(rx);
  }

  lemma {:induction false} FlatMonotone(cs: seq<Chunk>, i: nat, j: nat)
    requires i <= j <= |cs|
    ensures |Flat(cs[..i])| <= |Flat(cs[..j])|
    decreases j - i
  {
    if i < j {
      FlatStep(cs, i);
      FlatMonotone(cs, i + 1, j);
    }
  }

  /** The byte accounts after a read. */
  lemma {:induction false} AccountsRead(cs: seq<Chunk>, p: nat, read: nat, off: nat, pktDlen: int,
                                        delivered: seq<bv8>, inside: bool,
                                        src: seq<seq<bv8>>, t: nat, foff: nat)
    requires Accounts(cs, p, read, off, pktDlen, delivered, inside)
    requires SourcesMatch(src, cs, read, off) && |src| == p - read && t <= |src|
    requires |Bytes(src[..t])| + foff <= |Bytes(src)|
    ensures var rv, off' := |Bytes(src[..t])| + foff, foff + (if t == 0 then off else 0);
            Accounts(cs, p, read + t, off', pktDlen - rv, delivered + Bytes(src)[..rv], inside || off' > 0)
  {
    hide Flat, Bytes;
    TakenBytes(cs, src, read, off, t);
    BytesAll(src, t);
    if off == 0 && foff == 0 {
      assert Bytes(src)[..|Bytes(src[..t])|] == Bytes(src[..t]);
    }
  }

  lemma {:induction false} DeliveredStep(log: seq<Move>, m: Move)
    ensures Delivered(log + [m]) == Delivered(log) + m.bytes
  {
    assert (log + [m])[..|log|] == log;
  }

  lemma {:induction false} ReadBytes(y: Sys, rd: Read)
    requires Shape(y.rx) && y.n <= |y.pkts| && BytesOk(y)
    requires Sane(rd) && (rd.sgIdx == 0 || rd.sgIdx < |rd.sg|)
    requires SourcesMatch(Sources(y.rx.fl, y.rx.bufsz), Stream(y), y.read, y.off)
    requires |Sources(y.rx.fl, y.rx.bufsz)| == Taken0(y) - y.read
    ensures BytesOk(AfterRead(y, rd))
  {
    hide Chunks, Base, Taken, Partial, ReadCore, Sources, NewBytes, Accounts, Bytes, Delivered;
    ReadIs(y.rx, rd);
    ReadCoreFields(y.rx, rd);
    DeliveredStep(y.log, Move(rd.id, NewBytes(rd, ReadCore(y.rx, rd).rd)));
    AccountsRead(Stream(y), Taken0(y), y.read, y.off, y.rx.pktDlen, Delivered(y.log), y.inside,
                 Sources(y.rx.fl, y.rx.bufsz), Taken(y.rx, rd), Partial(y.rx, rd));
  }

  /** The rings after a read, before anything is handed back. */
  lemma {:induction false} ReadRings(y: Sys, r0: nat, rd: Read)
    requires RingsOk(y, r0) && Sane(rd) && (rd.sgIdx == 0 || rd.sgIdx < |rd.sg|)
    ensures RingsOk(AfterRead(y, rd), r0)
    ensures SourcesMatch(Sources(y.rx.fl, y.rx.bufsz), Stream(y), y.read, y.off)
    ensures |Sources(y.rx.fl, y.rx.bufsz)| == Taken0(y) - y.read
  {
    hide CrOk, Chunks, Base, Taken, Partial, ReadCore, Sources, NewBytes, Bytes, FlOk, Consume, LastEop, Released;
    var t, foff, p := Taken(y.rx, rd), Partial(y.rx, rd), Taken0(y);
    var fl, bufsz, wsz := y.rx.fl, y.rx.bufsz, |y.rx.cr.mem|;
    SourcesAre(fl, bufsz, Stream(y), wsz, r0, y.read, y.off, p);
    ReadIs(y.rx, rd);
    ReadCoreFields(y.rx, rd);
    if foff > 0 {
      assert SourceMatches(Sources(fl, bufsz)[t], Stream(y)[y.read + t].bytes, if t == 0 then y.off else 0);
    }
    ConsumeOk(fl, bufsz, Stream(y), wsz, r0, y.read, y.off, p, t, foff);
    LastEopIs(fl, bufsz, Stream(y), wsz, r0, y.read, y.off, p, t);
    ReleasedMonotone(y.pkts, bufsz, y.read, y.read + t);
  }

  /** Everything after a read, before anything is handed back. */
  lemma {:induction false} ReadKeeps(y: Sys, r0: nat, rd: Read)
    requires Core(y, r0) && Sane(rd) && (rd.sgIdx == 0 || rd.sgIdx < |rd.sg|)
    ensures var r := ReadCore(y.rx, rd);
            && Core(AfterRead(y, rd), r0)
            && r.rv >= 0 && Sane(r.rd)
            && (r.rd.left > 0 ==> r.rd.sgIdx < |r.rd.sg| && AfterRead(y, rd).read == Taken0(y))
            && AfterRead(y, rd).pkts == y.pkts && AfterRead(y, rd).n == y.n && AfterRead(y, rd).status == y.status
  {
    hide RingsOk, Chunks, Base, Taken, Partial, ReadCore, Sources, NewBytes, Bytes, Accounts;
    RingsFacts(y, r0);
    ReadRings(y, r0, rd);
    ReadBytes(y, rd);
    ReadIs(y.rx, rd);
    ReadCoreFields(y.rx, rd);
  }

  /* ---- taking over completions ---- */

  /** The stream continues with the chunks of packet `n`. */
  lemma {:induction false} NextPacketAt(pkts: seq<seq<bv8>>, bufsz: nat, n: nat)
    requires bufsz > 0 && n < |pkts|
    ensures PacketAt(Chunks(pkts, bufsz), Base(pkts, bufsz, n), |pkts[n]|, bufsz, n)
    ensures Base(pkts, bufsz, n + 1) == Base(pkts, bufsz, n) + BufsFor(|pkts[n]|, bufsz)
  {
    hide BufsFor, PktChunks;
    ChunksStep(pkts, bufsz, n);
    BaseMonotone(pkts, bufsz, n + 1, n + 1);
    var p, nb, cs := Base(pkts, bufsz, n), BufsFor(|pkts[n]|, bufsz), Chunks(pkts, bufsz);
    forall q | p <= q < p + nb ensures ChunkOf(cs[q], q - p, nb, |pkts[n]|, bufsz, n) {
      ChunkAt(pkts, bufsz, n, q - p);
      PktChunk(pkts[n], n, bufsz, true, q - p);
    }
  }

  /** Taking over a packet adds its length to the bytes outstanding. */
  lemma {:induction false} AccountsTake(pkts: seq<seq<bv8>>, bufsz: nat, n: nat, read: nat, off: nat, pktDlen: int,
                                        delivered: seq<bv8>, inside: bool)
    requires bufsz > 0 && n < |pkts|
    requires Accounts(Chunks(pkts, bufsz), Base(pkts, bufsz, n), read, off, pktDlen, delivered, inside)
    ensures Accounts(Chunks(pkts, bufsz), Base(pkts, bufsz, n + 1), read, off, pktDlen + |pkts[n]|, delivered, inside)
  {
    var cs := Chunks(pkts, bufsz);
    ChunksStep(pkts, bufsz, n);
    BaseMonotone(pkts, bufsz, n, n + 1);
    ChunksPrefix(pkts, bufsz, n);
    ChunksPrefix(pkts, bufsz, n + 1);
    assert cs[..Base(pkts, bufsz, n)] == Chunks(pkts[..n], bufsz);
    assert cs[..Base(pkts, bufsz, n + 1)] == Chunks(pkts[..n + 1], bufsz);
    FlatConcat(Chunks(pkts[..n], bufsz), PktChunks(pkts[n], n, bufsz, true));
    PktFlat(pkts[n], n, bufsz, true);
  }

  /** The history after one completion is taken over. */
  function AfterTake(y: Sys, c: Cmpl): Sys
    requires Shape(y.rx) && BufsFor(c.len, y.rx.bufsz) <= |y.rx.fl.bufs|
  {
    y.(rx := TakeCmpl(y.rx, c), n := y.n + 1)
  }

  /** The entry at the consumer's place is the next packet's, and is accepted. */
  lemma {:induction false} NextEntryIs(y: Sys, r0: nat)
    requires RingsOk(y, r0) && y.n < |y.pkts|
    ensures var e := y.rx.cr.mem[y.rx.cr.cur];
            && e.color == y.rx.cr.color
            && e.val == Cmpl(false, false, true, |y.pkts[y.n]|)
  {
    hide FlOk, Chunks, Base, Released;
    ColorTestExact(y.rx.cr.mem, CmplLog(y.pkts), y.n);
  }

  lemma {:induction false} TakeRings(y: Sys, r0: nat)
    requires RingsOk(y, r0) && y.n < y.status
    ensures var c := Cmpl(false, false, true, |y.pkts[y.n]|);
            && BufsFor(c.len, y.rx.bufsz) <= |y.rx.fl.bufs|
            && !ClaimsUsed(y.rx.fl, y.rx.bufsz, c.len)
            && RingsOk(AfterTake(y, c), r0)
  {
    hide FlOk, Chunks, Base, Released, Claim, BufsFor, ClaimsUsed, PacketAt, CrOk;
    var len := |y.pkts[y.n]|;
    NextPacketAt(y.pkts, y.rx.bufsz, y.n);
    CrRoom(y, r0);
    NextCmplOk(y.rx.cr, y.pkts, y.n);
    ClaimOk(y.rx.fl, y.rx.bufsz, Stream(y), |y.rx.cr.mem|, r0, y.read, y.off, Taken0(y), len, y.n);
  }

  lemma {:induction false} CrRoom(y: Sys, r0: nat)
    requires RingsOk(y, r0)
    ensures CrOk(y.rx.cr, y.pkts, y.n) && y.n <= |y.pkts|
  {
  }

  lemma {:induction false} TakeKeeps(y: Sys, r0: nat)
    requires Core(y, r0) && y.n < y.status
    ensures var e := y.rx.cr.mem[y.rx.cr.cur];
            && !BadCmpl(e.val, y.rx.uddEn) && e.color == y.rx.cr.color
            && e.val == Cmpl(false, false, true, |y.pkts[y.n]|)
            && Core(AfterTake(y, e.val), r0)
  {
    hide RingsOk, Chunks, Base, Claim, BufsFor, ClaimsUsed, Accounts, NextCmpl;
    RingsFacts(y, r0);
    NextEntryIs(y, r0);
    TakeRings(y, r0);
    AccountsTake(y.pkts, y.rx.bufsz, y.n, y.read, y.off, y.rx.pktDlen, Delivered(y.log), y.inside);
  }

  lemma {:induction false} CollectStep(rx: Rx, budget: nat)
    requires Shape(rx) && budget > 0
    requires var e := rx.cr.mem[rx.cr.cur]; !BadCmpl(e.val, rx.uddEn) && e.color == rx.cr.color
    ensures var r := Collect(TakeCmpl(rx, rx.cr.mem[rx.cr.cur].val), budget - 1);
            Collect(rx, budget) == r.(cnt := r.cnt + 1)
  {
    hide TakeCmpl, BadCmpl, FlShape;
  }

  lemma {:induction false} CoreShape(y: Sys, r0: nat)
    requires Core(y, r0)
    ensures Shape(y.rx)
  {
  }

  /** The completion loop takes over exactly as many completions as it is allowed to. */
  lemma {:induction false} CollectKeeps(y: Sys, r0: nat, budget: nat)
    requires Core(y, r0) && budget <= y.status - y.n
    ensures Shape(y.rx)
    ensures var r := Collect(y.rx, budget);
            && !r.halted && r.cnt == budget
            && Core(y.(rx := r.rx, n := y.n + budget), r0)
    decreases budget
  {
    hide Core, TakeCmpl, BadCmpl, FlShape, ReadShape, Collect, BufsFor;
    CoreShape(y, r0);
    if budget > 0 {
      TakeKeeps(y, r0);
      CollectStep(y.rx, budget);
      var y1 := AfterTake(y, y.rx.cr.mem[y.rx.cr.cur].val);
      CollectKeeps(y1, r0, budget - 1);
      assert y1.(rx := Collect(y1.rx, budget - 1).rx, n := y1.n + (budget - 1)) ==
             y.(rx := Collect(y.rx, budget).rx, n := y.n + budget);
    } else {
      assert Collect(y.rx, 0) == Collected(y.rx, 0, false) by { CollectNone(y.rx); }
      assert y.(rx := y.rx, n := y.n + 0) == y;
    }
  }

  lemma {:induction false} CollectNone(rx: Rx)
    requires Shape(rx)
    ensures Collect(rx, 0) == Collected(rx, 0, false)
  {
  }

  /* ---- serving the waiting reads ---- */

  /** The history of `ServeReads`. */
  function AfterServe(y: Sys): (y': Sys)
    requires Shape(y.rx)
    decreases |y.rx.pend|
  {
    if y.rx.pend == [] then y
    else
      var rd := y.rx.pend[0];
      if rd.left == 0 then y.(rx := Finish(y.rx, rd, 0), filled := y.filled + [rd])
      else
        var r, y1 := ReadCore(y.rx, rd), AfterRead(y, rd);
        if r.rv < 0 then y1.(rx := Finish(r.rx, r.rd, r.rv))
        else if r.rd.left == 0 then AfterServe(y1.(rx := Finish(r.rx, r.rd, 0), filled := y1.filled + [r.rd]))
        else y1.(rx := r.rx.(pend := [r.rd] + r.rx.pend[1..]))
  }

  lemma {:induction false} FinishKeeps(y: Sys, r0: nat, rd: Read)
    requires Core(y, r0) && y.rx.pend != []
    ensures Core(y.(rx := Finish(y.rx, rd, 0), filled := y.filled + [rd]), r0)
  {
    hide CrOk, FlOk, Chunks, Base, Accounts, Released;
    assert RingsOk(y.(rx := Finish(y.rx, rd, 0), filled := y.filled + [rd]), r0);
  }

  lemma {:induction false} PutBack(y: Sys, r0: nat, rd: Read)
    requires Core(y, r0) && y.rx.pend != [] && Sane(rd) && rd.left > 0
    ensures Core(y.(rx := y.rx.(pend := [rd] + y.rx.pend[1..])), r0)
  {
    hide CrOk, FlOk, Chunks, Base, Accounts, Released;
    assert RingsOk(y.(rx := y.rx.(pend := [rd] + y.rx.pend[1..])), r0);
  }

  lemma {:induction false} ServeFacts(y: Sys, r0: nat)
    requires Core(y, r0)
    ensures Shape(y.rx) && y.n <= |y.pkts| && y.rx.bufsz > 0
    ensures y.rx.pend != [] ==>
              var rd := y.rx.pend[0];
              Sane(rd) && ReadShape(rd) && rd.left > 0 && rd.sgIdx < |rd.sg|
  {
    hide FlOk, CrOk, Accounts, FlShape, CrShape, Chunks, Base, Released;
    if y.rx.pend != [] {
      StillRoom(y.rx.pend[0]);
    }
  }

  lemma {:induction false} ServeKeeps(y: Sys, r0: nat)
    requires Core(y, r0)
    ensures var y' := AfterServe(y);
            && y'.rx == ServeReads(y.rx)
            && Core(y', r0)
            && y'.pkts == y.pkts && y'.n == y.n && y'.status == y.status
            && (y'.rx.pend != [] ==> y'.read == Taken0(y))
    decreases |y.rx.pend|
  {
    hide Core, ReadCore, AfterRead, Taken, Partial, FlShape, CrShape, ReadShape, Base;
    ServeFacts(y, r0);
    if y.rx.pend != [] {
      var rd := y.rx.pend[0];
      ReadKeeps(y, r0, rd);
      var r, y1 := ReadCore(y.rx, rd), AfterRead(y, rd);
      ReadCoreFields(y.rx, rd);
      assert y1.rx == r.rx by { AfterReadRx(y, rd); }
      if r.rd.left == 0 {
        FinishKeeps(y1, r0, r.rd);
        ServeKeeps(y1.(rx := Finish(r.rx, r.rd, 0), filled := y1.filled + [r.rd]), r0);
      } else {
        PutBack(y1, r0, r.rd);
      }
    }
  }

  lemma {:induction false} AfterReadRx(y: Sys, rd: Read)
    requires Shape(y.rx) && ReadShape(rd)
    ensures AfterRead(y, rd).rx == ReadCore(y.rx, rd).rx
  {
  }

  lemma {:induction false} StillRoom(rd: Read)
    requires Sane(rd) && rd.left > 0
    ensures rd.sgIdx < |rd.sg|
  {
  }

  /* ---- handing buffers back ---- */

  /** What a lock holder does before it lets go: the buffers read since slot `was` go back
      to the hardware. */
  function Handback(rx: Rx, was: nat): (rx': Rx)
    requires Shape(rx) && was < |rx.fl.bufs|
    ensures Shape(rx') && rx'.bufsz == rx.bufsz && rx'.pend == rx.pend && rx'.cr == rx.cr
    ensures |rx'.fl.bufs| == |rx.fl.bufs|
  {
    var fl := Refill(rx.fl, rx.bufsz, was, Delta(rx.fl.pidxPend, was, |rx.fl.bufs|));
    rx.(fl := fl, regPidx := Decr(fl.pidxPend, 1, |fl.bufs|), regCidx := rx.wrbPend)
  }

  lemma {:induction false} HandbackDelta(y: Sys, r0: nat)
    requires RingsOk(y, r0)
    ensures r0 <= y.read && y.rx.fl.pidxPend == Slot(y.read, |y.rx.fl.bufs|)
    ensures Delta(y.rx.fl.pidxPend, Slot(r0, |y.rx.fl.bufs|), |y.rx.fl.bufs|) == y.read - r0
  {
    var fl := y.rx.fl;
    assert r0 <= y.read < r0 + |fl.bufs| && fl.pidxPend == Slot(y.read, |fl.bufs|);
    hide FlOk, CrOk, Chunks, Base, Released, FlShape, CrShape;
    SlotDelta(y.read, r0, |fl.bufs|);
  }

  /** Only the free list and the registers have changed. */
  lemma {:induction false} RingsFrame(y: Sys, rx': Rx, r0: nat, r1: nat)
    requires RingsOk(y, r0)
    requires rx' == y.rx.(fl := rx'.fl, regPidx := rx'.regPidx, regCidx := rx'.regCidx)
    requires FlShape(rx'.fl, y.rx.bufsz) && |rx'.fl.bufs| == |y.rx.fl.bufs|
    requires FlOk(rx'.fl, y.rx.bufsz, Stream(y), |y.rx.cr.mem|, r1, y.read, y.off, Taken0(y))
    ensures RingsOk(y.(rx := rx'), r1)
  {
    hide FlOk, CrOk, Chunks, Base, Released, FlShape, CrShape, ReadShape;
  }

  lemma {:induction false} RingsFacts(y: Sys, r0: nat)
    requires RingsOk(y, r0)
    ensures Shape(y.rx) && y.rx.fl.pidxPend < |y.rx.fl.bufs| && |y.rx.cr.mem| > 0
    ensures y.n <= y.status <= |y.pkts|
    ensures FlOk(y.rx.fl, y.rx.bufsz, Stream(y), |y.rx.cr.mem|, r0, y.read, y.off, Taken0(y))
  {
  }

  lemma {:induction false} HandbackRings(y: Sys, r0: nat)
    requires RingsOk(y, r0)
    ensures RingsOk(y.(rx := Handback(y.rx, Slot(r0, |y.rx.fl.bufs|))), y.read)
  {
    hide RingsOk, FlOk, CrOk, Chunks, Base, Released, FlShape, CrShape, ReadShape, Refill;
    var fl, bufsz := y.rx.fl, y.rx.bufsz;
    RingsFacts(y, r0);
    HandbackDelta(y, r0);
    RefillOk(fl, bufsz, Stream(y), |y.rx.cr.mem|, r0, y.read, y.off, Taken0(y));
    RingsFrame(y, Handback(y.rx, Slot(r0, |fl.bufs|)), r0, y.read);
  }

  lemma {:induction false} HandbackRegs(y: Sys, r0: nat)
    requires RingsOk(y, r0)
    ensures RegsOk(Handback(y.rx, Slot(r0, |y.rx.fl.bufs|)), y.read)
  {
    HandbackDelta(y, r0);
    SlotDecr(y.read, 1, |y.rx.fl.bufs|);
    hide RingsOk;
  }

  lemma {:induction false} HandbackKeeps(y: Sys, r0: nat)
    requires Core(y, r0)
    ensures Inv(y.(rx := Handback(y.rx, Slot(r0, |y.rx.fl.bufs|))))
  {
    HandbackRings(y, r0);
    HandbackRegs(y, r0);
    hide RingsOk, Chunks, Base, Accounts, RegsOk;
  }

  /* ---- one completion service ---- */

  /** The history after a service call; without a waiting read nothing is done. */
  function AfterService(y: Sys, budget: nat): (y': Sys)
    requires Shape(y.rx)
  {
    var rx := y.rx;
    var waiting := Delta(Slot(y.status, |rx.cr.mem|), rx.cr.cidx, |rx.cr.mem|);
    if rx.pend == [] || waiting == 0 then y
    else
      var a := Allowance(budget, waiting);
      AfterServe(y.(rx := Collect(rx, a).rx, n := y.n + a)).(
        rx := ServiceRx(rx, Slot(y.status, |rx.cr.mem|), budget))
  }

  /** The driver's view of the reported index is exact. */
  lemma {:induction false} WaitingIs(y: Sys, r0: nat)
    requires RingsOk(y, r0)
    ensures Rel(y) <= y.n && y.status < y.n + |y.rx.cr.mem|
    ensures Delta(Slot(y.status, |y.rx.cr.mem|), y.rx.cr.cidx, |y.rx.cr.mem|) == y.status - y.n
  {
    var cs, bufsz := Stream(y), y.rx.bufsz;
    assert Positions(y.rx.fl, cs, r0, y.read, y.off, Taken0(y));
    hide FlOk, CrShape, FlShape;
    ReleasedIs(y.pkts, bufsz, y.read);
    if y.n < Rel(y) {
      BaseMonotone(y.pkts, bufsz, y.n, Rel(y));
    }
    SlotDelta(y.status, y.n, |y.rx.cr.mem|);
  }

  lemma {:induction false} ServiceIs(rx: Rx, status: nat, budget: nat, a: nat)
    requires Shape(rx) && status < |rx.cr.mem| && !rx.err && rx.pend != []
    requires a == Allowance(budget, Delta(status, rx.cr.cidx, |rx.cr.mem|)) > 0
    requires var r := Collect(rx, a); !r.halted && r.cnt == a
    ensures var t := ServeReads(Collect(rx, a).rx);
            && rx.fl.pidxPend < |t.fl.bufs|
            && (t.fl.pidxPend == rx.fl.pidxPend ==> ServiceRx(rx, status, budget) == t.(regCidx := t.wrbPend))
            && (t.fl.pidxPend != rx.fl.pidxPend ==> ServiceRx(rx, status, budget) == Handback(t, rx.fl.pidxPend))
  {
    hide Collect, ServeReads, Refill, CrShape, ReadShape;
  }

  lemma {:induction false} AfterServiceIs(y: Sys, budget: nat)
    requires Shape(y.rx)
    requires Delta(Slot(y.status, |y.rx.cr.mem|), y.rx.cr.cidx, |y.rx.cr.mem|) > 0 && y.rx.pend != []
    ensures var a := Allowance(budget, Delta(Slot(y.status, |y.rx.cr.mem|), y.rx.cr.cidx, |y.rx.cr.mem|));
            AfterService(y, budget) == AfterServe(y.(rx := Collect(y.rx, a).rx, n := y.n + a)).(
              rx := ServiceRx(y.rx, Slot(y.status, |y.rx.cr.mem|), budget))
  {
    hide Collect, ServiceRx, AfterServe, Allowance, CrShape, FlShape;
  }

  /** Nothing was read, so nothing needs to be handed back. */
  lemma {:induction false} NothingBack(y: Sys, r0: nat)
    requires Core(y, r0) && y.rx.fl.pidxPend == Slot(r0, |y.rx.fl.bufs|)
    requires y.rx.regPidx == Slot(r0 + |y.rx.fl.bufs| - 1, |y.rx.fl.bufs|)
    ensures y.read == r0 && Inv(y.(rx := y.rx.(regCidx := y.rx.wrbPend)))
  {
    hide RingsOk, FlShape, CrShape, FlOk, Accounts, Chunks, Base;
    HandbackDelta(y, r0);
    RingsFacts(y, r0);
    var rx' := y.rx.(regCidx := y.rx.wrbPend);
    RingsFrame(y, rx', r0, r0);
    assert BytesOk(y.(rx := rx'));
  }

  lemma {:induction false} ServeRegs(rx: Rx)
    requires Shape(rx)
    ensures ServeReads(rx).regPidx == rx.regPidx && ServeReads(rx).bufsz == rx.bufsz
    decreases |rx.pend|
  {
    hide FlShape, CrShape, Copy, Sources, Bytes, Consume, LastEop;
    if rx.pend != [] && rx.pend[0].left != 0 {
      var r := ReadCore(rx, rx.pend[0]);
      if r.rv >= 0 && r.rd.left == 0 {
        ServeRegs(Finish(r.rx, r.rd, 0));
      }
    }
  }

  lemma {:induction false} CollectRegs(rx: Rx, budget: nat)
    requires Shape(rx)
    ensures Collect(rx, budget).rx.regPidx == rx.regPidx
    decreases budget
  {
    hide FlShape, BufsFor, Claim, ClaimsUsed;
    if budget > 0 && !BadCmpl(rx.cr.mem[rx.cr.cur].val, rx.uddEn) && rx.cr.mem[rx.cr.cur].color == rx.cr.color {
      CollectRegs(TakeCmpl(rx, rx.cr.mem[rx.cr.cur].val), budget - 1);
    }
  }

  /** The end of a service call. */
  lemma {:induction false} ServiceEnds(y: Sys, r0: nat, rx': Rx)
    requires Core(y, r0) && y.rx.regPidx == Slot(r0 + |y.rx.fl.bufs| - 1, |y.rx.fl.bufs|)
    requires rx' == if y.rx.fl.pidxPend == Slot(r0, |y.rx.fl.bufs|) then y.rx.(regCidx := y.rx.wrbPend)
                    else Handback(y.rx, Slot(r0, |y.rx.fl.bufs|))
    ensures Inv(y.(rx := rx'))
    ensures rx'.pend == y.rx.pend && rx'.bufsz == y.rx.bufsz
  {
    hide Inv, Core, Refill;
    if y.rx.fl.pidxPend == Slot(r0, |y.rx.fl.bufs|) {
      NothingBack(y, r0);
    } else {
      HandbackKeeps(y, r0);
    }
  }

  /** Completions are taken over, and the waiting reads served. */
  lemma {:induction false} ServiceMiddle(y: Sys, r0: nat, a: nat)
    requires Core(y, r0) && a <= y.status - y.n
    requires y.rx.regPidx == Slot(r0 + |y.rx.fl.bufs| - 1, |y.rx.fl.bufs|)
    ensures Shape(y.rx) && !Collect(y.rx, a).halted && Collect(y.rx, a).cnt == a
    ensures var y2 := AfterServe(y.(rx := Collect(y.rx, a).rx, n := y.n + a));
            && Core(y2, r0) && y2.rx == ServeReads(Collect(y.rx, a).rx)
            && |y2.rx.fl.bufs| == |y.rx.fl.bufs| && y2.rx.regPidx == y.rx.regPidx
            && y2.pkts == y.pkts && y2.n == y.n + a <= |y2.pkts| && y2.status == y.status && y2.rx.bufsz > 0
            && (y2.rx.pend != [] ==> y2.read == Taken0(y2))
  {
    CollectKeeps(y, r0, a);
    CollectRegs(y.rx, a);
    var y1 := y.(rx := Collect(y.rx, a).rx, n := y.n + a);
    ServeKeeps(y1, r0);
    ServeRegs(y1.rx);
    hide FlShape, ReadShape, FlOk, CrOk, Collect, ServeReads, AfterServe, Base, Chunks, Accounts;
  }

  /** Where the queue stands between serving the reads and handing the buffers back. */
  function BeforeHandback(y: Sys, a: nat): Sys
    requires Shape(y.rx)
  {
    AfterServe(y.(rx := Collect(y.rx, a).rx, n := y.n + a))
  }

  lemma {:induction false} ServiceConclude(y: Sys, y2: Sys, r0: nat, rx': Rx)
    requires Core(y2, r0) && y2.rx.regPidx == Slot(r0 + |y2.rx.fl.bufs| - 1, |y2.rx.fl.bufs|)
    requires y.rx.fl.pidxPend == Slot(r0, |y2.rx.fl.bufs|)
    requires y2.rx.fl.pidxPend == y.rx.fl.pidxPend ==> rx' == y2.rx.(regCidx := y2.rx.wrbPend)
    requires y2.rx.fl.pidxPend != y.rx.fl.pidxPend ==> rx' == Handback(y2.rx, y.rx.fl.pidxPend)
    ensures Inv(y2.(rx := rx')) && rx'.bufsz == y2.rx.bufsz && rx'.pend == y2.rx.pend
  {
    hide Inv, Core, Handback;
    ServiceEnds(y2, r0, rx');
  }

  lemma {:induction false} CoreFacts(y: Sys, r0: nat)
    requires Core(y, r0)
    ensures Shape(y.rx) && y.rx.cr.cidx < |y.rx.cr.mem| && !y.rx.err && y.n <= y.status <= |y.pkts|
    ensures y.rx.fl.pidxPend < |y.rx.fl.bufs| && y.rx.bufsz > 0
  {
  }

  /** A service call that finds a waiting read and unseen completions. */
  lemma {:induction false} ServiceTakes(y: Sys, budget: nat, slot: nat, a: nat)
    requires Core(y, y.read) && y.rx.regPidx == Slot(y.read + |y.rx.fl.bufs| - 1, |y.rx.fl.bufs|)
    requires y.rx.pend != [] && slot < |y.rx.cr.mem|
    requires a == Allowance(budget, Delta(slot, y.rx.cr.cidx, |y.rx.cr.mem|)) > 0 && a <= y.status - y.n
    ensures var y2, rx' := BeforeHandback(y, a), ServiceRx(y.rx, slot, budget);
            && Inv(y2.(rx := rx')) && rx'.bufsz == y2.rx.bufsz && rx'.pend == y2.rx.pend
  {
    hide Inv, Core, Shape, Collect, ServeReads, AfterServe, ServiceRx, Handback, Allowance, Slot, Delta;
    CoreFacts(y, y.read);
    ServiceMiddle(y, y.read, a);
    HandbackDelta0(y, y.read);
    ServiceIs(y.rx, slot, budget, a);
    ServiceConclude(y, BeforeHandback(y, a), y.read, ServiceRx(y.rx, slot, budget));
  }

  lemma {:induction false} HandbackDelta0(y: Sys, r0: nat)
    requires Core(y, r0)
    ensures y.rx.fl.pidxPend == Slot(y.read, |y.rx.fl.bufs|)
  {
    HandbackDelta(y, r0);
  }

  /** When every buffer taken over is read, no byte is outstanding. */
  lemma {:induction false} AllRead(y: Sys)
    requires Inv(y) && y.rx.bufsz > 0 && y.n <= |y.pkts| && y.read == Taken0(y)
    ensures y.off == 0 && y.rx.pktDlen == 0
  {
    hide UnreadFrom, CleanFrom, LoadedFrom, CrOk, FlShape, CrShape, ReadsOk, Released, Flat;
  }

  lemma {:induction false} ServiceIdle(rx: Rx, status: nat, budget: nat)
    requires Shape(rx) && status < |rx.cr.mem|
    requires rx.pend == [] || Delta(status, rx.cr.cidx, |rx.cr.mem|) == 0
    ensures ServiceRx(rx, status, budget) == rx
  {
    hide FlShape, CrShape, Collect, ServeReads;
  }

  /** MAIN RESULT on a service call: with a read waiting it takes over exactly as many
      completions as were reported, up to the budget, where a budget of 0 means no limit;
      without one it takes none; and if
      a read still waits afterwards, everything taken over has been read. */
  lemma {:induction false} ServiceKeeps(y: Sys, budget: nat)
    requires Inv(y)
    ensures var y' := AfterService(y, budget);
            && y'.rx == ServiceRx(y.rx, Slot(y.status, |y.rx.cr.mem|), budget)
            && Inv(y')
            && y.n <= y'.n <= y.status
            && (y.rx.pend == [] ==> y'.n == y.n)
            && (y.rx.pend != [] && (budget == 0 || budget >= y.status - y.n) ==> y'.n == y.status)
            && (y.rx.pend != [] && 0 < budget < y.status - y.n ==> y'.n == y.n + budget)
            && y'.pkts == y.pkts
            && (y'.n > y.n && y'.rx.pend != [] ==> y'.read == Taken0(y') && y'.rx.pktDlen == 0)
  {
    hide FlShape, CrShape, ReadShape, RingsOk, BytesOk, ReadsOk, Collect, ServeReads, AfterServe, ServiceRx;
    CoreFacts(y, y.read);
    WaitingIs(y, y.read);
    if y.rx.pend != [] && y.status != y.n {
      var slot, a := Slot(y.status, |y.rx.cr.mem|), Allowance(budget, y.status - y.n);
      ServiceTakes(y, budget, slot, a);
      ServiceMiddle(y, y.read, a);
      AfterServiceIs(y, budget);
      if AfterService(y, budget).rx.pend != [] {
        AllRead(AfterService(y, budget));
      }
    } else {
      ServiceIdle(y.rx, Slot(y.status, |y.rx.cr.mem|), budget);
    }
  }

  /* ---- a read is submitted ---- */

  /** A new request: its count is the size of its target list. */
  predicate Fresh(rd: Read)
  {
    Sane(rd) && rd.left == rd.count && rd.sgIdx == 0 && rd.sgOff == 0
  }

  /** The history after the first half of a submission. */
  function AfterSubmit(y: Sys, rd: Read): (y': Sys)
    requires Shape(y.rx) && ReadShape(rd)
    ensures Shape(y'.rx)
  {
    var r := ReadNow(y.rx, rd);
    var y1 := AfterRead(y, rd).(rx := r.rx);
    if r.rd.left == 0 then y1.(filled := y1.filled + [r.rd]) else y1.(limbo := y1.limbo + [r.rd])
  }

  lemma {:induction false} ReadNowIs(y: Sys, rd: Read)
    requires Inv(y) && Fresh(rd)
    ensures Shape(y.rx) && ReadNow(y.rx, rd).rd == ReadCore(y.rx, rd).rd
    ensures var rx', was := ReadNow(y.rx, rd).rx, y.rx.fl.pidxPend;
            rx' == if Sources(y.rx.fl, y.rx.bufsz) == [] then y.rx else Handback(ReadCore(y.rx, rd).rx, was)
  {
    hide FlOk, CrOk, Accounts, FlShape, CrShape, Sources, Chunks, Base, Released, Copy, Bytes, LastEop, NewBytes, Consume, Delta;
    ReadRings(y, y.read, rd);
    HandbackDelta(AfterRead(y, rd), y.read);
    HandbackDelta(y, y.read);
    ReadIs(y.rx, rd);
  }

  /** Reading when there is nothing to read changes nothing. */
  lemma {:induction false} ReadNothing(y: Sys, rd: Read)
    requires Inv(y) && Sane(rd) && Shape(y.rx) && Sources(y.rx.fl, y.rx.bufsz) == []
    ensures var y' := AfterRead(y, rd);
            && ReadCore(y.rx, rd).rd == rd && y'.rx == y.rx && y'.read == y.read
  {
    hide Inv, FlShape, CrShape, Copy, Bytes, LastEop, NewBytes, Consume, Delta, Sources;
  }

  /** The read waits for more data, or is complete. */
  lemma {:induction false} Shelve(y: Sys, rd: Read)
    requires Inv(y) && Sane(rd)
    ensures Inv(y.(filled := y.filled + [rd]))
    ensures rd.left > 0 ==> Inv(y.(limbo := y.limbo + [rd]))
  {
    hide FlOk, CrOk, Accounts, FlShape, CrShape, Chunks, Base, Released;
  }

  lemma {:induction false} SubmitKeeps(y: Sys, rd: Read)
    requires Inv(y) && Fresh(rd)
    ensures Shape(y.rx) && Inv(AfterSubmit(y, rd))
  {
    hide Inv, Core, Shape, ReadCore, ReadNow, Sources, Handback, AfterRead;
    ReadNowIs(y, rd);
    InvCore(y);
    ReadKeeps(y, y.read, rd);
    AfterReadRx(y, rd);
    var r, y1 := ReadCore(y.rx, rd), AfterRead(y, rd);
    HandbackDelta0(y, y.read);
    if Sources(y.rx.fl, y.rx.bufsz) == [] {
      ReadNothing(y, rd);
      CoreInv(y1, y);
    } else {
      HandbackKeeps(y1, y.read);
    }
    Shelve(y1.(rx := ReadNow(y.rx, rd).rx), r.rd);
  }

  lemma {:induction false} InvCore(y: Sys)
    requires Inv(y)
    ensures Core(y, y.read) && Shape(y.rx)
  {
  }

  lemma {:induction false} CoreInv(y': Sys, y: Sys)
    requires Inv(y) && Core(y', y.read) && y'.rx == y.rx && y'.read == y.read
    ensures Inv(y')
  {
    hide Core;
    InvCore(y);
  }

  /** The second half of a submission: the read joins the waiting ones. */
  function AfterEnqueue(y: Sys, k: nat): (y': Sys)
    requires Shape(y.rx) && k < |y.limbo| && ReadShape(y.limbo[k])
    ensures Shape(y'.rx)
  {
    y.(rx := Enqueue(y.rx, y.limbo[k]), limbo := y.limbo[..k] + y.limbo[k + 1..], joined := y.joined + [Joined(y.limbo[k].id, y.limbo[k].async, y.limbo[k].count)])
  }

  lemma {:induction false} EnqueueKeeps(y: Sys, k: nat)
    requires Inv(y) && k < |y.limbo|
    ensures Shape(y.rx) && ReadShape(y.limbo[k]) && Inv(AfterEnqueue(y, k))
  {
    hide FlOk, CrOk, Accounts, FlShape, CrShape, Chunks, Base, Released;
  }
}
