/** What holds in every state that a receive queue can reach.

    `Exec(pages, bufsz, wsz, uddEn, steps)` is the state after an arbitrary sequence of
    steps: packets and reports by the hardware, service calls with any budget, and reads
    submitted in two halves, in any order.
 */
module ReceiveTheorems {
  import opened RingIndex
  import opened PhaseRing
  import opened ReceiveSpec
  import opened ReceiveCopy
  import opened ReceiveStream
  import opened ReceiveRings
  import opened ReceiveRuns
  import opened ReceiveHardware

  predicate Pages(pages: seq<seq<bv8>>, bufsz: nat, wsz: nat)
  {
    pages != [] && bufsz > 0 && wsz > 0 && forall s :: 0 <= s < |pages| ==> |pages[s]| == bufsz
  }

  /* ---- bytes ---- */

  /** The buffers of the first `n` packets hold the payloads of the first `n` packets. */
  lemma {:induction false} TakenIsPayload(y: Sys)
    requires y.rx.bufsz > 0 && y.n <= |y.pkts|
    ensures Taken0(y) <= |Stream(y)|
    ensures Flat(Stream(y)[..Taken0(y)]) == Payload(y.pkts[..y.n])
    ensures Payload(y.pkts[..y.n]) <= Payload(y.pkts)
  {
    ChunksPrefix(y.pkts, y.rx.bufsz, y.n);
    assert Stream(y)[..Taken0(y)] == Chunks(y.pkts[..y.n], y.rx.bufsz);
    FlatIsPayload(y.pkts[..y.n], y.rx.bufsz);
    FlatIsPayload(y.pkts, y.rx.bufsz);
    FlatPrefix(Stream(y), Taken0(y));
  }

  lemma {:induction false} StreamAndAccounts(y: Sys)
    requires Inv(y)
    ensures y.n <= |y.pkts|
    ensures |Delivered(y.log)| + y.rx.pktDlen == |Payload(y.pkts[..y.n])|
    ensures !y.inside ==> Delivered(y.log) <= Payload(y.pkts)
  {
    hide Chunks, Base, Released, CrOk, FlOk, FlShape, CrShape, Flat, Payload, Delivered;
    TakenIsPayload(y);
    FlatPrefix(Stream(y), y.read);
    FlatIsPayload(y.pkts, y.rx.bufsz);
  }

  /** The counter of outstanding bytes is the sum of the lengths of the unread buffers. */
  lemma {:induction false} OutstandingBytes(y: Sys)
    requires Inv(y)
    ensures Shape(y.rx) && y.rx.pktDlen == |Bytes(Sources(y.rx.fl, y.rx.bufsz))|
  {
    hide Chunks, Base, Released, CrOk, FlShape, CrShape, Flat, Sources, Bytes, UnreadFrom, CleanFrom, LoadedFrom, Delivered;
    var src, cs, p := Sources(y.rx.fl, y.rx.bufsz), Stream(y), Taken0(y);
    SourcesAre(y.rx.fl, y.rx.bufsz, cs, |y.rx.cr.mem|, y.read, y.read, y.off, p);
    TakenBytes(cs, src, y.read, y.off, |src|);
    assert src[..|src|] == src;
  }

  /** MAIN RESULT on bytes.  In every reachable state the bytes delivered and the bytes
      outstanding add up to the packets taken over; `pkt_dlen` is the total length of the
      unread buffers; and unless some read has ended inside a buffer, the bytes delivered
      to successive reads are a prefix of the packet payloads in completion order. */
  lemma {:induction false} BytesArriveInOrder(pages: seq<seq<bv8>>, bufsz: nat, wsz: nat, uddEn: bool, steps: seq<Step>)
    requires Pages(pages, bufsz, wsz)
    ensures var y := Exec(pages, bufsz, wsz, uddEn, steps);
            && Shape(y.rx) && y.n <= |y.pkts|
            && |Delivered(y.log)| + y.rx.pktDlen == |Payload(y.pkts[..y.n])|
            && y.rx.pktDlen == |Bytes(Sources(y.rx.fl, y.rx.bufsz))|
            && (!y.inside ==> Delivered(y.log) <= Payload(y.pkts))
  {
    hide Inv, Exec, Shape, Sources, Bytes, Payload, Delivered;
    var y := Exec(pages, bufsz, wsz, uddEn, steps);
    StreamAndAccounts(y);
    OutstandingBytes(y);
  }

  /* ---- the free list ---- */

  /** Slot `s` is `d` places ahead of the read position. */
  lemma {:induction false} BufferAt(y: Sys, s: nat)
    requires Inv(y) && s < |y.rx.fl.bufs|
    ensures y.rx.fl.pidx < |y.rx.fl.bufs| && y.rx.fl.pidxPend < |y.rx.fl.bufs|
    ensures var sz := |y.rx.fl.bufs|;
            var inUse := Delta(s, y.rx.fl.pidxPend, sz) < Delta(y.rx.fl.pidx, y.rx.fl.pidxPend, sz);
            && y.rx.fl.avail + Delta(y.rx.fl.pidx, y.rx.fl.pidxPend, sz) == sz - 1
            && (y.rx.fl.bufs[s].valid <==> inUse)
            && (!inUse ==> Clean(y.rx.fl.bufs[s], y.rx.bufsz))
  {
    hide Chunks, Base, Released, CrOk, CrShape, Accounts, LoadedFrom, Slot, Delta;
    var sz, p := |y.rx.fl.bufs|, Taken0(y);
    AheadOfRead(y.rx.fl, Stream(y), y.read, y.read, y.off, p, 0);
    var q := SlotOf(y.read, s, sz);
    if q < p {
      assert Unread(y.rx.fl.bufs[Slot(q, sz)], Stream(y)[q], if q == y.read then y.off else 0, |y.rx.cr.mem|);
    } else {
      assert Clean(y.rx.fl.bufs[Slot(q, sz)], y.rx.bufsz);
    }
  }

  /** The hardware stores into clean buffers only. */
  lemma {:induction false} ExposedIsClean(y: Sys, s: nat)
    requires Inv(y) && s < |y.rx.fl.bufs|
    ensures y.rx.bufsz > 0 && y.rx.regPidx < |y.rx.fl.bufs|
    ensures var sz, h := |y.rx.fl.bufs|, Slot(|Stream(y)|, |y.rx.fl.bufs|);
            Delta(s, h, sz) < Delta(y.rx.regPidx, h, sz) ==> Clean(y.rx.fl.bufs[s], y.rx.bufsz)
  {
    hide Chunks, Base, Released, CrOk, CrShape, Accounts, LoadedFrom, UnreadFrom, Slot, Delta;
    var sz, h := |y.rx.fl.bufs|, |Stream(y)|;
    SlotDelta(y.read + sz - 1, h, sz);
    var q := SlotOf(h, s, sz);
    if q < y.read + sz - 1 {
      assert Clean(y.rx.fl.bufs[Slot(q, sz)], y.rx.bufsz);
    }
  }

  /** MAIN RESULT on the free list.  In every reachable state `avail` and the buffers in
      use make up the ring less one; a buffer is marked valid if and only if it lies
      between the read position and the take-over position; every other buffer is clean;
      no packet was ever stored over a valid buffer (the `WARN_ON` has not fired); and the
      buffers the posted index exposes to the hardware are clean. */
  lemma {:induction false} FreeListIsSafe(pages: seq<seq<bv8>>, bufsz: nat, wsz: nat, uddEn: bool, steps: seq<Step>, s: nat)
    requires Pages(pages, bufsz, wsz)
    requires s < |Exec(pages, bufsz, wsz, uddEn, steps).rx.fl.bufs|
    ensures var y := Exec(pages, bufsz, wsz, uddEn, steps);
            var fl, sz := y.rx.fl, |y.rx.fl.bufs|;
            && fl.pidx < sz && fl.pidxPend < sz && y.rx.bufsz > 0 && y.rx.regPidx < sz
            && fl.avail + Delta(fl.pidx, fl.pidxPend, sz) == sz - 1
            && (fl.bufs[s].valid <==> Delta(s, fl.pidxPend, sz) < Delta(fl.pidx, fl.pidxPend, sz))
            && (!fl.bufs[s].valid ==> Clean(fl.bufs[s], y.rx.bufsz))
            && !y.rx.warned
            && (var h := Slot(|Stream(y)|, sz);
                Delta(s, h, sz) < Delta(y.rx.regPidx, h, sz) ==> Clean(fl.bufs[s], y.rx.bufsz))
  {
    hide RingsOk, BytesOk, Exec, Stream, Clean, Slot, Delta;
    var y := Exec(pages, bufsz, wsz, uddEn, steps);
    BufferAt(y, s);
    ExposedIsClean(y, s);
  }

  /* ---- completions ---- */

  lemma {:induction false} ConsumerIsExact(y: Sys)
    requires Inv(y)
    ensures var cr, W := y.rx.cr, |y.rx.cr.mem|;
            && W > 0
            && y.n <= |y.pkts| < y.n + W
            && cr.cidx == cr.cur == Slot(y.n, W) && cr.color == Phase(y.n, W)
            && (cr.mem[cr.cur].color == cr.color <==> y.n < |y.pkts|)
            && (y.n < |y.pkts| ==> cr.mem[cr.cur].val == Cmpl(false, false, true, |y.pkts[y.n]|))
  {
    hide Chunks, Base, Released, FlOk, FlShape, CrShape, Accounts;
    WaitingIs(y, y.read);
    ColorTestExact(y.rx.cr.mem, CmplLog(y.pkts), y.n);
  }

  /** MAIN RESULT on the completion ring.  In every reachable state the wrapped index, the
      colour and the entry pointer stand for one count `n`; the colour test at that place
      holds if and only if the hardware has written entry `n`; and the entry is then that
      of packet `n`. */
  lemma {:induction false} CompletionsAreExact(pages: seq<seq<bv8>>, bufsz: nat, wsz: nat, uddEn: bool, steps: seq<Step>)
    requires Pages(pages, bufsz, wsz)
    ensures var y := Exec(pages, bufsz, wsz, uddEn, steps);
            var cr, W := y.rx.cr, |y.rx.cr.mem|;
            && W > 0
            && y.n <= |y.pkts| < y.n + W
            && cr.cidx == cr.cur == Slot(y.n, W) && cr.color == Phase(y.n, W)
            && (cr.mem[cr.cur].color == cr.color <==> y.n < |y.pkts|)
            && (y.n < |y.pkts| ==> cr.mem[cr.cur].val == Cmpl(false, false, true, |y.pkts[y.n]|))
  {
    hide Inv, Exec, Slot, Phase;
    ConsumerIsExact(Exec(pages, bufsz, wsz, uddEn, steps));
  }

  /** MAIN RESULT on service over runs.  While a read waits, a service without a limit, or
      with one that reaches, leaves no reported completion behind, and a smaller limit is
      used up; if a read still waits afterwards, every byte taken over so far has been
      delivered.  Without a waiting read nothing is taken over. */
  lemma {:induction false} ServiceCatchesUp(pages: seq<seq<bv8>>, bufsz: nat, wsz: nat, uddEn: bool, steps: seq<Step>, budget: nat)
    requires Pages(pages, bufsz, wsz)
    ensures var y, y' := Exec(pages, bufsz, wsz, uddEn, steps), Exec(pages, bufsz, wsz, uddEn, steps + [Service(budget)]);
            && y'.pkts == y.pkts && y'.status == y.status && y.n <= y'.n <= y.status <= |y.pkts|
            && (y.rx.pend == [] ==> y' == y)
            && (y.rx.pend != [] && (budget == 0 || budget >= y.status - y.n) ==> y'.n == y.status)
            && (y.rx.pend != [] && 0 < budget < y.status - y.n ==> y'.n == y.n + budget)
            && (y'.n > y.n && y'.rx.pend != [] ==> |Delivered(y'.log)| == |Payload(y.pkts[..y'.n])|)
  {
    hide Inv, Exec, AfterService, Payload, Delivered, Shape, Moves;
    var y, y' := Exec(pages, bufsz, wsz, uddEn, steps), Exec(pages, bufsz, wsz, uddEn, steps + [Service(budget)]);
    ExecStep(pages, bufsz, wsz, uddEn, steps, Service(budget));
    Registers(y);
    ServiceKeeps(y, budget);
    InvCore(y);
    CoreFacts(y, y.read);
    ServiceStatus(y, budget);
    StreamAndAccounts(y');
  }

  lemma {:induction false} ServiceStatus(y: Sys, budget: nat)
    requires Inv(y)
    ensures Shape(y.rx) && AfterService(y, budget).status == y.status
    ensures y.rx.pend == [] ==> AfterService(y, budget) == y
  {
    hide Core, FlShape, CrShape, ReadShape, Collect, ServeReads, AfterServe, ServiceRx, Slot, Delta;
    InvCore(y);
    CoreFacts(y, y.read);
    WaitingIs(y, y.read);
    if y.rx.pend != [] && y.status != y.n {
      var a := Allowance(budget, y.status - y.n);
      AfterServiceIs(y, budget);
      CollectKeeps(y, y.read, a);
      ServeKeeps(y.(rx := Collect(y.rx, a).rx, n := y.n + a), y.read);
    }
  }

  /** With user data enabled, every completion processed is counted once. */
  lemma {:induction false} UserDataIsCounted(rx: Rx, budget: nat)
    requires Shape(rx)
    ensures var r := Collect(rx, budget);
            r.rx.uddEn == rx.uddEn && r.rx.uddCnt == rx.uddCnt + (if rx.uddEn then r.cnt else 0)
    decreases budget
  {
    hide FlShape, BufsFor, Claim, ClaimsUsed;
    if budget > 0 && !BadCmpl(rx.cr.mem[rx.cr.cur].val, rx.uddEn) && rx.cr.mem[rx.cr.cur].color == rx.cr.color {
      UserDataIsCounted(TakeCmpl(rx, rx.cr.mem[rx.cr.cur].val), budget - 1);
    }
  }

  /* ---- release ---- */

  lemma {:induction false} ReleasedAreRead(y: Sys)
    requires Inv(y)
    ensures y.rx.bufsz > 0 && y.read <= |Stream(y)| && |y.rx.cr.mem| > 0
    ensures Rel(y) <= y.n <= |y.pkts|
    ensures y.rx.regCidx == y.rx.wrbPend == Slot(Rel(y), |y.rx.cr.mem|)
    ensures Base(y.pkts, y.rx.bufsz, Rel(y)) <= y.read
    ensures Rel(y) < |y.pkts| ==> y.read < Base(y.pkts, y.rx.bufsz, Rel(y) + 1)
    ensures |Payload(y.pkts[..Rel(y)])| <= |Delivered(y.log)|
  {
    hide Chunks, Base, Released, FlOk, CrOk, FlShape, CrShape, Flat, Payload, Delivered;
    WaitingIs(y, y.read);
    ReleasedIs(y.pkts, y.rx.bufsz, y.read);
    ChunksPrefix(y.pkts, y.rx.bufsz, Rel(y));
    BaseIs(y.pkts, y.rx.bufsz, Rel(y));
    assert Stream(y)[..Base(y.pkts, y.rx.bufsz, Rel(y))] == Chunks(y.pkts[..Rel(y)], y.rx.bufsz);
    FlatIsPayload(y.pkts[..Rel(y)], y.rx.bufsz);
    FlatMonotone(Stream(y), Base(y.pkts, y.rx.bufsz, Rel(y)), y.read);
  }

  lemma {:induction false} BaseIs(pkts: seq<seq<bv8>>, bufsz: nat, k: nat)
    requires bufsz > 0 && k <= |pkts|
    ensures Base(pkts, bufsz, k) == |Chunks(pkts[..k], bufsz)|
  {
  }

  /** Nothing that has happened is undone. */
  predicate Moves(y: Sys, y': Sys)
  {
    && y'.rx.bufsz == y.rx.bufsz && |y'.rx.fl.bufs| == |y.rx.fl.bufs| && |y'.rx.cr.mem| == |y.rx.cr.mem|
    && y.pkts <= y'.pkts && y.n <= y'.n && y.read <= y'.read && y.status <= y'.status && y.log <= y'.log
  }

  lemma {:induction false} ServeMoves(y: Sys)
    requires Shape(y.rx)
    ensures Moves(y, AfterServe(y))
    decreases |y.rx.pend|
  {
    hide FlShape, CrShape, ReadShape, Copy, Sources, Bytes, Consume, LastEop, NewBytes, Partial, Taken;
    if y.rx.pend != [] && y.rx.pend[0].left != 0 {
      var rd := y.rx.pend[0];
      var r, y1 := ReadCore(y.rx, rd), AfterRead(y, rd);
      if r.rv >= 0 && r.rd.left == 0 {
        ServeMoves(y1.(rx := Finish(r.rx, r.rd, 0), filled := y1.filled + [r.rd]));
      }
    }
  }

  lemma {:induction false} CollectSizes(rx: Rx, budget: nat)
    requires Shape(rx)
    ensures var rx' := Collect(rx, budget).rx;
            rx'.bufsz == rx.bufsz && |rx'.cr.mem| == |rx.cr.mem|
    decreases budget
  {
    hide FlShape, BufsFor, Claim, ClaimsUsed;
    if budget > 0 && !BadCmpl(rx.cr.mem[rx.cr.cur].val, rx.uddEn) && rx.cr.mem[rx.cr.cur].color == rx.cr.color {
      CollectSizes(TakeCmpl(rx, rx.cr.mem[rx.cr.cur].val), budget - 1);
    }
  }

  lemma {:induction false} ServiceMoves(y: Sys, budget: nat)
    requires Inv(y)
    ensures Shape(y.rx) && Moves(y, AfterService(y, budget))
  {
    hide Core, FlShape, CrShape, ReadShape, Collect, ServeReads, AfterServe, Refill, Claim, Slot, Delta;
    InvCore(y);
    CoreFacts(y, y.read);
    WaitingIs(y, y.read);
    if y.rx.pend != [] && y.status != y.n {
      var slot, a := Slot(y.status, |y.rx.cr.mem|), Allowance(budget, y.status - y.n);
      AfterServiceIs(y, budget);
      CollectKeeps(y, y.read, a);
      CollectSizes(y.rx, a);
      ServeMoves(y.(rx := Collect(y.rx, a).rx, n := y.n + a));
      ServeKeeps(y.(rx := Collect(y.rx, a).rx, n := y.n + a), y.read);
      ServiceIs(y.rx, slot, budget, a);
    }
  }

  lemma {:induction false} SubmitMoves(y: Sys, rd: Read)
    requires Inv(y) && Fresh(rd)
    ensures Shape(y.rx) && Moves(y, AfterSubmit(y, rd))
  {
    hide Inv, FlShape, CrShape, ReadShape, Copy, Sources, Consume, LastEop, NewBytes, Partial, Taken, Fresh, Bytes;
    ReadNowIs(y, rd);
    FreshShape(rd);
    HandbackDelta1(y);
  }

  lemma {:induction false} HandbackDelta1(y: Sys)
    requires Inv(y)
    ensures y.rx.fl.pidxPend < |y.rx.fl.bufs|
  {
  }

  lemma {:induction false} FreshShape(rd: Read)
    requires Fresh(rd)
    ensures ReadShape(rd)
  {
  }

  lemma {:induction false} PacketMoves(y: Sys, p: seq<bv8>)
    requires Shape(y.rx)
    ensures Moves(y, AfterPacket(y, p))
  {
    hide FlShape, CrShape, ReadShape, PktChunks, Chunks, CmplLog, Slot;
    PktChunksFit(p, |y.pkts|, y.rx.bufsz);
  }

  /** Every step keeps what was done, and never takes back a released completion. */
  lemma {:induction false} StepMoves(y: Sys, st: Step)
    requires Inv(y)
    ensures Moves(y, Apply(y, st))
  {
    hide Inv, AfterPacket, AfterService, AfterSubmit, Fresh, RoomForPacket, Shape;
    Registers(y);
    if Enabled(y, st) {
      match st {
        case Packet(p) => PacketMoves(y, p);
        case Report(status) =>
        case Service(budget) => ServiceMoves(y, budget);
        case Submit(rd) => SubmitMoves(y, rd);
        case Join(k) =>
      }
    }
  }

  /** Completions released stay released. */
  lemma {:induction false} RelMonotone(y: Sys, y': Sys)
    requires Moves(y, y') && y.rx.bufsz > 0 && y.read <= |Stream(y)| && y'.read <= |Stream(y')|
    ensures Rel(y) <= Rel(y')
  {
    hide Chunks, Released;
    ChunksPrefix(y'.pkts, y.rx.bufsz, |y.pkts|);
    assert y'.pkts[..|y.pkts|] == y.pkts;
    assert Stream(y') == Stream(y) + Stream(y')[|Stream(y)|..];
    ReleasedPrefix(Stream(y), Stream(y')[|Stream(y)|..], y.read);
    ReleasedMonotone(y'.pkts, y.rx.bufsz, y.read, y'.read);
  }

  /** MAIN RESULT on release.  In every reachable state the index written to the hardware
      stands for `k` completions such that all buffers, and so all bytes, of the first `k`
      packets have been read, and those of packet `k` have not; `k` never passes the
      completions processed; and no further step takes it back. */
  lemma {:induction false} ReleaseIsSafe(pages: seq<seq<bv8>>, bufsz: nat, wsz: nat, uddEn: bool, steps: seq<Step>, st: Step)
    requires Pages(pages, bufsz, wsz)
    ensures var y, y' := Exec(pages, bufsz, wsz, uddEn, steps), Exec(pages, bufsz, wsz, uddEn, steps + [st]);
            && y.rx.bufsz > 0 && y.read <= |Stream(y)| && |y.rx.cr.mem| > 0
            && y'.rx.bufsz > 0 && y'.read <= |Stream(y')|
            && var k := Rel(y);
               && k <= y.n <= |y.pkts|
               && y.rx.regCidx == Slot(k, |y.rx.cr.mem|)
               && Base(y.pkts, y.rx.bufsz, k) <= y.read
               && (k < |y.pkts| ==> y.read < Base(y.pkts, y.rx.bufsz, k + 1))
               && |Payload(y.pkts[..k])| <= |Delivered(y.log)|
               && k <= Rel(y')
  {
    hide Inv, Exec, Chunks, Base, Released, Payload, Delivered, Slot, Apply, Moves;
    var y, y' := Exec(pages, bufsz, wsz, uddEn, steps), Exec(pages, bufsz, wsz, uddEn, steps + [st]);
    ExecStep(pages, bufsz, wsz, uddEn, steps, st);
    StepMoves(y, st);
    ReleasedAreRead(y);
    ReleasedAreRead(y');
    RelMonotone(y, y');
  }

  lemma {:induction false} ExecStep(pages: seq<seq<bv8>>, bufsz: nat, wsz: nat, uddEn: bool, steps: seq<Step>, st: Step)
    requires Pages(pages, bufsz, wsz)
    ensures Exec(pages, bufsz, wsz, uddEn, steps + [st]) == Apply(Exec(pages, bufsz, wsz, uddEn, steps), st)
  {
    hide Inv, Apply, Configured;
    assert (steps + [st])[..|steps|] == steps;
  }

  /** The run after one more of its steps. */
  lemma {:induction false} OneStep(pages: seq<seq<bv8>>, bufsz: nat, wsz: nat, uddEn: bool, steps: seq<Step>, i: nat)
    requires Pages(pages, bufsz, wsz) && i < |steps|
    ensures Exec(pages, bufsz, wsz, uddEn, steps[..i + 1]) == Apply(Exec(pages, bufsz, wsz, uddEn, steps[..i]), steps[i])
  {
    hide Apply, Configured, Inv;
    assert steps[..i + 1][..i] == steps[..i];
  }
}
