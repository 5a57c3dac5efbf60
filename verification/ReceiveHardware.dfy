/** The hardware of a receive queue, and runs of hardware and driver. */
module ReceiveHardware {
  import opened RingIndex
  import opened PhaseRing
  import opened ReceiveSpec
  import opened ReceiveStream
  import opened ReceiveRings
  import opened ReceiveRuns

  /** All the hardware knows: the two index registers and its own positions.  It takes a
      buffer only below the posted index, and does not overrun the completion ring. */
  predicate RoomForPacket(y: Sys, len: nat)
    requires Shape(y.rx) && y.rx.regPidx < |y.rx.fl.bufs| && y.rx.regCidx < |y.rx.cr.mem|
  {
    && BufsFor(len, y.rx.bufsz) <= Delta(y.rx.regPidx, Slot(|Stream(y)|, |y.rx.fl.bufs|), |y.rx.fl.bufs|)
    && Delta(Slot(|y.pkts|, |y.rx.cr.mem|), y.rx.regCidx, |y.rx.cr.mem|) + 1 < |y.rx.cr.mem|
  }

  /** The hardware stores a packet and its completion entry. */
  function AfterPacket(y: Sys, p: seq<bv8>): (y': Sys)
    requires Shape(y.rx)
  {
    var rx := y.rx;
    PktChunksFit(p, |y.pkts|, rx.bufsz);
    var added := PktChunks(p, |y.pkts|, rx.bufsz, true);
    y.(rx := rx.(fl := Deliver(rx.fl, Slot(|Stream(y)|, |rx.fl.bufs|), added),
                 cr := rx.cr.(mem := Write(rx.cr.mem, CmplLog(y.pkts), Cmpl(false, false, true, |p|)))),
       pkts := y.pkts + [p])
  }

  lemma {:induction false} PktChunksFit(p: seq<bv8>, pkt: nat, bufsz: nat)
    requires bufsz > 0
    ensures var cs := PktChunks(p, pkt, bufsz, true);
            |cs| == BufsFor(|p|, bufsz) && forall c :: 0 <= c < |cs| ==> |cs[c].bytes| <= bufsz
  {
    hide PktChunks, Flat, BufsFor;
    PktChunksAre(p, pkt, bufsz, true);
  }

  /** What the registers say about room is true. */
  lemma {:induction false} RoomIs(y: Sys, len: nat)
    requires Inv(y)
    ensures Shape(y.rx) && y.rx.regPidx < |y.rx.fl.bufs| && y.rx.regCidx < |y.rx.cr.mem|
    ensures RoomForPacket(y, len) <==>
            && |Stream(y)| + BufsFor(len, y.rx.bufsz) < y.read + |y.rx.fl.bufs|
            && |y.pkts| + 1 < Rel(y) + |y.rx.cr.mem|
  {
    hide Chunks, Base, Released, CrOk, Accounts, FlShape, CrShape, BufsFor, Slot, Delta;
    WaitingIs(y, y.read);
    SlotDelta(y.read + |y.rx.fl.bufs| - 1, |Stream(y)|, |y.rx.fl.bufs|);
    SlotDelta(|y.pkts|, Rel(y), |y.rx.cr.mem|);
  }

  lemma {:induction false} AccountsPacket(cs: seq<Chunk>, added: seq<Chunk>, p: nat, read: nat, off: nat, pktDlen: int,
                                          delivered: seq<bv8>, inside: bool)
    requires Accounts(cs, p, read, off, pktDlen, delivered, inside)
    ensures Accounts(cs + added, p, read, off, pktDlen, delivered, inside)
  {
    hide Flat;
    assert (cs + added)[..p] == cs[..p];
    assert (cs + added)[..read] == cs[..read];
  }

  lemma {:induction false} WriteCmpl(cr: CmplRing, pkts: seq<seq<bv8>>, n: nat, p: seq<bv8>)
    requires CrOk(cr, pkts, n) && |pkts| < n + |cr.mem|
    ensures CrOk(cr.(mem := Write(cr.mem, CmplLog(pkts), Cmpl(false, false, true, |p|))), pkts + [p], n)
  {
    hide Holds;
    WriteHolds(cr.mem, CmplLog(pkts), Cmpl(false, false, true, |p|));
    assert CmplLog(pkts + [p]) == CmplLog(pkts) + [Cmpl(false, false, true, |p|)];
  }

  lemma {:induction false} PacketShape(y: Sys, p: seq<bv8>)
    requires Shape(y.rx) && BufsFor(|p|, y.rx.bufsz) <= |y.rx.fl.bufs|
    ensures Shape(AfterPacket(y, p).rx)
  {
    hide BufsFor, PktChunks, CmplLog, Slot, Phase, ReadShape, Chunks, Deliver;
    PktChunksFit(p, |y.pkts|, y.rx.bufsz);
    DeliverShape(y.rx.fl, y.rx.bufsz, Slot(|Stream(y)|, |y.rx.fl.bufs|), PktChunks(p, |y.pkts|, y.rx.bufsz, true));
  }

  /** What stays and what grows when the hardware adds a packet. */
  lemma {:induction false} StreamGrows(y: Sys, p: seq<bv8>)
    requires Shape(y.rx) && y.n <= |y.pkts| && y.read <= |Stream(y)|
    ensures var y' := AfterPacket(y, p);
            && y'.rx.bufsz > 0
            && Stream(y') == Stream(y) + PktChunks(p, |y.pkts|, y.rx.bufsz, true)
            && Taken0(y') == Taken0(y)
            && Rel(y') == Rel(y)
  {
    hide FlShape, CrShape, PktChunks, Chunks, Released, CmplLog, Deliver;
    ChunksAppend(y.pkts, p, y.rx.bufsz);
    ReleasedPrefix(Stream(y), PktChunks(p, |y.pkts|, y.rx.bufsz, true), y.read);
  }

  lemma {:induction false} PacketRings(y: Sys, p: seq<bv8>)
    requires Inv(y) && Shape(y.rx) && y.read <= |Stream(y)|
    requires |Stream(y)| + BufsFor(|p|, y.rx.bufsz) < y.read + |y.rx.fl.bufs|
    requires |y.pkts| + 1 < Rel(y) + |y.rx.cr.mem|
    ensures RingsOk(AfterPacket(y, p), y.read)
  {
    hide Chunks, Base, Released, CrOk, Accounts, FlShape, CrShape, FlOk, BufsFor, Slot, Delta, PktChunks, CmplLog, Deliver;
    var added := PktChunks(p, |y.pkts|, y.rx.bufsz, true);
    WaitingIs(y, y.read);
    PktChunksFit(p, |y.pkts|, y.rx.bufsz);
    StreamGrows(y, p);
    PacketShape(y, p);
    DeliverOk(y.rx.fl, y.rx.bufsz, Stream(y), |y.rx.cr.mem|, y.read, y.read, y.off, Taken0(y), added);
    WriteCmpl(y.rx.cr, y.pkts, y.n, p);
  }

  lemma {:induction false} PacketKeeps(y: Sys, p: seq<bv8>)
    requires Inv(y)
    ensures Shape(y.rx) && y.rx.regPidx < |y.rx.fl.bufs| && y.rx.regCidx < |y.rx.cr.mem|
    ensures RoomForPacket(y, |p|) ==> Inv(AfterPacket(y, p))
  {
    hide RingsOk, Chunks, Base, Released, Accounts, FlShape, CrShape, RoomForPacket, PktChunks, Deliver;
    RingsFacts(y, y.read);
    RoomIs(y, |p|);
    if RoomForPacket(y, |p|) {
      PacketRings(y, p);
      StreamGrows(y, p);
      AccountsPacket(Stream(y), PktChunks(p, |y.pkts|, y.rx.bufsz, true), Taken0(y), y.read, y.off,
                     y.rx.pktDlen, Delivered(y.log), y.inside);
    }
  }

  /** The hardware reports how many completions it has stored. */
  lemma {:induction false} ReportKeeps(y: Sys, status: nat)
    requires Inv(y) && y.status <= status <= |y.pkts|
    ensures Inv(y.(status := status))
  {
    hide Chunks, Base, Released, CrOk, Accounts, FlShape, CrShape, FlOk;
  }

  /* ---- runs ---- */

  /** One step of a run.  The two halves of a submission are separate steps, since the
      queue is unlocked between them. */
  datatype Step =
    | Packet(p: seq<bv8>)
    | Report(status: nat)
    | Service(budget: nat)
    | Submit(rd: Read)
    | Join(k: nat)

  /** What the environment may do; the driver's own steps are always possible.  Reads are
      numbered in the order of their submission. */
  predicate Enabled(y: Sys, st: Step)
    requires Shape(y.rx) && y.rx.regPidx < |y.rx.fl.bufs| && y.rx.regCidx < |y.rx.cr.mem|
  {
    match st
    case Packet(p) => RoomForPacket(y, |p|)
    case Report(status) => y.status <= status <= |y.pkts|
    case Service(_) => true
    case Submit(rd) => Fresh(rd) && rd.id == |y.filled| + |y.rx.pend| + |y.limbo|
    case Join(k) => k < |y.limbo|
  }

  lemma {:induction false} Registers(y: Sys)
    requires Inv(y)
    ensures Shape(y.rx) && y.rx.regPidx < |y.rx.fl.bufs| && y.rx.regCidx < |y.rx.cr.mem|
    ensures forall k :: 0 <= k < |y.limbo| ==> ReadShape(y.limbo[k])
  {
    hide FlOk, CrOk, Accounts, FlShape, CrShape, Chunks, Base, Released;
  }

  /** The state after one step; a step that is not enabled does not happen. */
  ghost function Apply(y: Sys, st: Step): (y': Sys)
    requires Inv(y)
    ensures Inv(y')
  {
    hide Inv, RoomForPacket, AfterPacket, AfterService, AfterSubmit, AfterEnqueue;
    Registers(y);
    if !Enabled(y, st) then y
    else match st
      case Packet(p) => PacketKeeps(y, p); AfterPacket(y, p)
      case Report(status) => ReportKeeps(y, status); y.(status := status)
      case Service(budget) => ServiceKeeps(y, budget); AfterService(y, budget)
      case Submit(rd) => SubmitKeeps(y, rd); AfterSubmit(y, rd)
      case Join(k) => EnqueueKeeps(y, k); AfterEnqueue(y, k)
  }

  /** A started queue without a history. */
  function Start(pages: seq<seq<bv8>>, bufsz: nat, wsz: nat, uddEn: bool): Sys
    requires pages != []
  {
    Sys(Configured(pages, bufsz, wsz, uddEn), [], 0, 0, 0, 0, [], false, [], [], [])
  }

  lemma {:induction false} ConfiguredInv(pages: seq<seq<bv8>>, bufsz: nat, wsz: nat, uddEn: bool)
    requires pages != [] && bufsz > 0 && wsz > 0 && forall s :: 0 <= s < |pages| ==> |pages[s]| == bufsz
    ensures Inv(Start(pages, bufsz, wsz, uddEn))
  {
    var y := Start(pages, bufsz, wsz, uddEn);
    var cs := Chunks(y.pkts, y.rx.bufsz);
    assert y.pkts[..0] == [] && cs == [];
    assert cs[..0] == [] && Flat(cs[..0]) == [];
    assert FlOk(y.rx.fl, y.rx.bufsz, cs, |y.rx.cr.mem|, 0, 0, 0, 0) by {
      forall q | 0 <= q < |y.rx.fl.bufs| ensures Slot(q, |y.rx.fl.bufs|) == q { }
    }
    assert CrOk(y.rx.cr, y.pkts, 0);
  }

  /** The state after a run; every run keeps the invariant. */
  ghost function Exec(pages: seq<seq<bv8>>, bufsz: nat, wsz: nat, uddEn: bool, steps: seq<Step>): (y: Sys)
    requires pages != [] && bufsz > 0 && wsz > 0 && forall s :: 0 <= s < |pages| ==> |pages[s]| == bufsz
    ensures Inv(y)
  {
    hide Inv, Apply, Configured;
    if steps == [] then
      ConfiguredInv(pages, bufsz, wsz, uddEn);
      Start(pages, bufsz, wsz, uddEn)
    else Apply(Exec(pages, bufsz, wsz, uddEn, steps[..|steps| - 1]), steps[|steps| - 1])
  }
}
