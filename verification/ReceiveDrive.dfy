/** The driver's objects and the hardware's stores, taken through an arbitrary run, are in
    the state that `Exec` computes; so everything proved of runs holds of them. */
module ReceiveDrive {
  import opened RingIndex
  import opened PhaseRing
  import opened ReceiveSpec
  import opened ReceiveStream
  import opened ReceiveRings
  import opened ReceiveRuns
  import opened ReceiveHardware
  import opened ReceiveTheorems
  import opened ReceiveReads
  import opened ReceiveQueue

  /** Reads that leave the waiting list are complete. */
  lemma {:induction false} ServeCounts(y: Sys, r0: nat)
    requires Core(y, r0)
    ensures Shape(y.rx)
    ensures var y' := AfterServe(y);
            |y'.filled| + |y'.rx.pend| == |y.filled| + |y.rx.pend| && y'.limbo == y.limbo
    decreases |y.rx.pend|
  {
    hide RingsOk, BytesOk, ReadCore, AfterRead, Sane, FlShape, CrShape, ReadShape, Full, Served;
    CoreFacts(y, r0);
    if y.rx.pend != [] {
      var rd := y.rx.pend[0];
      HeadIs(y, r0);
      ReadServes(y, rd);
      ReadKeeps(y, r0, rd);
      var r, y1 := ReadCore(y.rx, rd), AfterRead(y, rd);
      if r.rd.left == 0 {
        FinishKeeps(y1, r0, r.rd);
        ServeCounts(y1.(rx := Finish(r.rx, r.rd, 0), filled := y1.filled + [r.rd]), r0);
      }
    }
  }

  lemma {:induction false} ServiceCounts(y: Sys, budget: nat)
    requires Inv(y)
    ensures Shape(y.rx)
    ensures var y' := AfterService(y, budget);
            && |y'.filled| + |y'.rx.pend| == |y.filled| + |y.rx.pend| && y'.limbo == y.limbo
            && y'.rx == ServiceRx(y.rx, Slot(y.status, |y.rx.cr.mem|), budget)
            && y'.pkts == y.pkts && y'.status == y.status
  {
    hide RingsOk, BytesOk, ReadsOk, Collect, ServeReads, AfterServe, ServiceRx, FlShape, CrShape, ReadShape, Slot, Delta;
    CoreFacts(y, y.read);
    WaitingIs(y, y.read);
    ServiceKeeps(y, budget);
    if y.rx.pend != [] && y.status != y.n {
      var slot, a := Slot(y.status, |y.rx.cr.mem|), Allowance(budget, y.status - y.n);
      AfterServiceIs(y, budget);
      CollectKeeps(y, y.read, a);
      ServeCounts(y.(rx := Collect(y.rx, a).rx, n := y.n + a), y.read);
      ServiceTakes(y, budget, slot, a);
      ServiceMiddle(y, y.read, a);
    }
  }

  /** The hardware stores a packet and its completion entry. */
  method HardwareStores(q: RxQueue, p: seq<bv8>, filled: nat, stored: nat, ghost y: Sys)
    requires q.Valid() && y.rx == q.model && filled == |Stream(y)| && stored == |y.pkts|
    requires BufsFor(|p|, q.bufsz) <= q.bufs.Length
    modifies q`model, q.bufs, q.cmpl
    ensures q.Valid() && q.model == AfterPacket(y, p).rx && Stream(AfterPacket(y, p)) == Stream(y) + PktChunks(p, stored, q.bufsz, true)
  {
    hide PktChunks, Chunks, CrShape, BufsFor;
    PacketShape(y, p);
    StreamAfter(y, p);
    PktChunksFit(p, stored, q.bufsz);
    var added, sz := PktChunks(p, stored, q.bufsz, true), q.bufs.Length;
    var at, end := Slot(filled, sz), Slot(stored, q.cmpl.Length);
    for s := 0 to sz
      invariant q.cmpl[..] == old(q.cmpl[..]) && q.model == old(q.model)
      invariant forall t :: 0 <= t < sz ==>
                  q.bufs[t] == var b, c := old(q.bufs[t]), Delta(t, at, sz);
                               if t < s && c < |added| then b.(page := added[c].bytes + b.page[|added[c].bytes|..]) else b
    {
      var b, c := q.bufs[s], Delta(s, at, sz);
      if c < |added| {
        q.bufs[s] := b.(page := added[c].bytes + b.page[|added[c].bytes|..]);
      }
    }
    q.cmpl[end] := Entry(Phase(stored, q.cmpl.Length), Cmpl(false, false, true, |p|));
    assert q.bufs[..] == Deliver(y.rx.fl, at, added).bufs;
    assert q.cmpl[..] == Write(y.rx.cr.mem, CmplLog(y.pkts), Cmpl(false, false, true, |p|));
    q.model := AfterPacket(y, p).rx;
  }

  lemma {:induction false} StreamAfter(y: Sys, p: seq<bv8>)
    requires Shape(y.rx)
    ensures Stream(AfterPacket(y, p)) == Stream(y) + PktChunks(p, |y.pkts|, y.rx.bufsz, true)
  {
    hide FlShape, CrShape, PktChunks, Chunks, CmplLog, Deliver;
    ChunksAppend(y.pkts, p, y.rx.bufsz);
  }

  /** The hardware may store a packet, as far as its registers tell. */
  method MayStore(q: RxQueue, len: nat, filled: nat, stored: nat, ghost y: Sys) returns (ok: bool)
    requires q.Valid() && y.rx == q.model && Inv(y) && filled == |Stream(y)| && stored == |y.pkts|
    ensures Shape(y.rx) && y.rx.regPidx < |y.rx.fl.bufs| && y.rx.regCidx < |y.rx.cr.mem|
    ensures ok == RoomForPacket(y, len)
    ensures ok ==> BufsFor(len, q.bufsz) <= q.bufs.Length
  {
    hide Inv, Chunks, BufsFor;
    Registers(y);
    var sz, wsz := q.bufs.Length, q.cmpl.Length;
    ok := BufsFor(len, q.bufsz) <= Delta(q.regPidx, Slot(filled, sz), sz)
          && Delta(Slot(stored, wsz), q.regCidx, wsz) + 1 < wsz;
  }

  /** The reads between the two halves of their submission. */
  ghost predicate Waits(q: RxQueue, limbo: seq<ReadRequest>, rds: seq<Read>)
    reads q`pend, limbo
  {
    && |limbo| == |rds|
    && (forall i :: 0 <= i < |limbo| ==> limbo[i] !in q.pend && limbo[i].View() == rds[i])
    && (forall i, j :: 0 <= i < j < |limbo| ==> limbo[i] != limbo[j])
  }

  lemma {:induction false} WaitsMore(q: RxQueue, limbo: seq<ReadRequest>, rds: seq<Read>, req: ReadRequest)
    requires Waits(q, limbo, rds) && req !in limbo && req !in q.pend
    ensures Waits(q, limbo + [req], rds + [req.View()])
  {
  }

  lemma {:induction false} WaitsCount(q: RxQueue, limbo: seq<ReadRequest>, rds: seq<Read>)
    requires Waits(q, limbo, rds)
    ensures |limbo| == |rds|
  {
  }

  /** What the loop keeps track of is what the history says. */
  ghost predicate Tracks(q: RxQueue, y: Sys, filled: nat, stored: nat, status: nat, done: nat)
    reads q
  {
    q.model == y.rx && y.rx.bufsz > 0 && filled == |Stream(y)| && stored == |y.pkts| && status == y.status && done == |y.filled|
  }

  lemma {:induction false} ExecNone(pages: seq<seq<bv8>>, bufsz: nat, wsz: nat, uddEn: bool, steps: seq<Step>)
    requires Pages(pages, bufsz, wsz)
    ensures Exec(pages, bufsz, wsz, uddEn, steps[..0]) ==
            Start(pages, bufsz, wsz, uddEn)
    ensures Stream(Exec(pages, bufsz, wsz, uddEn, steps[..0])) == [] && steps[..|steps|] == steps
  {
    hide Apply, Inv;
  }

  /** A packet arrives if there is room for it. */
  method TakePacket(q: RxQueue, p: seq<bv8>, filled: nat, stored: nat, status: nat, done: nat, ghost y: Sys)
    returns (filled': nat, stored': nat)
    requires Inv(y) && q.Valid() && Tracks(q, y, filled, stored, status, done)
    modifies q`model, q.bufs, q.cmpl
    ensures q.Valid() && Tracks(q, Apply(y, Packet(p)), filled', stored', status, done)
    ensures Apply(y, Packet(p)).limbo == y.limbo
  {
    hide Inv, RoomForPacket, PktChunks, Chunks, Deliver, Shape;
    filled', stored' := filled, stored;
    ApplyPacket(y, p);
    var ok := MayStore(q, |p|, filled, stored, y);
    if ok {
      HardwareStores(q, p, filled, stored, y);
      filled' := filled + |PktChunks(p, stored, q.bufsz, true)|;
      stored' := stored + 1;
    }
  }

  lemma {:induction false} ApplyPacket(y: Sys, p: seq<bv8>)
    requires Inv(y)
    ensures Shape(y.rx) && y.rx.regPidx < |y.rx.fl.bufs| && y.rx.regCidx < |y.rx.cr.mem| && y.rx.bufsz > 0
    ensures Apply(y, Packet(p)) == if RoomForPacket(y, |p|) then AfterPacket(y, p) else y
    ensures var y' := AfterPacket(y, p);
            y'.pkts == y.pkts + [p] && y'.status == y.status && y'.filled == y.filled && y'.limbo == y.limbo && y'.rx.bufsz == y.rx.bufsz
  {
    hide Inv, RoomForPacket, PktChunks, Chunks, Deliver;
    Registers(y);
  }

  /** A read is submitted: its first half. */
  method TakeSubmit(q: RxQueue, rd: Read, limbo: seq<ReadRequest>, filled: nat, stored: nat, status: nat, done: nat, ghost y: Sys)
    returns (limbo': seq<ReadRequest>, done': nat)
    requires Inv(y) && q.Valid() && Tracks(q, y, filled, stored, status, done) && Waits(q, limbo, y.limbo)
    modifies q, q.bufs
    ensures q.Valid() && q.pend == old(q.pend)
    ensures Tracks(q, Apply(y, Submit(rd)), filled, stored, status, done') && Waits(q, limbo', Apply(y, Submit(rd)).limbo)
    ensures forall r :: r in limbo' ==> r in limbo || fresh(r)
  {
    hide Inv, Chunks, Shape, ReadNow, Fresh, ReadShape, Waits;
    limbo', done' := limbo, done;
    WaitsCount(q, limbo, y.limbo);
    ApplySubmit(y, rd);
    if Fresh(rd) && rd.id == done + |q.pend| + |limbo| {
      FreshIs(rd);
      var req := new ReadRequest(rd.id, rd.async, rd.sg, rd.mem, rd.count);
      var complete := q.SubmitRead(req);
      if complete {
        done' := done + 1;
      } else {
        WaitsMore(q, limbo, y.limbo, req);
        limbo' := limbo + [req];
      }
    }
  }

  lemma {:induction false} FreshIs(rd: Read)
    requires Fresh(rd)
    ensures rd == Read(rd.id, rd.async, rd.sg, rd.mem, rd.count, rd.count, 0, 0) && ReadShape(rd)
    ensures ReadShape(rd.(left := 0))
  {
  }

  lemma {:induction false} ApplySubmit(y: Sys, rd: Read)
    requires Inv(y)
    ensures Shape(y.rx) && y.rx.bufsz > 0
    ensures var y' := Apply(y, Submit(rd));
            if Fresh(rd) && rd.id == |y.filled| + |y.rx.pend| + |y.limbo| then
              && ReadShape(rd)
              && var r := ReadNow(y.rx, rd);
                 && y'.rx == r.rx && y'.pkts == y.pkts && y'.status == y.status && y'.rx.bufsz == y.rx.bufsz
                 && (r.rd.left == 0 ==> |y'.filled| == |y.filled| + 1 && y'.limbo == y.limbo)
                 && (r.rd.left != 0 ==> y'.filled == y.filled && y'.limbo == y.limbo + [r.rd])
            else y' == y
  {
    hide Inv, ReadNow, FlShape, CrShape, Moves;
    Registers(y);
    if Fresh(rd) {
      FreshIs(rd);
      SubmitMoves(y, rd);
      MovesSize(y, AfterSubmit(y, rd));
    }
  }

  lemma {:induction false} MovesSize(y: Sys, y': Sys)
    requires Moves(y, y')
    ensures y'.rx.bufsz == y.rx.bufsz
  {
  }

  /** The second half: read `k` of those in between joins the waiting ones. */
  method TakeJoin(q: RxQueue, k: nat, limbo: seq<ReadRequest>, filled: nat, stored: nat, status: nat, done: nat, ghost y: Sys)
    returns (limbo': seq<ReadRequest>)
    requires Inv(y) && q.Valid() && Tracks(q, y, filled, stored, status, done) && Waits(q, limbo, y.limbo)
    modifies q
    ensures q.Valid() && (q.pend == old(q.pend) || (k < |limbo| && q.pend == old(q.pend) + [limbo[k]]))
    ensures Tracks(q, Apply(y, Join(k)), filled, stored, status, done) && Waits(q, limbo', Apply(y, Join(k)).limbo)
    ensures forall r :: r in limbo' ==> r in limbo
  {
    hide Inv, Chunks, FlShape, CrShape, ReadShape;
    limbo' := limbo;
    ApplyJoin(y, k);
    if k < |limbo| {
      var rv := q.JoinWaiting(limbo[k], true);
      limbo' := limbo[..k] + limbo[k + 1..];
    }
  }

  lemma {:induction false} ApplyJoin(y: Sys, k: nat)
    requires Inv(y)
    ensures Shape(y.rx) && y.rx.bufsz > 0
    ensures var y' := Apply(y, Join(k));
            if k < |y.limbo| then
              && ReadShape(y.limbo[k]) && y'.rx == Enqueue(y.rx, y.limbo[k])
              && y'.limbo == y.limbo[..k] + y.limbo[k + 1..]
              && y'.pkts == y.pkts && y'.status == y.status && y'.filled == y.filled
            else y' == y
  {
    hide Inv, FlShape, CrShape;
    Registers(y);
  }

  /** A completion service. */
  method TakeService(q: RxQueue, budget: nat, limbo: seq<ReadRequest>, filled: nat, stored: nat, status: nat, done: nat, ghost y: Sys)
    returns (done': nat)
    requires Inv(y) && q.Valid() && Tracks(q, y, filled, stored, status, done) && Waits(q, limbo, y.limbo)
    modifies q, q.pend, q.bufs
    ensures q.Valid() && (forall r :: r in q.pend ==> r in old(q.pend))
    ensures Tracks(q, Apply(y, Service(budget)), filled, stored, status, done')
    ensures Waits(q, limbo, Apply(y, Service(budget)).limbo)
  {
    hide Inv, Chunks, FlShape, CrShape, ReadShape, ServiceRx, AfterService;
    ApplyService(y, budget);
    var waiting := |q.pend|;
    q.ProcessCompletion(Slot(status, q.cmpl.Length), budget);
    done' := done + waiting - |q.pend|;
  }

  lemma {:induction false} ApplyService(y: Sys, budget: nat)
    requires Inv(y)
    ensures Shape(y.rx) && y.rx.bufsz > 0 && |y.rx.cr.mem| > 0
    ensures var y' := Apply(y, Service(budget));
            && y'.rx == ServiceRx(y.rx, Slot(y.status, |y.rx.cr.mem|), budget) && y'.rx.bufsz == y.rx.bufsz
            && |y'.filled| + |y'.rx.pend| == |y.filled| + |y.rx.pend|
            && y'.limbo == y.limbo && y'.pkts == y.pkts && y'.status == y.status
  {
    hide Inv, FlShape, BufsFor, ServiceRx, AfterService, Moves;
    Registers(y);
    ServiceCounts(y, budget);
    ServiceMoves(y, budget);
    MovesSize(y, AfterService(y, budget));
  }

  lemma {:induction false} ApplyReport(y: Sys, status: nat)
    requires Inv(y)
    ensures y.rx.bufsz > 0 && Stream(y.(status := status)) == Stream(y)
    ensures Apply(y, Report(status)) == if y.status <= status <= |y.pkts| then y.(status := status) else y
  {
    hide Inv, FlShape, CrShape;
    Registers(y);
  }

  /** A run on objects: the steps decide when packets arrive and are reported, when
      completions are served, and when reads are submitted. */
  method Drive(pages: seq<seq<bv8>>, bufsz: nat, wsz: nat, uddEn: bool, steps: seq<Step>) returns (q: RxQueue)
    requires Pages(pages, bufsz, wsz)
    ensures fresh(q) && q.Valid() && q.model == Exec(pages, bufsz, wsz, uddEn, steps).rx
  {
    hide Exec, Inv, Apply, Configured, Stream;
    ExecNone(pages, bufsz, wsz, uddEn, steps);
    q := new RxQueue(pages, bufsz, wsz, uddEn);
    var filled: nat, stored: nat, status: nat, done: nat := 0, 0, 0, 0;
    var limbo: seq<ReadRequest> := [];
    for i := 0 to |steps|
      invariant fresh(q) && fresh(q.bufs) && fresh(q.cmpl) && q.Valid()
      invariant forall r :: r in q.pend || r in limbo ==> fresh(r)
      invariant Tracks(q, Exec(pages, bufsz, wsz, uddEn, steps[..i]), filled, stored, status, done)
      invariant Waits(q, limbo, Exec(pages, bufsz, wsz, uddEn, steps[..i]).limbo)
    {
      ghost var y := Exec(pages, bufsz, wsz, uddEn, steps[..i]);
      OneStep(pages, bufsz, wsz, uddEn, steps, i);
      match steps[i] {
        case Packet(p) =>
          filled, stored := TakePacket(q, p, filled, stored, status, done, y);
        case Report(s) =>
          ApplyReport(y, s);
          if status <= s <= stored {
            status := s;
          }
        case Service(budget) =>
          forall k | 0 <= k < |q.pend| ensures fresh(q.pend[k]) {
            assert q.pend[k] in q.pend;
          }
          done := TakeService(q, budget, limbo, filled, stored, status, done, y);
        case Submit(rd) =>
          limbo, done := TakeSubmit(q, rd, limbo, filled, stored, status, done, y);
        case Join(k) =>
          limbo := TakeJoin(q, k, limbo, filled, stored, status, done, y);
      }
    }
  }
}
