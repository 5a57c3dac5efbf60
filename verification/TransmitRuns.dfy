/** Runs of a transmit queue, for requests of any kind: what every interleaving of
    submission, posting, hardware consumption and writeback service keeps.

    The driver stores wrapped indices and a few counters.  The history records every
    descriptor ever posted, with the request it was posted for.
 */
module TransmitRuns {
  import opened RingIndex
  import opened ScatterGather
  import opened TransmitSpec

  /** A descriptor that was posted, as it stood in the ring, and the request it was for. */
  datatype Sent = Sent(owner: nat, desc: Desc)

  /** A queue and its history: the requests submitted; all descriptors posted (`log`); the
      positions at which batches begin (`starts`) and at which requests were posted in full
      (`ends`); how many descriptors the driver has seen consumed and how many the hardware
      has consumed; how many descriptors belonged to requests that ended with an error
      while some of theirs were posted (`lost`); and whether any posting call has stopped
      inside a scatter list entry. */
  datatype Sys = Sys(tx: Tx, submitted: seq<Req>, log: seq<Sent>, starts: set<nat>, ends: seq<nat>,
                     consumed: nat, hw: nat, lost: nat, inside: bool)

  /* ---- posting ---- */

  /** Number of descriptors that posting for the request at position `k` takes. */
  function Taken(tx: Tx, k: nat): nat
    requires Shape(tx.ring) && k < |tx.lists.work|
  {
    var r := tx.lists.work[k];
    match Decide(tx.kind, r.sgl, r.offset, tx.ring.avail)
    case Take(_, b) => |b|
    case _ => 0
  }

  /** The descriptors of the slots from `pidx` on. */
  function Batched(owner: nat, slots: seq<Desc>, pidx: nat, n: nat): (s: seq<Sent>)
    requires pidx < |slots| && n <= |slots|
    ensures |s| == n
  {
    seq(n, c requires 0 <= c < n => Sent(owner, slots[Incr(pidx, c, |slots|)]))
  }

  /** The request at position `k` is still on the work list, and the next call for it would
      resume inside an entry. */
  predicate StoppedInside(before: Tx, after: Tx, k: nat)
    requires k < |before.lists.work|
  {
    |after.lists.work| == |before.lists.work| && !AtEntry(after.lists.work[k].sgl, after.lists.work[k].offset)
  }

  /** The history after one turn of the worker's loop. */
  function AfterPost(y: Sys, k: nat): (y': Sys)
    requires Shape(y.tx.ring) && k < |y.tx.lists.work|
    ensures Shape(y'.tx.ring) && |y.tx.lists.work| - 1 <= |y'.tx.lists.work| <= |y.tx.lists.work|
  {
    var r := y.tx.lists.work[k];
    var (t1, rv) := Post(y.tx, k);
    if rv < 0 then
      y.(tx := t1.(lists := FinishWork(t1.lists, k, rv)), lost := y.lost + r.descNr)
    else
      TakenFits(y.tx, k);
      var n := Taken(y.tx, k);
      var log := y.log + Batched(r.id, t1.ring.slots, y.tx.ring.pidx, n);
      y.(tx := t1, log := log,
         starts := if n > 0 then y.starts + {|y.log|} else y.starts,
         ends := if |t1.lists.work| < |y.tx.lists.work| then y.ends + [|log|] else y.ends,
         inside := y.inside || StoppedInside(y.tx, t1, k))
  }

  lemma {:induction false} TakenFits(tx: Tx, k: nat)
    requires Shape(tx.ring) && k < |tx.lists.work|
    ensures Taken(tx, k) <= tx.ring.avail < |tx.ring.slots|
  {
    hide Batch, Cuts, ResumeAt;
  }

  /** The history of a pass of the worker over the work list. */
  function Pass(y: Sys, k: nat): (y': Sys)
    requires Shape(y.tx.ring) && k <= |y.tx.lists.work|
    ensures Shape(y'.tx.ring)
    decreases |y.tx.lists.work| - k
  {
    if k == |y.tx.lists.work| then y
    else
      var y1 := AfterPost(y, k);
      if y1.tx.ring.avail == 0 then y1
      else Pass(y1, if |y1.tx.lists.work| < |y.tx.lists.work| then k else k + 1)
  }

  /** A pass leaves the queue as the worker leaves it. */
  lemma {:induction false} PassIsWorker(y: Sys, k: nat)
    requires Shape(y.tx.ring) && k <= |y.tx.lists.work|
    ensures Pass(y, k).tx == Worker(y.tx, k)
    decreases |y.tx.lists.work| - k
  {
    hide Post, FinishWork, Batched, StoppedInside, Taken;
    if k < |y.tx.lists.work| {
      var y1 := AfterPost(y, k);
      if y1.tx.ring.avail > 0 {
        PassIsWorker(y1, if |y1.tx.lists.work| < |y.tx.lists.work| then k else k + 1);
      }
    }
  }

  /* ---- what every run keeps ---- */

  /** The wrapped indices and the free count, given the number of descriptors posted and
      the number the driver has seen consumed. */
  predicate Indices(ring: Ring, consumed: nat, posted: nat)
  {
    var n := |ring.slots|;
    && n > 0
    && consumed <= posted < consumed + n
    && ring.pidx == Slot(posted, n)
    && ring.cidx == Slot(consumed, n)
    && ring.avail == n - 1 - (posted - consumed)
  }

  /** Every slot between consumer and producer holds what was posted into it. */
  predicate InFlight(slots: seq<Desc>, log: seq<Sent>, consumed: nat)
    requires |slots| > 0
  {
    forall k :: consumed <= k < |log| ==> slots[Slot(k, |slots|)] == log[k].desc
  }

  /** Descriptors still counted against the requests of a list. */
  function Outstanding(reqs: seq<Req>): nat
  {
    if reqs == [] then 0 else Outstanding(reqs[..|reqs| - 1]) + reqs[|reqs| - 1].descNr
  }

  /** What is counted against requests, or was lost with them, is in flight or banked. */
  predicate Balanced(ls: Lists, lost: nat, inFlight: int)
  {
    Outstanding(ls.work) + Outstanding(ls.pend) + lost == ls.credit + inFlight
  }

  /** The start flag is on the first descriptor of every batch, the end flag on the last,
      and neither is on another. */
  predicate Delimited(log: seq<Sent>, starts: set<nat>)
  {
    && (forall k :: 0 <= k < |log| ==> (log[k].desc.sop <==> k in starts))
    && (forall k :: 0 <= k < |log| ==> (log[k].desc.eop <==> k + 1 in starts || k + 1 == |log|))
    && (forall k :: k in starts ==> k < |log|)
  }

  predicate Base(y: Sys)
  {
    && Shape(y.tx.ring)
    && y.consumed <= y.hw <= |y.log|
    && Indices(y.tx.ring, y.consumed, |y.log|)
    && y.tx.pidxReg == y.tx.ring.pidx
    && InFlight(y.tx.ring.slots, y.log, y.consumed)
    && Balanced(y.tx.lists, y.lost, |y.log| - y.consumed)
    && (y.tx.kind.MM? ==> Delimited(y.log, y.starts))
  }

  /* ---- posting keeps it ---- */

  /** A batch leaves the slots that lie further ahead alone. */
  lemma {:induction false} WrittenElsewhere(kind: Kind, c2h: bool, ring: Ring, sgl: seq<Sg>, card: nat, offset: nat,
                                            from: nat, b: seq<Cut>, s: nat)
    requires Shape(ring) && from <= |sgl| && s < |ring.slots|
    requires Delta(s, ring.pidx, |ring.slots|) >= |b| && Delta(s, ring.pidx, |ring.slots|) > 0
    ensures Written(kind, c2h, ring, sgl, card, offset, from, b)[s] == ring.slots[s]
  {
    hide LastFrom, CutsLen;
  }

  /** The flags of a memory-mapped batch. */
  lemma {:induction false} WrittenFlags(c2h: bool, ring: Ring, sgl: seq<Sg>, card: nat, offset: nat,
                                        from: nat, b: seq<Cut>, c: nat)
    requires Shape(ring) && from <= |sgl| && c < |b| <= ring.avail
    ensures var d := Written(MM, c2h, ring, sgl, card, offset, from, b)[Incr(ring.pidx, c, |ring.slots|)];
            (d.sop <==> c == 0) && (d.eop <==> c == |b| - 1)
  {
    assert Delta(Incr(ring.pidx, c, |ring.slots|), ring.pidx, |ring.slots|) == c;
  }

  lemma {:induction false} PostedInFlight(ring: Ring, slots: seq<Desc>, log: seq<Sent>, consumed: nat, owner: nat, n: nat)
    requires Shape(ring) && Indices(ring, consumed, |log|) && InFlight(ring.slots, log, consumed)
    requires |slots| == |ring.slots| && n <= ring.avail
    requires forall s :: 0 <= s < |slots| && Delta(s, ring.pidx, |slots|) >= n && Delta(s, ring.pidx, |slots|) > 0 ==>
               slots[s] == ring.slots[s]
    ensures InFlight(slots, log + Batched(owner, slots, ring.pidx, n), consumed)
    ensures Indices(Advance(ring, slots, n), consumed, |log| + n)
  {
    var sz, p := |slots|, |log|;
    var log' := log + Batched(owner, slots, ring.pidx, n);
    SlotIncr(p, n, sz);
    forall k | consumed <= k < p + n ensures slots[Slot(k, sz)] == log'[k].desc {
      if k < p {
        SlotDelta(p, k, sz);
        assert Delta(Slot(k, sz), ring.pidx, sz) == sz - (p - k);
      } else {
        SlotIncr(p, k - p, sz);
      }
    }
  }

  lemma {:induction false} OutstandingConcat(a: seq<Req>, b: seq<Req>)
    ensures Outstanding(a + b) == Outstanding(a) + Outstanding(b)
  {
    if b == [] {
      assert a + b == a;
    } else {
      assert (a + b)[..|a + b| - 1] == a + b[..|b| - 1];
      OutstandingConcat(a, b[..|b| - 1]);
    }
  }

  lemma {:induction false} OutstandingOne(r: Req)
    ensures Outstanding([r]) == r.descNr
  {
    assert [r][..0] == [];
  }

  /** One request singled out. */
  lemma {:induction false} OutstandingAt(reqs: seq<Req>, k: nat)
    requires k < |reqs|
    ensures Outstanding(reqs) == Outstanding(reqs[..k] + reqs[k + 1..]) + reqs[k].descNr
    ensures forall r :: Outstanding(reqs[k := r]) == Outstanding(reqs) - reqs[k].descNr + r.descNr
  {
    hide Outstanding;
    assert reqs == reqs[..k] + [reqs[k]] + reqs[k + 1..];
    OutstandingConcat(reqs[..k] + [reqs[k]], reqs[k + 1..]);
    OutstandingConcat(reqs[..k], [reqs[k]]);
    OutstandingConcat(reqs[..k], reqs[k + 1..]);
    OutstandingOne(reqs[k]);
    forall r ensures Outstanding(reqs[k := r]) == Outstanding(reqs) - reqs[k].descNr + r.descNr {
      assert reqs[k := r] == reqs[..k] + [r] + reqs[k + 1..];
      OutstandingConcat(reqs[..k] + [r], reqs[k + 1..]);
      OutstandingConcat(reqs[..k], [r]);
      OutstandingOne(r);
    }
  }

  /** Posting counts its descriptors against the request, whichever list it ends up on. */
  lemma {:induction false} NoteBalanced(ls: Lists, k: nat, n: nat, bytes: nat, lost: nat, inFlight: int)
    requires k < |ls.work| && Balanced(ls, lost, inFlight)
    ensures Balanced(NotePosted(ls, k, n, bytes), lost, inFlight + n)
  {
    hide Outstanding;
    var r := ls.work[k];
    var r' := r.(descNr := r.descNr + n, offset := (r.offset + bytes) % U32);
    OutstandingAt(ls.work, k);
    OutstandingConcat(ls.pend, [r']);
    OutstandingOne(r');
  }

  /** An error loses what was counted against the request. */
  lemma {:induction false} FinishBalanced(ls: Lists, k: nat, error: int, lost: nat, inFlight: int)
    requires k < |ls.work| && Balanced(ls, lost, inFlight)
    ensures Balanced(FinishWork(ls, k, error), lost + ls.work[k].descNr, inFlight)
  {
    hide Outstanding;
    OutstandingAt(ls.work, k);
  }

  lemma {:induction false} DelimitedGrows(log: seq<Sent>, starts: set<nat>, batch: seq<Sent>)
    requires Delimited(log, starts) && batch != []
    requires forall c :: 0 <= c < |batch| ==> (batch[c].desc.sop <==> c == 0) && (batch[c].desc.eop <==> c == |batch| - 1)
    ensures Delimited(log + batch, starts + {|log|})
  {
  }

  /** Posting, spelled out. */
  lemma {:induction false} PostCases(y: Sys, k: nat)
    requires Shape(y.tx.ring) && k < |y.tx.lists.work|
    ensures var r, y', v := y.tx.lists.work[k], AfterPost(y, k), Decide(y.tx.kind, y.tx.lists.work[k].sgl, y.tx.lists.work[k].offset, y.tx.ring.avail);
            && (v.NoSpace? ==> y'.tx == y.tx && y'.log == y.log && y'.starts == y.starts && y'.lost == y.lost)
            && (v.Fail? ==> y' == y.(tx := y.tx.(lists := FinishWork(y.tx.lists, k, v.code)), lost := y.lost + r.descNr))
            && (v.Take? ==>
                 var slots := Written(y.tx.kind, y.tx.c2h, y.tx.ring, r.sgl, r.epAddr, r.offset, v.from, v.batch);
                 && |v.batch| <= |slots| && y.tx.ring.pidx < |slots|
                 && y'.tx == y.tx.(ring := Advance(y.tx.ring, slots, |v.batch|),
                                   lists := NotePosted(y.tx.lists, k, |v.batch|, CutsLen(v.batch)),
                                   pidxReg := if v.batch == [] then y.tx.pidxReg else Advance(y.tx.ring, slots, |v.batch|).pidx)
                 && y'.log == y.log + Batched(r.id, slots, y.tx.ring.pidx, |v.batch|)
                 && y'.starts == (if v.batch == [] then y.starts else y.starts + {|y.log|})
                 && y'.lost == y.lost
                 && y'.ends == (if |y'.tx.lists.work| < |y.tx.lists.work| then y.ends + [|y'.log|] else y.ends)
                 && (y'.inside <==> y.inside || StoppedInside(y.tx, y'.tx, k)))
            && y'.consumed == y.consumed && y'.hw == y.hw && y'.submitted == y.submitted
  {
    hide Written, NotePosted, Decide, CutsLen, FinishWork, StoppedInside;
    DecideFits(y.tx, k);
    assert y.log + [] == y.log;
  }

  lemma {:induction false} DecideFits(tx: Tx, k: nat)
    requires Shape(tx.ring) && k < |tx.lists.work|
    ensures var v := Decide(tx.kind, tx.lists.work[k].sgl, tx.lists.work[k].offset, tx.ring.avail);
            v.Take? ==> |v.batch| <= tx.ring.avail < |tx.ring.slots|
    ensures Shape(tx.ring) ==> tx.ring.pidx < |tx.ring.slots|
  {
  }

  lemma {:induction false} PostBase(y: Sys, k: nat)
    requires Base(y) && k < |y.tx.lists.work|
    ensures Base(AfterPost(y, k))
  {
    hide AfterPost, Written, NotePosted, Decide, FinishWork, InFlight, Balanced, Delimited, Indices;
    PostCases(y, k);
    var r, ls := y.tx.lists.work[k], y.tx.lists;
    var v := Decide(y.tx.kind, r.sgl, r.offset, y.tx.ring.avail);
    match v {
      case NoSpace =>
      case Fail(code) => FinishBalanced(ls, k, code, y.lost, |y.log| - y.consumed);
      case Take(from, b) => TakeBase(y, k, from, b);
    }
  }

  lemma {:induction false} TakeBase(y: Sys, k: nat, from: nat, b: seq<Cut>)
    requires Base(y) && k < |y.tx.lists.work|
    requires Decide(y.tx.kind, y.tx.lists.work[k].sgl, y.tx.lists.work[k].offset, y.tx.ring.avail) == Take(from, b)
    ensures Base(AfterPost(y, k))
  {
    hide AfterPost, Written, NotePosted, Decide, InFlight, Balanced, Delimited, Indices;
    PostCases(y, k);
    DecideFits(y.tx, k);
    var r, ls, ring := y.tx.lists.work[k], y.tx.lists, y.tx.ring;
    var slots := Written(y.tx.kind, y.tx.c2h, ring, r.sgl, r.epAddr, r.offset, from, b);
    BatchInFlight(y.tx, r, from, b, y.log, y.consumed);
    NoteBalanced(ls, k, |b|, CutsLen(b), y.lost, |y.log| - y.consumed);
    if y.tx.kind.MM? {
      BatchDelimited(y.tx, r, from, b, y.log, y.starts);
    }
    if b == [] {
      SlotStays(y.tx, slots);
    }
  }

  lemma {:induction false} BatchInFlight(tx: Tx, r: Req, from: nat, b: seq<Cut>, log: seq<Sent>, consumed: nat)
    requires Shape(tx.ring) && from <= |r.sgl| && |b| <= tx.ring.avail
    requires Indices(tx.ring, consumed, |log|) && InFlight(tx.ring.slots, log, consumed)
    ensures var slots := Written(tx.kind, tx.c2h, tx.ring, r.sgl, r.epAddr, r.offset, from, b);
            && InFlight(slots, log + Batched(r.id, slots, tx.ring.pidx, |b|), consumed)
            && Indices(Advance(tx.ring, slots, |b|), consumed, |log| + |b|)
  {
    hide Written, InFlight, Indices;
    var slots := Written(tx.kind, tx.c2h, tx.ring, r.sgl, r.epAddr, r.offset, from, b);
    forall s | 0 <= s < |slots| && Delta(s, tx.ring.pidx, |slots|) >= |b| && Delta(s, tx.ring.pidx, |slots|) > 0
      ensures slots[s] == tx.ring.slots[s]
    {
      WrittenElsewhere(tx.kind, tx.c2h, tx.ring, r.sgl, r.epAddr, r.offset, from, b, s);
    }
    PostedInFlight(tx.ring, slots, log, consumed, r.id, |b|);
  }

  lemma {:induction false} BatchDelimited(tx: Tx, r: Req, from: nat, b: seq<Cut>, log: seq<Sent>, starts: set<nat>)
    requires Shape(tx.ring) && from <= |r.sgl| && |b| <= tx.ring.avail && tx.kind.MM? && Delimited(log, starts)
    ensures var slots := Written(tx.kind, tx.c2h, tx.ring, r.sgl, r.epAddr, r.offset, from, b);
            Delimited(log + Batched(r.id, slots, tx.ring.pidx, |b|), if b == [] then starts else starts + {|log|})
  {
    hide Written, Delimited;
    var slots := Written(tx.kind, tx.c2h, tx.ring, r.sgl, r.epAddr, r.offset, from, b);
    var batch := Batched(r.id, slots, tx.ring.pidx, |b|);
    if b == [] {
      assert log + batch == log;
    } else {
      forall c | 0 <= c < |batch| ensures (batch[c].desc.sop <==> c == 0) && (batch[c].desc.eop <==> c == |batch| - 1) {
        WrittenFlags(tx.c2h, tx.ring, r.sgl, r.epAddr, r.offset, from, b, c);
      }
      DelimitedGrows(log, starts, batch);
    }
  }

  lemma {:induction false} SlotStays(tx: Tx, slots: seq<Desc>)
    requires Shape(tx.ring) && |slots| == |tx.ring.slots|
    ensures Advance(tx.ring, slots, 0).pidx == tx.ring.pidx
  {
  }

  lemma {:induction false} PassBase(y: Sys, k: nat)
    requires Base(y) && k <= |y.tx.lists.work|
    ensures Base(Pass(y, k))
    ensures Pass(y, k).consumed == y.consumed && Pass(y, k).hw == y.hw && Pass(y, k).submitted == y.submitted
    ensures y.log <= Pass(y, k).log
    decreases |y.tx.lists.work| - k
  {
    hide Base, AfterPost;
    BaseShape(y);
    if k < |y.tx.lists.work| {
      PostBase(y, k);
      PostGrows(y, k);
      var y1 := AfterPost(y, k);
      if y1.tx.ring.avail > 0 {
        PassBase(y1, if |y1.tx.lists.work| < |y.tx.lists.work| then k else k + 1);
      }
    }
  }

  lemma {:induction false} BaseShape(y: Sys)
    requires Base(y)
    ensures Shape(y.tx.ring) && y.consumed <= y.hw <= |y.log|
  {
  }

  lemma {:induction false} PostGrows(y: Sys, k: nat)
    requires Shape(y.tx.ring) && k < |y.tx.lists.work|
    ensures var y' := AfterPost(y, k);
            y.log <= y'.log && y'.consumed == y.consumed && y'.hw == y.hw && y'.submitted == y.submitted
  {
    hide Decide, FinishWork, StoppedInside, Batched, Post, Taken;
  }

  /* ---- service and submission keep it ---- */

  /** The wrapped index that the hardware writes back lies between cidx and pidx, and the
      register tells the hardware exactly what is left for it to do. */
  lemma {:induction false} HardwareIndexOk(y: Sys)
    requires Base(y)
    ensures HwIndexOk(y.tx.ring, Slot(y.hw, |y.tx.ring.slots|)) && y.tx.pidxReg < |y.tx.ring.slots|
    ensures Delta(Slot(y.hw, |y.tx.ring.slots|), y.tx.ring.cidx, |y.tx.ring.slots|) == y.hw - y.consumed
    ensures Delta(y.tx.ring.pidx, y.tx.ring.cidx, |y.tx.ring.slots|) == |y.log| - y.consumed
    ensures Delta(y.tx.pidxReg, Slot(y.hw, |y.tx.ring.slots|), |y.tx.ring.slots|) == |y.log| - y.hw
  {
    hide InFlight, Balanced, Delimited;
    SlotDelta(y.hw, y.consumed, |y.tx.ring.slots|);
    SlotDelta(|y.log|, y.consumed, |y.tx.ring.slots|);
    SlotDelta(|y.log|, y.hw, |y.tx.ring.slots|);
  }

  lemma {:induction false} OutstandingFirst(reqs: seq<Req>)
    requires reqs != []
    ensures Outstanding(reqs) == reqs[0].descNr + Outstanding(reqs[1..])
  {
    hide Outstanding;
    assert reqs == [reqs[0]] + reqs[1..];
    OutstandingConcat([reqs[0]], reqs[1..]);
    OutstandingOne(reqs[0]);
  }

  /** Handing out credits lowers what is counted and what is handed out alike. */
  lemma {:induction false} DistributeBalanced(ls: Lists, credit: nat)
    ensures var ls' := Distribute(ls, credit);
            && Outstanding(ls'.pend) + credit == Outstanding(ls.pend) + ls'.credit
            && ls'.work == ls.work
    decreases |ls.pend|
  {
    hide Outstanding;
    if ls.pend != [] {
      var h := ls.pend[0];
      OutstandingFirst(ls.pend);
      if credit > h.descNr {
        DistributeBalanced(FinishPend(ls), credit - h.descNr);
      } else if credit < h.descNr {
        OutstandingFirst([h.(descNr := h.descNr - credit)] + ls.pend[1..]);
      }
    }
  }

  lemma {:induction false} ServiceBase(y: Sys)
    requires Base(y)
    ensures HwIndexOk(y.tx.ring, Slot(y.hw, |y.tx.ring.slots|))
    ensures Base(y.(tx := Service(y.tx, Slot(y.hw, |y.tx.ring.slots|)), consumed := y.hw))
  {
    hide Delimited, Distribute, Outstanding;
    HardwareIndexOk(y);
    DistributeBalanced(y.tx.lists, y.hw - y.consumed + y.tx.lists.credit);
  }

  lemma {:induction false} SubmitBase(y: Sys, r: Req)
    requires Base(y) && r.descNr == 0
    ensures Base(y.(tx := Submit(y.tx, r), submitted := y.submitted + [r]))
  {
    hide Delimited, InFlight, Outstanding, Indices;
    OutstandingConcat(y.tx.lists.work, [r]);
    OutstandingOne(r);
  }

  /* ---- runs ---- */

  datatype Step =
    | SubmitStep(req: Req)
    | WorkerStep
    | HardwareStep(n: nat)
    | ServiceStep

  /** Any request may be submitted; its control block is clear, and requests are numbered
      in the order of submission.  The hardware goes by the index it was told. */
  predicate Enabled(y: Sys, step: Step)
    requires Shape(y.tx.ring) && y.tx.pidxReg < |y.tx.ring.slots|
  {
    match step
    case SubmitStep(r) => r.descNr == 0 && r.offset == 0 && r.id == |y.submitted|
    case WorkerStep => true
    case HardwareStep(n) => n <= Delta(y.tx.pidxReg, Slot(y.hw, |y.tx.ring.slots|), |y.tx.ring.slots|)
    case ServiceStep => true
  }

  /** The state after one step; a step that is not enabled does not happen. */
  function Apply(y: Sys, step: Step): (y': Sys)
    requires Base(y)
    ensures Base(y')
  {
    hide Base, Pass, Service, Submit;
    BaseShape(y);
    HardwareIndexOk(y);
    if !Enabled(y, step) then y
    else match step
      case SubmitStep(r) =>
        SubmitBase(y, r);
        y.(tx := Submit(y.tx, r), submitted := y.submitted + [r])
      case WorkerStep =>
        PassBase(y, 0);
        Pass(y, 0)
      case HardwareStep(n) =>
        HardwareBase(y, n);
        y.(hw := y.hw + n)
      case ServiceStep =>
        ServiceBase(y);
        y.(tx := Service(y.tx, Slot(y.hw, |y.tx.ring.slots|)), consumed := y.hw)
  }

  lemma {:induction false} HardwareBase(y: Sys, n: nat)
    requires Base(y) && y.hw + n <= |y.log|
    ensures Base(y.(hw := y.hw + n))
  {
    hide Delimited, InFlight, Outstanding, Indices;
  }

  function Initial(kind: Kind, c2h: bool, size: nat): (y: Sys)
    requires size > 0
    ensures Base(y)
  {
    Sys(Configured(kind, c2h, size), [], [], {}, [], 0, 0, 0, false)
  }

  /** The state after a run. */
  function Exec(kind: Kind, c2h: bool, size: nat, steps: seq<Step>): (y: Sys)
    requires size > 0
    ensures Base(y)
  {
    hide Base, Apply, Initial;
    if steps == [] then Initial(kind, c2h, size)
    else Apply(Exec(kind, c2h, size, steps[..|steps| - 1]), steps[|steps| - 1])
  }

  lemma {:induction false} ExecStep(kind: Kind, c2h: bool, size: nat, steps: seq<Step>, step: Step)
    requires size > 0
    ensures Exec(kind, c2h, size, steps + [step]) == Apply(Exec(kind, c2h, size, steps), step)
  {
    hide Base, Apply, Initial;
    assert (steps + [step])[..|steps|] == steps;
  }

  /** What no step changes or takes back. */
  predicate Extends(y: Sys, y': Sys)
  {
    && y'.tx.kind == y.tx.kind && y'.tx.c2h == y.tx.c2h && |y'.tx.ring.slots| == |y.tx.ring.slots|
    && y.submitted <= y'.submitted && y.log <= y'.log && y.consumed <= y'.consumed && y.hw <= y'.hw && y.lost <= y'.lost
    && (y.inside ==> y'.inside)
  }

  lemma {:induction false} PostExtends(y: Sys, k: nat)
    requires Shape(y.tx.ring) && k < |y.tx.lists.work|
    ensures Extends(y, AfterPost(y, k)) && AfterPost(y, k).submitted == y.submitted
  {
    hide Decide, FinishWork, StoppedInside, Batched, Post, Taken;
  }

  lemma {:induction false} PassExtends(y: Sys, k: nat)
    requires Shape(y.tx.ring) && k <= |y.tx.lists.work|
    ensures Extends(y, Pass(y, k)) && Pass(y, k).submitted == y.submitted
    decreases |y.tx.lists.work| - k
  {
    hide AfterPost;
    if k < |y.tx.lists.work| {
      PostExtends(y, k);
      var y1 := AfterPost(y, k);
      if y1.tx.ring.avail > 0 {
        PassExtends(y1, if |y1.tx.lists.work| < |y.tx.lists.work| then k else k + 1);
      }
    }
  }

  lemma {:induction false} StepExtends(y: Sys, step: Step)
    requires Base(y)
    ensures Extends(y, Apply(y, step))
  {
    hide Base, Pass, Service;
    BaseShape(y);
    HardwareIndexOk(y);
    PassExtends(y, 0);
    ServiceSizes(y.tx, Slot(y.hw, |y.tx.ring.slots|));
  }

  lemma {:induction false} ServiceSizes(tx: Tx, cidxHw: nat)
    requires Shape(tx.ring) && HwIndexOk(tx.ring, cidxHw)
    ensures var tx' := Service(tx, cidxHw);
            tx'.kind == tx.kind && tx'.c2h == tx.c2h && |tx'.ring.slots| == |tx.ring.slots|
  {
  }

  /** Kind and size of the queue stay what they were configured to be. */
  lemma {:induction false} ExecKind(kind: Kind, c2h: bool, size: nat, steps: seq<Step>)
    requires size > 0
    ensures var y := Exec(kind, c2h, size, steps);
            y.tx.kind == kind && y.tx.c2h == c2h && |y.tx.ring.slots| == size
  {
    hide Base, Apply;
    if steps != [] {
      ExecKind(kind, c2h, size, steps[..|steps| - 1]);
      StepExtends(Exec(kind, c2h, size, steps[..|steps| - 1]), steps[|steps| - 1]);
    }
  }

  /* ---- requests ---- */

  /** The request has a scatter list whose bytes it counts. */
  predicate Sound(kind: Kind, r: Req)
  {
    && r.sgl != [] && r.count == TotalLen(r.sgl) < U32
    && (kind.MM? ==> r.count > 0)
    && r.descNr == 0 && r.offset == 0
  }

  /** No entry needs more than one descriptor. */
  predicate FitEach(kind: Kind, sgl: seq<Sg>)
  {
    forall k :: 0 <= k < |sgl| ==> sgl[k].len <= MaxLen(kind)
  }

  /** The entry fits one descriptor, and is empty only if it is all of a stream request. */
  predicate EntryOk(kind: Kind, sg: Sg, entries: nat)
  {
    sg.len <= MaxLen(kind) && (sg.len > 0 || (kind.StH2c? && entries == 1))
  }

  /** Requests as drv/cdev.c builds them: see `Segmentation.RequestIsWellFormed`. */
  predicate WellFormed(kind: Kind, r: Req)
  {
    && r.sgl != []
    && (forall k :: 0 <= k < |r.sgl| ==> EntryOk(kind, r.sgl[k], |r.sgl|))
    && r.count == TotalLen(r.sgl) < U32
    && r.descNr == 0 && r.offset == 0
  }
}
