/** What holds in every state that a transmit queue can reach.

    `Exec(kind, c2h, size, steps)` is the state after an arbitrary sequence of steps:
    submissions of any requests, worker passes, hardware progress and writeback services,
    in any order.
 */
module TransmitTheorems {
  import opened RingIndex
  import opened ScatterGather
  import opened TransmitSpec
  import opened TransmitTiling
  import opened TransmitRuns
  import opened TransmitOrder
  import opened TransmitContent

  /* ---- the ring, for requests of any kind ---- */

  /** MAIN RESULT on the ring.  In every reachable state free slots and outstanding
      descriptors make up the ring less one, equal indices mean that nothing is
      outstanding, the hardware has been told the producer index, and every slot the driver
      has not seen consumed holds exactly what was posted into it. */
  lemma {:induction false} RingIsSafe(kind: Kind, c2h: bool, size: nat, steps: seq<Step>)
    requires size > 0
    ensures var y := Exec(kind, c2h, size, steps);
            var ring := y.tx.ring;
            && |ring.slots| == size && ring.pidx < size && ring.cidx < size
            && ring.avail + Delta(ring.pidx, ring.cidx, size) == size - 1
            && Delta(ring.pidx, ring.cidx, size) == |y.log| - y.consumed
            && (ring.pidx == ring.cidx <==> |y.log| == y.consumed)
            && y.tx.pidxReg == ring.pidx
            && (forall k :: y.consumed <= k < |y.log| ==> ring.slots[Slot(k, size)] == y.log[k].desc)
  {
    hide Exec, Balanced, Delimited, Slot, Delta;
    ExecKind(kind, c2h, size, steps);
    HardwareIndexOk(Exec(kind, c2h, size, steps));
    BaseSlots(Exec(kind, c2h, size, steps));
  }

  /** MAIN RESULT on overwriting.  No step changes a slot that the hardware has not consumed,
      flags included. */
  lemma {:induction false} UntouchedUntilConsumed(kind: Kind, c2h: bool, size: nat, steps: seq<Step>, step: Step, k: nat)
    requires size > 0 && Exec(kind, c2h, size, steps).hw <= k < |Exec(kind, c2h, size, steps).log|
    ensures var y, y' := Exec(kind, c2h, size, steps), Exec(kind, c2h, size, steps + [step]);
            && |y.tx.ring.slots| == |y'.tx.ring.slots| == size
            && y'.tx.ring.slots[Slot(k, size)] == y.tx.ring.slots[Slot(k, size)] == y.log[k].desc
  {
    hide Exec, Apply, Indices, Balanced, Delimited, Slot;
    var y := Exec(kind, c2h, size, steps);
    ExecKind(kind, c2h, size, steps);
    ExecKind(kind, c2h, size, steps + [step]);
    ExecStep(kind, c2h, size, steps, step);
    StepExtends(y, step);
    ConsumedAfter(y, step);
  }

  lemma {:induction false} ConsumedAfter(y: Sys, step: Step)
    requires Base(y)
    ensures Apply(y, step).consumed <= y.hw
  {
    hide Base, Pass, Service;
    BaseIndices(y);
    HardwareIndexOk(y);
    PassBase(y, 0);
  }

  /** MAIN RESULT on flags.  The log of a memory-mapped queue falls into batches, one for
      each posting call that posted anything; a descriptor has the start flag if and only if
      it is the first of its batch, and the end flag if and only if it is the last. */
  lemma {:induction false} BatchesAreDelimited(c2h: bool, size: nat, steps: seq<Step>, k: nat)
    requires size > 0 && k < |Exec(MM, c2h, size, steps).log|
    ensures var y := Exec(MM, c2h, size, steps);
            && (y.log[k].desc.sop <==> k in y.starts)
            && (y.log[k].desc.eop <==> k + 1 in y.starts || k + 1 == |y.log|)
  {
    hide Exec, Balanced, InFlight, Indices;
    ExecKind(MM, c2h, size, steps);
  }

  /* ---- credits ---- */

  /** MAIN RESULT on credits.  For requests of any kind: the descriptors counted against
      requests, and those lost with requests that failed, are the ones in flight and the
      ones whose credit is banked.  As long as no call has stopped inside an entry, nothing
      is lost, only the first request of the work list can be partly posted, and the bank
      never covers the oldest pending request. */
  lemma {:induction false} CreditConservation(kind: Kind, c2h: bool, size: nat, steps: seq<Step>)
    requires size > 0
    ensures var y := Exec(kind, c2h, size, steps);
            var ls, ring := y.tx.lists, y.tx.ring;
            && ring.pidx < size && ring.cidx < size
            && Outstanding(ls.work) + Outstanding(ls.pend) + y.lost == ls.credit + Delta(ring.pidx, ring.cidx, size)
            && (AllSound(kind, y.submitted) && !y.inside ==>
                 && y.lost == 0
                 && (forall i :: 1 <= i < |ls.work| ==> ls.work[i].descNr == 0 && ls.work[i].offset == 0)
                 && (ls.pend != [] ==> ls.credit < ls.pend[0].descNr))
  {
    hide Exec, InFlight, Delimited, Delta, Outstanding, Order, AllSound;
    var y := Exec(kind, c2h, size, steps);
    ExecKind(kind, c2h, size, steps);
    HardwareIndexOk(y);
    RunOrder(kind, c2h, size, steps);
    if AllSound(kind, y.submitted) && !y.inside {
      LaterUntouched(y);
      BankIsShort(y);
    }
  }

  /** What was lost was counted against requests that ended with an error. */
  lemma {:induction false} LostWithFailures(y: Sys, k: nat)
    requires Shape(y.tx.ring) && k < |y.tx.lists.work|
    ensures AfterPost(y, k).lost == y.lost + if Post(y.tx, k).1 < 0 then y.tx.lists.work[k].descNr else 0
  {
    hide Post, Taken, Batched, StoppedInside, FinishWork;
  }

  lemma {:induction false} LaterUntouched(y: Sys)
    requires Order(y)
    ensures forall i :: 1 <= i < |y.tx.lists.work| ==>
              y.tx.lists.work[i].descNr == 0 && y.tx.lists.work[i].offset == 0
  {
    hide Owners, BytesAre, PendIs, CompletedOk, AtEntry, Sound;
    var work, w := y.tx.lists.work, PostedReqs(y.tx.lists);
    forall i | 1 <= i < |work|
      ensures work[i].descNr == 0 && work[i].offset == 0
    {
      assert work[i] == work[1..][i - 1] == y.submitted[w + 1..][i - 1] == y.submitted[w + i];
      SoundAt(y.tx.kind, y.submitted, w + i);
    }
  }

  lemma {:induction false} BankIsShort(y: Sys)
    requires Order(y)
    ensures y.tx.lists.pend != [] ==> y.tx.lists.credit < y.tx.lists.pend[0].descNr
  {
    hide Owners, BytesAre, WorkIs, CompletedOk, AllSound, UntouchedAt;
  }

  /* ---- completions ---- */

  /** Request `i` is posted in full and all of its descriptors are among the first `n`. */
  predicate Done(log: seq<Sent>, n: nat, i: nat, count: nat)
  {
    && n <= |log|
    && (exists k :: 0 <= k < n && log[k].owner == i)
    && (forall k :: n <= k < |log| ==> log[k].owner != i)
    && BytesOf(log, i) == count
  }

  lemma {:induction false} BytesAt(y: Sys, i: nat)
    requires Order(y) && i < |y.submitted|
    ensures i < |y.ends| ==> BytesOf(y.log, i) == y.submitted[i].count
    ensures i == |y.ends| ==> BytesOf(y.log, i) == HeadBytes(y) && (HeadBytes(y) < y.submitted[i].count || HeadDescs(y) == 0)
  {
    hide Owners, PendIs, CompletedOk, AtEntry, Sound;
  }

  lemma {:induction false} PendAt(y: Sys)
    requires Order(y)
    ensures Finished(y.tx.lists) <= |y.ends| && Begin(y.ends, Finished(y.tx.lists)) <= y.consumed
    ensures Finished(y.tx.lists) < |y.ends| ==> y.consumed < y.ends[Finished(y.tx.lists)]
  {
    hide Owners, BytesAre, WorkIs, CompletedOk, AllSound, UntouchedAt;
  }

  /** A stretch of the log lies below `n`, or not. */
  lemma {:induction false} DoneStretch(log: seq<Sent>, n: nat, i: nat, begin: nat, end: nat, count: nat)
    requires begin <= end <= |log| && n <= |log|
    requires forall k :: 0 <= k < |log| ==> (log[k].owner == i <==> begin <= k < end)
    ensures Done(log, n, i, count) <==> begin < end <= n && BytesOf(log, i) == count
  {
    hide BytesOf;
    if begin < end && end <= n {
      assert log[begin].owner == i;
    }
    if begin < end && end > n {
      assert log[end - 1].owner == i;
    }
  }

  /** Which requests are complete is decided by the log and the consumed count alone. */
  lemma {:induction false} CompletedIffDone(y: Sys, i: nat)
    requires Base(y) && Order(y) && i < |y.submitted|
    ensures i < Finished(y.tx.lists) <==> Done(y.log, y.consumed, i, y.submitted[i].count)
  {
    hide Base, Order, Done, BytesOf, Owners, Rising, PostedReqs;
    BaseIndices(y);
    OwnersOf(y);
    OwnersRise(y.log, y.ends);
    OrderCounts(y);
    OwnersAre(y.log, y.ends, i);
    BytesAt(y, i);
    PendAt(y);
    var d, w := Finished(y.tx.lists), |y.ends|;
    if i > w {
      DoneStretch(y.log, y.consumed, i, 0, 0, y.submitted[i].count);
    } else {
      DoneStretch(y.log, y.consumed, i, Begin(y.ends, i), Until(y, i), y.submitted[i].count);
      if i < w {
        RisingAt(y.ends, i);
        if i < d {
          BeginMonotone(y.ends, i + 1, d);
        } else {
          BeginMonotone(y.ends, d + 1, i + 1);
        }
      }
    }
  }

  /** MAIN RESULT.  In every run in which no posting call has stopped inside an entry,
      whatever the requests and however their posting was spread over ring refills: request
      `i` has completed if and only if its whole count is posted and the driver has seen the
      hardware consume all of its descriptors; and completions are reported once each,
      without error, in submission order. */
  lemma {:induction false} CompletesExactlyWhenConsumed(kind: Kind, c2h: bool, size: nat, steps: seq<Step>)
    requires size > 0
    ensures var y := Exec(kind, c2h, size, steps);
            AllSound(kind, y.submitted) && !y.inside ==>
              && (forall k :: 0 <= k < |y.tx.lists.completed| ==> y.tx.lists.completed[k] == Completion(k, 0))
              && (forall i :: 0 <= i < |y.submitted| ==>
                    (i < |y.tx.lists.completed| <==> Done(y.log, y.consumed, i, y.submitted[i].count)))
  {
    hide Exec, Base, Order, Done, AllSound;
    var y := Exec(kind, c2h, size, steps);
    ExecKind(kind, c2h, size, steps);
    RunOrder(kind, c2h, size, steps);
    if AllSound(kind, y.submitted) && !y.inside {
      InOrder(y);
      forall i | 0 <= i < |y.submitted|
        ensures i < |y.tx.lists.completed| <==> Done(y.log, y.consumed, i, y.submitted[i].count)
      {
        CompletedIffDone(y, i);
      }
    }
  }

  lemma {:induction false} InOrder(y: Sys)
    requires Order(y)
    ensures forall k :: 0 <= k < |y.tx.lists.completed| ==> y.tx.lists.completed[k] == Completion(k, 0)
  {
    hide Owners, BytesAre, WorkIs, PendIs, AllSound;
  }

  /** A request completes at the writeback service that first reports its last descriptor
      as consumed: never at another step, never earlier and never later. */
  lemma {:induction false} CompletesAtOneService(kind: Kind, c2h: bool, size: nat, steps: seq<Step>, step: Step, i: nat)
    requires size > 0 && i < |Exec(kind, c2h, size, steps).submitted|
    ensures var y, y' := Exec(kind, c2h, size, steps), Exec(kind, c2h, size, steps + [step]);
            AllSound(kind, y'.submitted) && !y'.inside ==>
              && i < |y'.submitted| && y.consumed <= y.hw <= |y.log|
              && ((i >= |y.tx.lists.completed| && i < |y'.tx.lists.completed|) <==>
                  step.ServiceStep? && !Done(y.log, y.consumed, i, y.submitted[i].count)
                                    && Done(y.log, y.hw, i, y.submitted[i].count))
  {
    hide Exec, Base, Order, Done, AllSound, Apply;
    var y, y' := Exec(kind, c2h, size, steps), Exec(kind, c2h, size, steps + [step]);
    ExecKind(kind, c2h, size, steps);
    ExecKind(kind, c2h, size, steps + [step]);
    ExecStep(kind, c2h, size, steps, step);
    StepExtends(y, step);
    if AllSound(kind, y'.submitted) && !y'.inside {
      SoundPrefix(kind, y.submitted, y'.submitted);
      RunOrder(kind, c2h, size, steps);
      RunOrder(kind, c2h, size, steps + [step]);
      BaseIndices(y);
      CompletedIffDone(y, i);
      CompletedIffDone(y', i);
      OnlyServiceCompletes(y, step);
    }
  }

  /** Only a service changes what is complete; it leaves the log alone and catches up with
      the hardware. */
  lemma {:induction false} OnlyServiceCompletes(y: Sys, step: Step)
    requires Base(y) && Order(y) && (!Apply(y, step).inside)
    ensures step.ServiceStep? ==> Apply(y, step).log == y.log && Apply(y, step).consumed == y.hw && Apply(y, step).submitted == y.submitted
    ensures !step.ServiceStep? ==> Apply(y, step).tx.lists.completed == y.tx.lists.completed
  {
    hide Base, Order, Pass, Service;
    BaseIndices(y);
    HardwareIndexOk(y);
    if step.WorkerStep? {
      PassCompletes(y);
    }
  }

  lemma {:induction false} PassCompletes(y: Sys)
    requires Base(y) && Order(y)
    ensures Shape(y.tx.ring)
    ensures !Pass(y, 0).inside ==> Pass(y, 0).tx.lists.completed == y.tx.lists.completed
    decreases |y.tx.lists.work|
  {
    hide Base, Order, AfterPost, NotePosted, Batch, Appended;
    BaseIndices(y);
    if y.tx.lists.work != [] {
      if y.tx.ring.avail == 0 {
        FullRing(y);
      } else {
        PostBase(y, 0);
        PostOrder(y);
        var from, b := HeadPost(y);
        var y1 := AfterPost(y, 0);
        PassGrows(y1, 0);
        if y1.tx.ring.avail > 0 && !y1.inside {
          PassCompletes(y1);
        }
      }
    }
  }

  /* ---- requests whose entries fit ---- */

  /** When entries fit one descriptor each, no posting call ever stops inside an entry, and
      none fails; whenever a request on the work list is partly posted, the search for its
      offset ends at the first byte of an entry. */
  lemma {:induction false} NeverResumesInsideAnEntry(kind: Kind, c2h: bool, size: nat, steps: seq<Step>, i: nat)
    requires size > 0 && i < |Exec(kind, c2h, size, steps).tx.lists.work|
    requires var y := Exec(kind, c2h, size, steps); AllSound(kind, y.submitted) && AllFit(kind, y.submitted)
    ensures var y := Exec(kind, c2h, size, steps);
            var r := y.tx.lists.work[i];
            && !y.inside && y.lost == 0
            && (r.offset != 0 ==>
                 i == 0 && Locate(r.sgl, r.offset).At? && Locate(r.sgl, r.offset).sgOffset == 0
                 && Locate(r.sgl, r.offset).idx < |r.sgl|)
  {
    hide Exec, Base, Order, AllSound, AllFit, Locate;
    var y := Exec(kind, c2h, size, steps);
    ExecKind(kind, c2h, size, steps);
    RunOrder(kind, c2h, size, steps);
    LaterUntouched(y);
    if i == 0 {
      HeadAtBoundary(y);
    }
  }

  lemma {:induction false} HeadAtBoundary(y: Sys)
    requires Base(y) && Order(y) && y.tx.lists.work != []
    ensures var r := y.tx.lists.work[0];
            r.offset != 0 ==> Locate(r.sgl, r.offset).At? && Locate(r.sgl, r.offset).sgOffset == 0
                              && Locate(r.sgl, r.offset).idx < |r.sgl|
  {
    hide Base, Order, Locate;
    HeadFacts(y);
    var r := y.tx.lists.work[0];
    if r.offset != 0 {
      var i := LocateWithin(r.sgl, r.offset);
      assert r.sgl[..|r.sgl|] == r.sgl;
    }
  }

  /* ---- progress ---- */

  predicate AllWell(kind: Kind, reqs: seq<Req>)
  {
    forall i :: 0 <= i < |reqs| ==> WellFormed(kind, reqs[i]) && reqs[i].id == i
  }

  lemma {:induction false} WellIsSound(kind: Kind, r: Req)
    requires WellFormed(kind, r)
    ensures Sound(kind, r) && FitEach(kind, r.sgl)
    ensures r.count > 0 ==> NonEmpty(r.sgl)
  {
    assert r.sgl[..0] == [] && r.sgl[..1] == [r.sgl[0]] && r.sgl[..|r.sgl|] == r.sgl;
    TotalLenStep(r.sgl, 0);
    TotalLenMonotone(r.sgl, 1, |r.sgl|);
  }

  lemma {:induction false} AllWellIsSound(kind: Kind, reqs: seq<Req>)
    requires AllWell(kind, reqs)
    ensures AllSound(kind, reqs) && AllFit(kind, reqs)
  {
    hide WellFormed, Sound, FitEach;
    forall i | 0 <= i < |reqs| ensures Sound(kind, reqs[i]) && FitEach(kind, reqs[i].sgl) {
      WellIsSound(kind, reqs[i]);
    }
  }

  /** A state of a run of requests as drv/cdev.c builds them. */
  predicate Fine(y: Sys)
  {
    Base(y) && Order(y) && !y.inside && AllWell(y.tx.kind, y.submitted)
  }

  /** Bytes, and requests, that are still to be posted. */
  function Left(work: seq<Req>): int
  {
    if work == [] then 0 else work[0].count - work[0].offset + 1 + Left(work[1..])
  }

  lemma {:induction false} FineHead(y: Sys)
    requires Fine(y) && y.tx.lists.work != []
    ensures |y.ends| < |y.submitted| && WellFormed(y.tx.kind, y.submitted[|y.ends|])
    ensures y.tx.lists.work[0] == Partly(y.submitted[|y.ends|], HeadDescs(y), HeadBytes(y))
    ensures HeadBytes(y) <= y.submitted[|y.ends|].count < U32
  {
    hide Base, Order, WellFormed, AtEntry;
    HeadFacts(y);
  }

  lemma {:induction false} SomeBytes(kind: Kind, sgl: seq<Sg>, from: nat, space: nat)
    requires NonEmpty(sgl) && from <= |sgl| && Batch(kind, sgl, from, space) != []
    ensures CutsLen(Batch(kind, sgl, from, space)) > 0
  {
    hide Cuts, CutsLen;
    var b := Batch(kind, sgl, from, space);
    CutsPositive(kind, sgl[from..], 0);
    assert b == [b[0]] + b[1..];
    CutsLenConcat([b[0]], b[1..]);
    OneCutLen(b[0]);
  }

  lemma {:induction false} PostAdvances(y: Sys)
    requires Fine(y) && y.tx.lists.work != [] && y.tx.ring.avail > 0
    ensures Shape(y.tx.ring) && Fine(AfterPost(y, 0))
    ensures Left(AfterPost(y, 0).tx.lists.work) < Left(y.tx.lists.work)
    ensures AfterPost(y, 0).tx.lists.work == [] || AfterPost(y, 0).tx.ring.avail == 0
            || |AfterPost(y, 0).tx.lists.work| < |y.tx.lists.work|
    ensures |y.log| < |AfterPost(y, 0).log|
  {
    hide Base, Order, AfterPost, NotePosted, Batch, Appended, AtEntry, WellFormed, FitEach, CutsLen;
    FineHead(y);
    PostBase(y, 0);
    PostOrder(y);
    WellIsSound(y.tx.kind, y.submitted[|y.ends|]);
    var from, b := HeadPost(y);
    var w := |y.ends|;
    NoteHead(y.tx.lists, y.submitted[w], HeadDescs(y), HeadBytes(y), |b|, CutsLen(b));
    if HeadBytes(y) + CutsLen(b) < y.submitted[w].count {
      SomeBytes(y.tx.kind, y.submitted[w].sgl, from, y.tx.ring.avail);
    }
  }

  lemma {:induction false} PassAdvances(y: Sys)
    requires Fine(y)
    ensures Shape(y.tx.ring) && Fine(Pass(y, 0)) && Pass(y, 0).submitted == y.submitted
    ensures y.tx.lists.work != [] && y.tx.ring.avail > 0 ==> Left(Pass(y, 0).tx.lists.work) < Left(y.tx.lists.work)
    ensures Left(Pass(y, 0).tx.lists.work) <= Left(y.tx.lists.work)
    decreases |y.tx.lists.work|
  {
    hide Base, Order, AfterPost, Left, AllWell;
    BaseIndices(y);
    if y.tx.lists.work != [] {
      if y.tx.ring.avail == 0 {
        FullRing(y);
      } else {
        PostAdvances(y);
        PostExtends(y, 0);
        var y1 := AfterPost(y, 0);
        if y1.tx.ring.avail > 0 {
          OrderCounts(y1);
          PassAdvances(y1);
        }
      }
    }
  }

  /** One round: post what fits, let the hardware finish all it was told of, service the
      writeback. */
  function Round(y: Sys): (y': Sys)
    requires Base(y)
    ensures Base(y')
  {
    hide Base, Apply;
    var y1 := Apply(y, WorkerStep);
    HardwareIndexOk(y1);
    var y2 := Apply(y1, HardwareStep(Delta(y1.tx.pidxReg, Slot(y1.hw, |y1.tx.ring.slots|), |y1.tx.ring.slots|)));
    Apply(y2, ServiceStep)
  }

  function Rounds(y: Sys, n: nat): (y': Sys)
    requires Base(y)
    ensures Base(y')
    decreases n
  {
    hide Base, Round;
    if n == 0 then y else Rounds(Round(y), n - 1)
  }

  lemma {:induction false} RoundAdvances(y: Sys)
    requires Fine(y) && |y.tx.ring.slots| >= 2
    ensures var y' := Round(y);
            && Fine(y') && y'.submitted == y.submitted && |y'.tx.ring.slots| == |y.tx.ring.slots|
            && y'.consumed == |y'.log|
            && Left(y'.tx.lists.work) <= Left(y.tx.lists.work)
            && (y.consumed == |y.log| && y.tx.lists.work != [] ==> Left(y'.tx.lists.work) < Left(y.tx.lists.work))
  {
    hide Base, Order, Left, AllWell, Pass, Service;
    PassAdvances(y);
    BaseIndices(y);
    BaseRoom(y);
    HardwareIndexOk(y);
    PassExtends(y, 0);
    var y1 := Pass(y, 0);
    assert Apply(y, WorkerStep) == y1;
    HardwareIndexOk(y1);
    HardwareOrder(y1, |y1.log| - y1.hw);
    HardwareBase(y1, |y1.log| - y1.hw);
    var y2 := y1.(hw := |y1.log|);
    HardwareIndexOk(y2);
    ServiceOrder(y2);
    DistributeWork(y2);
    ServiceSizes(y2.tx, Slot(y2.hw, |y2.tx.ring.slots|));
  }

  lemma {:induction false} BaseRoom(y: Sys)
    requires Base(y)
    ensures y.tx.ring.avail == |y.tx.ring.slots| - 1 - (|y.log| - y.consumed)
  {
  }

  lemma {:induction false} AllPosted(y: Sys)
    requires Fine(y) && y.consumed == |y.log|
    ensures y.tx.lists.work == [] ==> |y.tx.lists.completed| == |y.submitted|
    ensures Left(y.tx.lists.work) >= 0
    ensures y.tx.lists.work != [] ==> Left(y.tx.lists.work) > 0
  {
    hide Base, Order, AllWell;
    OrderCounts(y);
    PendAt(y);
    OwnersOf(y);
    LeftPositive(y);
  }

  lemma {:induction false} LeftPositive(y: Sys)
    requires Fine(y)
    ensures Left(y.tx.lists.work) >= |y.tx.lists.work|
  {
    hide Base, Order, AllWell;
    forall i | 0 <= i < |y.tx.lists.work| ensures y.tx.lists.work[i].offset <= y.tx.lists.work[i].count {
      LaterUntouched(y);
      if i == 0 {
        FineHead(y);
      }
    }
    LeftAtLeast(y.tx.lists.work);
  }

  lemma {:induction false} LeftAtLeast(work: seq<Req>)
    requires forall i :: 0 <= i < |work| ==> work[i].offset <= work[i].count
    ensures Left(work) >= |work|
  {
    if work != [] {
      LeftAtLeast(work[1..]);
    }
  }

  lemma {:induction false} EveryRequestCompletes(y: Sys, n: nat)
    requires Fine(y) && |y.tx.ring.slots| >= 2
    requires y.consumed == |y.log| && n >= Left(y.tx.lists.work)
    ensures Rounds(y, n).submitted == y.submitted
    ensures |Rounds(y, n).tx.lists.completed| == |y.submitted|
    decreases n
  {
    hide Base, Order, Round, Left, AllWell;
    AllPosted(y);
    if n > 0 {
      RoundAdvances(y);
      if y.tx.lists.work == [] {
        IdleRound(y);
        EveryRequestCompletes(Round(y), n - 1);
      } else {
        EveryRequestCompletes(Round(y), n - 1);
      }
    }
  }

  /** With nothing to post a round leaves nothing to post. */
  lemma {:induction false} IdleRound(y: Sys)
    requires Fine(y) && y.tx.lists.work == [] && |y.tx.ring.slots| >= 2
    ensures Left(Round(y).tx.lists.work) == 0
  {
    hide Base, Order, Round, AllWell;
    RoundAdvances(y);
    LeftPositive(Round(y));
  }

  /** `n` rounds complete every request submitted so far. */
  predicate CompleteAfter(y: Sys, n: nat)
    requires Base(y)
  {
    Rounds(y, n).submitted == y.submitted && |Rounds(y, n).tx.lists.completed| == |y.submitted|
  }

  lemma {:induction false} RunFine(kind: Kind, c2h: bool, size: nat, steps: seq<Step>)
    requires size > 0 && AllWell(kind, Exec(kind, c2h, size, steps).submitted)
    ensures Fine(Exec(kind, c2h, size, steps)) && |Exec(kind, c2h, size, steps).tx.ring.slots| == size
  {
    hide Base, Order, Exec, AllWell, AllSound, AllFit;
    var y := Exec(kind, c2h, size, steps);
    ExecKind(kind, c2h, size, steps);
    AllWellIsSound(kind, y.submitted);
    RunOrder(kind, c2h, size, steps);
  }

  /** MAIN RESULT on progress.  No request is stranded: from every reachable state of a ring
      with at least two slots, finitely many rounds, in which the hardware does what the
      index register tells it and no more, complete every request that was submitted. */
  lemma {:induction false} NoRequestIsStranded(kind: Kind, c2h: bool, size: nat, steps: seq<Step>)
    requires size >= 2 && AllWell(kind, Exec(kind, c2h, size, steps).submitted)
    ensures exists n: nat :: CompleteAfter(Exec(kind, c2h, size, steps), n)
  {
    hide Exec, Base, Order, AllWell, CompleteAfter;
    RunFine(kind, c2h, size, steps);
    var n := SomeRounds(Exec(kind, c2h, size, steps));
  }

  lemma {:induction false} SomeRounds(y: Sys) returns (n: nat)
    requires Fine(y) && |y.tx.ring.slots| >= 2
    ensures CompleteAfter(y, n)
  {
    hide Base, Order, Round, Left, AllWell;
    RoundAdvances(y);
    AllPosted(Round(y));
    n := Left(Round(y).tx.lists.work);
    EveryRequestCompletes(Round(y), n);
    n := n + 1;
  }
}
