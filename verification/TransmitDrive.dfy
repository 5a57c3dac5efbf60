/** The driver's objects, taken through an arbitrary run, are in the state that `Exec`
    computes; so everything proved of runs holds of them. */
module TransmitDrive {
  import opened RingIndex
  import opened ScatterGather
  import opened TransmitSpec
  import opened TransmitRuns
  import opened TransmitQueue

  /** The run after one more step. */
  lemma {:induction false} OneStep(kind: Kind, c2h: bool, size: nat, steps: seq<Step>, i: nat)
    requires size > 0 && i < |steps|
    ensures Exec(kind, c2h, size, steps[..i + 1]) == Apply(Exec(kind, c2h, size, steps[..i]), steps[i])
  {
    hide Base, Exec, Apply;
    assert steps[..i + 1] == steps[..i] + [steps[i]];
    ExecStep(kind, c2h, size, steps[..i], steps[i]);
  }

  /** What a step does to the queue, and what the loop has to keep track of. */
  lemma {:induction false} ApplyIs(y: Sys, step: Step)
    requires Base(y)
    ensures Shape(y.tx.ring) && HwIndexOk(y.tx.ring, Slot(y.hw, |y.tx.ring.slots|)) && y.tx.pidxReg < |y.tx.ring.slots|
    ensures var y' := Apply(y, step);
            match step
            case SubmitStep(r) =>
              if r.descNr == 0 && r.offset == 0 && r.id == |y.submitted|
              then y'.tx == TransmitSpec.Submit(y.tx, r) && |y'.submitted| == |y.submitted| + 1 && y'.hw == y.hw
              else y' == y
            case WorkerStep => y'.tx == Worker(y.tx, 0) && y'.submitted == y.submitted && y'.hw == y.hw
            case HardwareStep(n) =>
              y' == y.(hw := if n <= Delta(y.tx.pidxReg, Slot(y.hw, |y.tx.ring.slots|), |y.tx.ring.slots|) then y.hw + n else y.hw)
            case ServiceStep =>
              y'.tx == TransmitSpec.Service(y.tx, Slot(y.hw, |y.tx.ring.slots|)) && y'.submitted == y.submitted && y'.hw == y.hw
  {
    hide Base, Pass, Worker, Service;
    BaseShape(y);
    HardwareIndexOk(y);
    PassIsWorker(y, 0);
    PassBase(y, 0);
  }

  lemma {:induction false} ExecNone(kind: Kind, c2h: bool, size: nat, steps: seq<Step>)
    requires size > 0
    ensures Exec(kind, c2h, size, steps[..0]) == Initial(kind, c2h, size)
    ensures Initial(kind, c2h, size).tx == Configured(kind, c2h, size)
    ensures Initial(kind, c2h, size).hw == 0 && Initial(kind, c2h, size).submitted == []
    ensures steps[..|steps|] == steps
  {
    hide Base;
  }

  /** What the loop keeps track of is what the history says. */
  ghost predicate Tracks(q: DescQueue, y: Sys, hw: nat, count: nat)
    reads q
  {
    q.model == y.tx && hw == y.hw && count == |y.submitted|
  }

  /** A run on objects: the steps decide when requests are submitted, when the worker runs,
      how far the hardware gets, and when the writeback is served.  The hardware looks at
      the index register. */
  method Drive(kind: Kind, c2h: bool, size: nat, steps: seq<Step>) returns (q: DescQueue, hw: nat)
    requires size > 0
    ensures fresh(q) && q.Valid()
    ensures q.model == Exec(kind, c2h, size, steps).tx && hw == Exec(kind, c2h, size, steps).hw
  {
    hide Exec, Base, Apply, Worker, Service, Initial, Configured, HwIndexOk, Slot, Delta, Shape, TransmitSpec.Submit;
    ExecNone(kind, c2h, size, steps);
    q := new DescQueue(kind, c2h, size);
    var count: nat := 0;
    hw := 0;
    for i := 0 to |steps|
      invariant fresh(q) && fresh(q.desc) && q.Valid() && q.desc.Length == size
      invariant forall r :: r in q.work || r in q.pend ==> fresh(r)
      invariant Tracks(q, Exec(kind, c2h, size, steps[..i]), hw, count)
    {
      ghost var y := Exec(kind, c2h, size, steps[..i]);
      OneStep(kind, c2h, size, steps, i);
      ApplyIs(y, steps[i]);
      match steps[i] {
        case SubmitStep(r) =>
          if r.descNr == 0 && r.offset == 0 && r.id == count {
            var req := new Request(r.id, r.sgl, r.epAddr, r.count, r.async);
            var rv := q.Submit(req, true);
            count := count + 1;
          }
        case WorkerStep =>
          forall k | 0 <= k < |q.work| ensures fresh(q.work[k]) {
            assert q.work[k] in q.work;
          }
          q.WrkProc();
        case HardwareStep(n) =>
          if n <= Delta(q.pidxReg, Slot(hw, size), size) {
            hw := hw + n;
          }
        case ServiceStep =>
          forall k | 0 <= k < |q.pend| ensures fresh(q.pend[k]) {
            assert q.pend[k] in q.pend;
          }
          q.ServiceWb(Slot(hw, size));
      }
    }
  }
}
