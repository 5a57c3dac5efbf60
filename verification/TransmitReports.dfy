/** How requests leave a transmit queue: which ones fail, with which status, and that a
    worker pass passes over none.  All of it for requests of any kind. */
module TransmitReports {
  import opened RingIndex
  import opened ScatterGather
  import opened TransmitSpec
  import opened TransmitTiling
  import opened TransmitRuns

  /* ---- which requests fail ---- */

  /** The offset of the request is not in its list, or at its very end. */
  predicate BeyondList(r: Req)
  {
    r.offset != 0 && match Locate(r.sgl, r.offset)
                     case OutOfRange => true
                     case At(i, _) => i >= |r.sgl|
  }

  /** Where the next call for the request resumes. */
  function Entry(r: Req): (i: nat)
    requires !BeyondList(r)
    ensures i <= |r.sgl|
  {
    if r.offset == 0 then 0 else Locate(r.sgl, r.offset).idx
  }

  /** Nothing is left to post, which a memory-mapped queue does not accept. */
  predicate Nothing(kind: Kind, r: Req)
  {
    kind.MM? && !BeyondList(r) && TotalLen(r.sgl[Entry(r)..]) == 0
  }

  predicate Failing(kind: Kind, r: Req)
  {
    BeyondList(r) || Nothing(kind, r)
  }

  /** The error a failing request is reported with: EINVAL for an offset beyond the list,
      EIO for nothing to post; with a callback, EINVAL unless its whole count was posted. */
  predicate FailsWith(kind: Kind, r: Req, c: Completion)
  {
    && Failing(kind, r) && c.id == r.id
    && c.status == if BeyondList(r) || (r.async && r.offset != r.count) then EINVAL else EIO
  }

  /** What becomes of a request that finds room for all of it. */
  predicate PostedToTheEnd(kind: Kind, r: Req, r': Req)
  {
    && !Failing(kind, r)
    && r' == r.(descNr := r.descNr + |Cuts(kind, r.sgl[Entry(r)..])|,
                offset := (r.offset + TotalLen(r.sgl[Entry(r)..])) % U32)
  }

  lemma {:induction false} NoCutsIff(kind: Kind, sgl: seq<Sg>)
    requires kind.MM?
    ensures |Cuts(kind, sgl)| == 0 <==> TotalLen(sgl) == 0
  {
    if sgl != [] {
      NoCutsIff(kind, sgl[1..]);
    }
  }

  /** A call with room decides as `Failing` says. */
  lemma {:induction false} Verdict(kind: Kind, r: Req, space: nat)
    requires space > 0
    ensures var v := Decide(kind, r.sgl, r.offset, space);
            && !v.NoSpace? && (v.Fail? <==> Failing(kind, r))
            && (v.Fail? ==> v.code == if BeyondList(r) then EINVAL else EIO)
            && (v.Take? ==> !BeyondList(r) && v.from == Entry(r) && v.batch == Batch(kind, r.sgl, Entry(r), space))
  {
    hide Cuts, TotalLen, Locate;
    if kind.MM? && !BeyondList(r) {
      NoCutsIff(kind, r.sgl[Entry(r)..]);
    }
  }

  /** A batch that leaves room has everything. */
  lemma {:induction false} WholeRest(kind: Kind, sgl: seq<Sg>, from: nat, space: nat)
    requires from <= |sgl| && |Batch(kind, sgl, from, space)| < space
    ensures Batch(kind, sgl, from, space) == Cuts(kind, sgl[from..])
    ensures CutsLen(Batch(kind, sgl, from, space)) == TotalLen(sgl[from..])
  {
    hide Cuts, CutsLen, TotalLen;
    IntendedLen(kind, sgl[from..]);
    var all := Cuts(kind, sgl[from..]);
    assert all[..|all|] == all;
  }

  /* ---- one pass ---- */

  /** One turn: the request fails and is reported, or it stays or moves to the pending list
      as posted. */
  lemma {:induction false} Turn(tx: Tx, k: nat)
    requires Shape(tx.ring) && k < |tx.lists.work| && tx.ring.avail > 0
    ensures var (t1, rv) := Post(tx, k);
            var t2, r := if rv < 0 then t1.(lists := FinishWork(t1.lists, k, rv)) else t1, tx.lists.work[k];
            && t2.kind == tx.kind && Shape(t2.ring)
            && (Failing(tx.kind, r) ==>
                 && |t2.lists.completed| == |tx.lists.completed| + 1 && tx.lists.completed <= t2.lists.completed
                 && FailsWith(tx.kind, r, t2.lists.completed[|tx.lists.completed|])
                 && t2.lists.work == tx.lists.work[..k] + tx.lists.work[k + 1..] && t2.lists.pend == tx.lists.pend
                 && t2.ring == tx.ring)
            && (!Failing(tx.kind, r) ==>
                 && t2.lists.completed == tx.lists.completed
                 && (if |t2.lists.work| < |tx.lists.work|
                     then t2.lists.work == tx.lists.work[..k] + tx.lists.work[k + 1..]
                     else |t2.lists.work| == |tx.lists.work| && t2.lists.work == tx.lists.work[k := t2.lists.work[k]]
                          && (t2.ring.avail > 0 ==> PostedToTheEnd(tx.kind, r, t2.lists.work[k]))))
  {
    hide Cuts, CutsLen, TotalLen, Locate, Written, Failing, BeyondList, Batch;
    var r := tx.lists.work[k];
    Verdict(tx.kind, r, tx.ring.avail);
    CodeOf(tx.kind, r);
    var v := Decide(tx.kind, r.sgl, r.offset, tx.ring.avail);
    if v.Take? && |v.batch| < tx.ring.avail {
      WholeRest(tx.kind, r.sgl, v.from, tx.ring.avail);
    }
  }

  /** The two codes are different errors. */
  lemma {:induction false} CodeOf(kind: Kind, r: Req)
    ensures Failing(kind, r) ==> FailsWith(kind, r, Completion(r.id, Status(r, if BeyondList(r) then EINVAL else EIO)))
  {
    hide Cuts, TotalLen, Locate;
  }

  /** A completion reports the failure of one of the requests from `k` on. */
  predicate Explained(kind: Kind, work: seq<Req>, k: nat, c: Completion)
  {
    exists j :: k <= j < |work| && FailsWith(kind, work[j], c)
  }

  /** The request on the list is one of those from `k` on, posted to its end. */
  predicate Tried(kind: Kind, work: seq<Req>, k: nat, r': Req)
  {
    exists j :: k <= j < |work| && PostedToTheEnd(kind, work[j], r')
  }

  predicate Told(completed: seq<Completion>, n: nat, kind: Kind, r: Req)
  {
    exists i :: n <= i < |completed| && FailsWith(kind, r, completed[i])
  }

  /** What a pass from position `k` on does to the lists. */
  predicate PassDone(kind: Kind, ls: Lists, k: nat, ls': Lists, room: bool)
  {
    && ls.completed <= ls'.completed && k <= |ls'.work| && k <= |ls.work| && ls'.work[..k] == ls.work[..k]
    && (forall i :: |ls.completed| <= i < |ls'.completed| ==> Explained(kind, ls.work, k, ls'.completed[i]))
    && (room ==> forall i :: k <= i < |ls'.work| ==> Tried(kind, ls.work, k, ls'.work[i]))
    && (room ==> forall j :: k <= j < |ls.work| && Failing(kind, ls.work[j]) ==>
                   Told(ls'.completed, |ls.completed|, kind, ls.work[j]))
  }

  /** A request has left the list, and the pass goes on in its place. */
  lemma {:induction false} PassedOut(kind: Kind, ls: Lists, k: nat, mid: Lists, ls': Lists, room: bool)
    requires k < |ls.work| && PassDone(kind, mid, k, ls', room)
    requires mid.work == ls.work[..k] + ls.work[k + 1..] && ls.completed <= mid.completed
    requires forall i :: |ls.completed| <= i < |mid.completed| ==> FailsWith(kind, ls.work[k], mid.completed[i])
    requires Failing(kind, ls.work[k]) ==> |mid.completed| > |ls.completed|
    ensures PassDone(kind, ls, k, ls', room)
  {
    hide FailsWith, PostedToTheEnd, Failing;
    assert forall j :: k <= j < |mid.work| ==> mid.work[j] == ls.work[j + 1];
    assert ls'.work[..k] == ls.work[..k];
    forall i | |ls.completed| <= i < |ls'.completed| ensures Explained(kind, ls.work, k, ls'.completed[i]) {
      if i < |mid.completed| {
        assert ls'.completed[i] == mid.completed[i];
      } else {
        assert Explained(kind, mid.work, k, ls'.completed[i]);
        var j :| k <= j < |mid.work| && FailsWith(kind, mid.work[j], ls'.completed[i]);
        assert FailsWith(kind, ls.work[j + 1], ls'.completed[i]);
      }
    }
    if room {
      forall i | k <= i < |ls'.work| ensures Tried(kind, ls.work, k, ls'.work[i]) {
        assert Tried(kind, mid.work, k, ls'.work[i]);
        var j :| k <= j < |mid.work| && PostedToTheEnd(kind, mid.work[j], ls'.work[i]);
        assert PostedToTheEnd(kind, ls.work[j + 1], ls'.work[i]);
      }
      forall j | k <= j < |ls.work| && Failing(kind, ls.work[j])
        ensures Told(ls'.completed, |ls.completed|, kind, ls.work[j])
      {
        if j == k {
          assert ls'.completed[|ls.completed|] == mid.completed[|ls.completed|];
        } else {
          assert mid.work[j - 1] == ls.work[j];
          assert Told(ls'.completed, |mid.completed|, kind, mid.work[j - 1]);
        }
      }
    }
  }

  /** A request stays, and the pass goes on behind it. */
  lemma {:induction false} PassedBy(kind: Kind, ls: Lists, k: nat, mid: Lists, ls': Lists, room: bool)
    requires k < |ls.work| == |mid.work| && PassDone(kind, mid, k + 1, ls', room)
    requires mid.work == ls.work[k := mid.work[k]] && mid.completed == ls.completed
    requires !Failing(kind, ls.work[k]) && (room ==> PostedToTheEnd(kind, ls.work[k], mid.work[k]))
    ensures PassDone(kind, ls, k, ls', room)
  {
    hide FailsWith, PostedToTheEnd, Failing;
    assert ls'.work[..k] == ls'.work[..k + 1][..k] == mid.work[..k + 1][..k] == ls.work[..k];
    assert ls'.work[k] == ls'.work[..k + 1][k] == mid.work[k];
    forall i | |ls.completed| <= i < |ls'.completed| ensures Explained(kind, ls.work, k, ls'.completed[i]) {
      assert Explained(kind, mid.work, k + 1, ls'.completed[i]);
      var j :| k + 1 <= j < |mid.work| && FailsWith(kind, mid.work[j], ls'.completed[i]);
      assert mid.work[j] == ls.work[j];
    }
    if room {
      forall i | k <= i < |ls'.work| ensures Tried(kind, ls.work, k, ls'.work[i]) {
        if i > k {
          assert Tried(kind, mid.work, k + 1, ls'.work[i]);
          var j :| k + 1 <= j < |mid.work| && PostedToTheEnd(kind, mid.work[j], ls'.work[i]);
          assert mid.work[j] == ls.work[j];
        }
      }
      forall j | k <= j < |ls.work| && Failing(kind, ls.work[j])
        ensures Told(ls'.completed, |ls.completed|, kind, ls.work[j])
      {
        assert mid.work[j] == ls.work[j];
      }
    }
  }

  /** The pass ends at this request, as the ring is full. */
  lemma {:induction false} PassEnds(kind: Kind, ls: Lists, k: nat, ls': Lists)
    requires k < |ls.work| && ls'.completed == ls.completed
    requires ls'.work == ls.work[..k] + ls.work[k + 1..] || (|ls'.work| == |ls.work| && ls'.work == ls.work[k := ls'.work[k]])
    ensures PassDone(kind, ls, k, ls', false)
  {
    hide FailsWith, PostedToTheEnd, Failing;
  }

  lemma {:induction false} PassNone(kind: Kind, ls: Lists, k: nat, room: bool)
    requires k <= |ls.work| && (room ==> k == |ls.work|)
    ensures PassDone(kind, ls, k, ls, room)
  {
    hide FailsWith, PostedToTheEnd, Failing;
  }

  /** MAIN RESULT on a worker pass, over any requests.  Every completion it reports is the
      failure of a request of the work list, with the error of that failure; and if the ring
      still has room afterwards, every failing request was reported, and every request left
      on the list has been posted to the end of its list.  So none is passed over. */
  lemma {:induction false} PassTriesAll(tx: Tx, k: nat)
    requires Shape(tx.ring) && k <= |tx.lists.work|
    ensures var tx' := Worker(tx, k);
            PassDone(tx.kind, tx.lists, k, tx'.lists, tx'.ring.avail > 0)
    decreases |tx.lists.work| - k
  {
    hide Post, FinishWork, PassDone, FailsWith, PostedToTheEnd, Failing;
    if k == |tx.lists.work| {
      PassNone(tx.kind, tx.lists, k, true);
      PassNone(tx.kind, tx.lists, k, false);
    } else if tx.ring.avail == 0 {
      NoRoom(tx, k);
      PassNone(tx.kind, tx.lists, k, false);
    } else {
      Turn(tx, k);
      var (t1, rv) := Post(tx, k);
      var t2 := if rv < 0 then t1.(lists := FinishWork(t1.lists, k, rv)) else t1;
      var r := tx.lists.work[k];
      var tx' := Worker(tx, k);
      var room := tx'.ring.avail > 0;
      if t2.ring.avail == 0 {
        PassEnds(tx.kind, tx.lists, k, t2.lists);
      } else if |t2.lists.work| < |tx.lists.work| {
        PassTriesAll(t2, k);
        PassedOut(tx.kind, tx.lists, k, t2.lists, tx'.lists, room);
      } else {
        PassTriesAll(t2, k + 1);
        PassedBy(tx.kind, tx.lists, k, t2.lists, tx'.lists, room);
      }
    }
  }

  lemma {:induction false} NoRoom(tx: Tx, k: nat)
    requires Shape(tx.ring) && k < |tx.lists.work| && tx.ring.avail == 0
    ensures Worker(tx, k) == tx
  {
  }

  /* ---- runs ---- */

  /** Pending requests are posted to their count. */
  predicate PendFull(pend: seq<Req>)
  {
    forall i :: 0 <= i < |pend| ==> pend[i].offset == pend[i].count
  }

  lemma {:induction false} WorkerPend(tx: Tx, k: nat)
    requires Shape(tx.ring) && k <= |tx.lists.work| && PendFull(tx.lists.pend)
    ensures PendFull(Worker(tx, k).lists.pend)
    decreases |tx.lists.work| - k
  {
    hide Decide, Written, Cuts, CutsLen;
    if k < |tx.lists.work| {
      var (t1, rv) := Post(tx, k);
      var t2 := if rv < 0 then t1.(lists := FinishWork(t1.lists, k, rv)) else t1;
      if t2.ring.avail > 0 {
        WorkerPend(t2, if |t2.lists.work| < |tx.lists.work| then k else k + 1);
      }
    }
  }

  /** The first `m` pending requests are complete, without error. */
  predicate PaidOff(ls: Lists, ls': Lists, m: nat)
  {
    && m <= |ls.pend| && |ls'.pend| == |ls.pend| - m && ls'.work == ls.work
    && |ls'.completed| == |ls.completed| + m && ls.completed <= ls'.completed
    && (forall i :: 0 <= i < m ==> ls'.completed[|ls.completed| + i] == Completion(ls.pend[i].id, 0))
    && (forall i :: 0 < i < |ls'.pend| ==> ls'.pend[i] == ls.pend[m + i])
    && (ls'.pend != [] ==> ls'.pend[0] == ls.pend[m].(descNr := ls'.pend[0].descNr))
  }

  lemma {:induction false} DistributePays(ls: Lists, credit: nat) returns (m: nat)
    requires PendFull(ls.pend)
    ensures PaidOff(ls, Distribute(ls, credit), m)
    decreases |ls.pend|
  {
    m := 0;
    if ls.pend != [] && credit >= ls.pend[0].descNr {
      if credit > ls.pend[0].descNr {
        m := DistributePays(FinishPend(ls), credit - ls.pend[0].descNr);
        PaidFirst(ls, Distribute(ls, credit), m);
      }
      m := m + 1;
    }
  }

  lemma {:induction false} PaidFirst(ls: Lists, ls': Lists, m: nat)
    requires ls.pend != [] && ls.pend[0].offset == ls.pend[0].count && PaidOff(FinishPend(ls), ls', m)
    ensures PaidOff(ls, ls', m + 1)
  {
    var mid := FinishPend(ls);
    forall i | 0 <= i < m + 1 ensures ls'.completed[|ls.completed| + i] == Completion(ls.pend[i].id, 0) {
      if i > 0 {
        assert ls'.completed[|mid.completed| + (i - 1)] == Completion(mid.pend[i - 1].id, 0);
      } else {
        assert ls'.completed[|ls.completed|] == mid.completed[|ls.completed|];
      }
    }
  }

  lemma {:induction false} PaidKeeps(ls: Lists, ls': Lists, m: nat)
    requires PendFull(ls.pend) && PaidOff(ls, ls', m)
    ensures PendFull(ls'.pend)
  {
  }

  lemma {:induction false} ServicePays(tx: Tx, cidxHw: nat) returns (m: nat)
    requires Shape(tx.ring) && HwIndexOk(tx.ring, cidxHw) && PendFull(tx.lists.pend)
    ensures PaidOff(tx.lists, Service(tx, cidxHw).lists, m) && PendFull(Service(tx, cidxHw).lists.pend)
  {
    hide Distribute;
    m := 0;
    if tx.ring.pidx != tx.ring.cidx && cidxHw != tx.ring.cidx {
      var credit := Delta(cidxHw, tx.ring.cidx, |tx.ring.slots|) + tx.lists.credit;
      m := DistributePays(tx.lists, credit);
      PaidKeeps(tx.lists, Distribute(tx.lists, credit), m);
    }
  }

  lemma {:induction false} RunPendFull(kind: Kind, c2h: bool, size: nat, steps: seq<Step>)
    requires size > 0
    ensures PendFull(Exec(kind, c2h, size, steps).tx.lists.pend)
  {
    hide Base, Worker, Service, Pass, PaidOff;
    if |steps| > 0 {
      var y := Exec(kind, c2h, size, steps[..|steps| - 1]);
      RunPendFull(kind, c2h, size, steps[..|steps| - 1]);
      BaseShape(y);
      HardwareIndexOk(y);
      PassIsWorker(y, 0);
      WorkerPend(y.tx, 0);
      var m := ServicePays(y.tx, Slot(y.hw, |y.tx.ring.slots|));
    }
  }

  /** What a step adds to the completions. */
  ghost predicate Reports(y: Sys, step: Step, y': Sys)
  {
    var ls, ls' := y.tx.lists, y'.tx.lists;
    match step
    case WorkerStep => PassDone(y.tx.kind, ls, 0, ls', y'.tx.ring.avail > 0)
    case ServiceStep => exists m: nat :: PaidOff(ls, ls', m)
    case _ => ls'.completed == ls.completed && ls'.pend == ls.pend
  }

  /** MAIN RESULT on reports, over every run and any requests.  Only a service reports
      success, and for the oldest pending requests, in order, all of which were posted to
      their count; only a worker pass reports errors, each the failure of a request of the
      work list; and nothing that was reported is taken back. */
  lemma {:induction false} StatusSaysWhatHappened(kind: Kind, c2h: bool, size: nat, steps: seq<Step>, step: Step)
    requires size > 0
    ensures var y, y' := Exec(kind, c2h, size, steps), Exec(kind, c2h, size, steps + [step]);
            && Reports(y, step, y') && y.tx.lists.completed <= y'.tx.lists.completed
            && PendFull(y.tx.lists.pend)
            && (forall i :: |y.tx.lists.completed| <= i < |y'.tx.lists.completed| ==>
                  if step.ServiceStep? then y'.tx.lists.completed[i].status == 0
                  else step.WorkerStep? && y'.tx.lists.completed[i].status < 0)
  {
    hide Base, Exec, Worker, Service, Pass, PendFull, FailsWith, Failing, PostedToTheEnd, Apply;
    var y, y' := Exec(kind, c2h, size, steps), Exec(kind, c2h, size, steps + [step]);
    ExecStep(kind, c2h, size, steps, step);
    RunPendFull(kind, c2h, size, steps);
    BaseShape(y);
    HardwareIndexOk(y);
    StepLists(y, step);
    match step {
      case WorkerStep =>
        PassTriesAll(y.tx, 0);
        Errors(y.tx.kind, y.tx.lists, y'.tx.lists, y'.tx.ring.avail > 0);
      case ServiceStep =>
        var m := ServicePays(y.tx, Slot(y.hw, |y.tx.ring.slots|));
        Successes(y.tx.lists, y'.tx.lists, m);
      case _ =>
    }
  }

  lemma {:induction false} StepLists(y: Sys, step: Step)
    requires Base(y)
    ensures Shape(y.tx.ring) && HwIndexOk(y.tx.ring, Slot(y.hw, |y.tx.ring.slots|))
    ensures var tx' := Apply(y, step).tx;
            match step
            case WorkerStep => tx' == Worker(y.tx, 0)
            case ServiceStep => tx' == Service(y.tx, Slot(y.hw, |y.tx.ring.slots|))
            case _ => tx'.lists.completed == y.tx.lists.completed && tx'.lists.pend == y.tx.lists.pend
  {
    hide Base, Worker, Service, Pass;
    BaseShape(y);
    HardwareIndexOk(y);
    PassIsWorker(y, 0);
  }

  lemma {:induction false} Errors(kind: Kind, ls: Lists, ls': Lists, room: bool)
    requires PassDone(kind, ls, 0, ls', room)
    ensures forall i :: |ls.completed| <= i < |ls'.completed| ==> ls'.completed[i].status < 0
  {
    hide Failing;
    forall i | |ls.completed| <= i < |ls'.completed| ensures ls'.completed[i].status < 0 {
      assert Explained(kind, ls.work, 0, ls'.completed[i]);
    }
  }

  lemma {:induction false} Successes(ls: Lists, ls': Lists, m: nat)
    requires PaidOff(ls, ls', m)
    ensures forall i :: |ls.completed| <= i < |ls'.completed| ==> ls'.completed[i].status == 0
  {
    forall i | |ls.completed| <= i < |ls'.completed| ensures ls'.completed[i].status == 0 {
      var q := i - |ls.completed|;
      assert ls'.completed[|ls.completed| + q] == Completion(ls.pend[q].id, 0);
    }
  }
}
