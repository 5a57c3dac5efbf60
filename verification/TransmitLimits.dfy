/** Requests with an entry that needs more than one descriptor: what goes wrong with them,
    and that nothing goes wrong without them. */
module TransmitLimits {
  import opened RingIndex
  import opened ScatterGather
  import opened TransmitSpec
  import opened TransmitTiling
  import opened TransmitRuns
  import opened TransmitOrder
  import opened TransmitContent
  import opened TransmitTheorems

  /* ---- what calls for such a request take ---- */

  /** A call with room for everything takes everything. */
  lemma {:induction false} WholeBatch(kind: Kind, sgl: seq<Sg>, from: nat, space: nat)
    requires from <= |sgl| && space >= |Cuts(kind, sgl[from..])|
    ensures Batch(kind, sgl, from, space) == Cuts(kind, sgl[from..])
    ensures TotalLen(sgl[..from]) + CutsLen(Cuts(kind, sgl[from..])) == TotalLen(sgl)
  {
    hide Cuts, CutsLen, TotalLen;
    IntendedLen(kind, sgl[from..]);
    assert sgl == sgl[..from] + sgl[from..];
    TotalLenConcat(sgl[..from], sgl[from..]);
  }

  /** An entry that needs more than one descriptor has at least two cuts, the first of them
      of full length. */
  lemma {:induction false} OversizedCuts(kind: Kind, sgl: seq<Sg>, j: nat)
    requires j < |sgl| && sgl[j].len > MaxLen(kind)
    ensures var all, before := Cuts(kind, sgl), |Cuts(kind, sgl[..j])|;
            && before + 2 <= |all| && |Cuts(kind, sgl[j..])| == |all| - before
            && CutsLen(all[..before + 1]) == TotalLen(sgl[..j]) + MaxLen(kind)
  {
    hide Cuts, CutsLen, TotalLen, EntryCuts;
    var all, before, after := Cuts(kind, sgl), Cuts(kind, sgl[..j]), Cuts(kind, sgl[j..]);
    assert sgl == sgl[..j] + sgl[j..];
    CutsConcat(kind, sgl[..j], sgl[j..]);
    IntendedLen(kind, sgl[..j]);
    EntryFirstCut(kind, sgl[j].addr, sgl[j].len);
    EntryNotEmpty(kind, sgl[j].addr + MaxLen(kind), sgl[j].len - MaxLen(kind));
    CutsOfFirst(kind, sgl[j..]);
    assert all[..|before| + 1] == before + [after[0]];
    CutsLenConcat(before, [after[0]]);
    OneCutLen(after[0]);
  }

  lemma {:induction false} EntryNotEmpty(kind: Kind, addr: nat, len: nat)
    requires len > 0
    ensures EntryCuts(kind, addr, len) != []
  {
  }

  lemma {:induction false} CutsOfFirst(kind: Kind, sgl: seq<Sg>)
    requires sgl != []
    ensures Cuts(kind, sgl) == EntryCuts(kind, sgl[0].addr, sgl[0].len) + Cuts(kind, sgl[1..])
  {
  }

  /** The call that is cut off after the first piece of entry `j`. */
  lemma {:induction false} CutOff(kind: Kind, r: Req, j: nat, space: nat)
    requires Sound(kind, r) && j < |r.sgl| && r.sgl[j].len > MaxLen(kind) && space == |Cuts(kind, r.sgl[..j])| + 1
    ensures var b := Batch(kind, r.sgl, 0, space);
            && Decide(kind, r.sgl, 0, space) == Take(0, b) && |b| == space
            && CutsLen(b) == TotalLen(r.sgl[..j]) + MaxLen(kind) < r.count
  {
    hide Cuts, CutsLen, TotalLen, EntryCuts;
    OversizedCuts(kind, r.sgl, j);
    assert r.sgl[0..] == r.sgl;
    InsideEntry(kind, r.sgl, j);
  }

  /** The next call starts entry `j` over, and ends beyond the count of the request. */
  lemma {:induction false} StartedOver(kind: Kind, r: Req, j: nat, space: nat)
    requires Sound(kind, r) && j < |r.sgl| && r.sgl[j].len > MaxLen(kind) && space >= |Cuts(kind, r.sgl[j..])|
    ensures var b, offset := Cuts(kind, r.sgl[j..]), TotalLen(r.sgl[..j]) + MaxLen(kind);
            && Decide(kind, r.sgl, offset, space) == Take(j, b) && |b| >= 2
            && (offset + CutsLen(b)) % U32 != r.count
  {
    hide Cuts, CutsLen, TotalLen, EntryCuts;
    OversizedCuts(kind, r.sgl, j);
    InsideEntry(kind, r.sgl, j);
    WholeBatch(kind, r.sgl, j, space);
    Beyond(kind, r.count);
  }

  lemma {:induction false} Beyond(kind: Kind, count: nat)
    requires count < U32
    ensures (count + MaxLen(kind)) % U32 != count
  {
  }

  lemma {:induction false} AllAtOnce(kind: Kind, r: Req, space: nat)
    requires Sound(kind, r) && space >= |Cuts(kind, r.sgl)|
    ensures Cuts(kind, r.sgl) != []
    ensures Decide(kind, r.sgl, 0, space) == Take(0, Cuts(kind, r.sgl)) && CutsLen(Cuts(kind, r.sgl)) == r.count
  {
    hide Cuts, CutsLen;
    SomeCuts(kind, r.sgl);
    assert r.sgl[0..] == r.sgl && r.sgl[..0] == [];
    WholeBatch(kind, r.sgl, 0, space);
  }

  /* ---- following a run ---- */

  /** Where a run stands, as far as its counters and lists are concerned. */
  predicate Stage(y: Sys, kind: Kind, size: nat, reqs: seq<Req>, lists: Lists, posted: nat, consumed: nat, hw: nat)
  {
    && Base(y) && y.tx.kind == kind && |y.tx.ring.slots| == size && y.submitted == reqs
    && y.tx.lists == lists && |y.log| == posted && y.consumed == consumed && y.hw == hw
  }

  lemma {:induction false} StageSubmit(y: Sys, kind: Kind, size: nat, reqs: seq<Req>, lists: Lists, posted: nat, consumed: nat, hw: nat, r: Req)
    requires Stage(y, kind, size, reqs, lists, posted, consumed, hw) && r.descNr == 0 && r.offset == 0 && r.id == |reqs|
    ensures Stage(Apply(y, SubmitStep(r)), kind, size, reqs + [r], lists.(work := lists.work + [r]), posted, consumed, hw)
    ensures Apply(y, SubmitStep(r)).log == y.log
  {
    hide Base;
    BaseIndices(y);
    HardwareIndexOk(y);
  }

  lemma {:induction false} StageHardware(y: Sys, kind: Kind, size: nat, reqs: seq<Req>, lists: Lists, posted: nat, consumed: nat, hw: nat, n: nat)
    requires Stage(y, kind, size, reqs, lists, posted, consumed, hw) && hw + n <= posted
    ensures Stage(Apply(y, HardwareStep(n)), kind, size, reqs, lists, posted, consumed, hw + n)
    ensures Apply(y, HardwareStep(n)).log == y.log
  {
    hide Base;
    BaseIndices(y);
    HardwareIndexOk(y);
  }

  lemma {:induction false} StageService(y: Sys, kind: Kind, size: nat, reqs: seq<Req>, lists: Lists, posted: nat, consumed: nat, hw: nat)
    requires Stage(y, kind, size, reqs, lists, posted, consumed, hw) && consumed < hw
    ensures Stage(Apply(y, ServiceStep), kind, size, reqs, Distribute(lists, hw - consumed + lists.credit), posted, hw, hw)
    ensures Apply(y, ServiceStep).log == y.log
  {
    hide Base, Distribute;
    BaseIndices(y);
    BaseSlots(y);
    HardwareIndexOk(y);
    ServiceSizes(y.tx, Slot(y.hw, |y.tx.ring.slots|));
  }

  lemma {:induction false} StagePost(y: Sys, kind: Kind, size: nat, reqs: seq<Req>, lists: Lists, posted: nat, consumed: nat, hw: nat,
                                     k: nat, from: nat, b: seq<Cut>)
    requires Stage(y, kind, size, reqs, lists, posted, consumed, hw) && k < |lists.work|
    requires Decide(kind, lists.work[k].sgl, lists.work[k].offset, y.tx.ring.avail) == Take(from, b)
    ensures Shape(y.tx.ring)
    ensures var y' := AfterPost(y, k);
            && Stage(y', kind, size, reqs, NotePosted(lists, k, |b|, CutsLen(b)), posted + |b|, consumed, hw)
            && y.log <= y'.log && (forall c :: posted <= c < |y'.log| ==> y'.log[c].owner == lists.work[k].id)
  {
    hide Base, AfterPost, Written, NotePosted, Decide, CutsLen;
    BaseIndices(y);
    PostCases(y, k);
    PostBase(y, k);
    PostExtends(y, k);
  }

  /** A pass that serves two requests: the first stays or goes, and there is room left. */
  lemma {:induction false} PassOfTwo(y: Sys)
    requires Shape(y.tx.ring) && |y.tx.lists.work| == 2
    requires AfterPost(y, 0).tx.ring.avail > 0
    ensures var y1 := AfterPost(y, 0);
            var k := if |y1.tx.lists.work| < 2 then 0 else 1;
            && k < |y1.tx.lists.work|
            && (AfterPost(y1, k).tx.ring.avail == 0 || |AfterPost(y1, k).tx.lists.work| == k ==> Pass(y, 0) == AfterPost(y1, k))
  {
    hide AfterPost;
    var y1 := AfterPost(y, 0);
    var k := if |y1.tx.lists.work| < 2 then 0 else 1;
    var y2 := AfterPost(y1, k);
    if y2.tx.ring.avail > 0 && |y2.tx.lists.work| == k {
      assert Pass(y2, k) == y2;
    }
  }

  /* ---- a run in which a request completes too early ---- */

  /** The first request fills most of the ring, so that posting for the second stops inside
      an entry.  The second one is posted again when the ring is empty, passes its own
      count, and stays on the work list; the third one is posted behind it, and is paid for
      with credits of the second. */
  function EarlySteps(f: Req, r: Req, q: Req, n: nat): seq<Step>
  {
    [SubmitStep(f), SubmitStep(r), WorkerStep, HardwareStep(n), ServiceStep,
     SubmitStep(q), WorkerStep, HardwareStep(1), ServiceStep]
  }

  /** The three requests and the place where the second one is cut off. */
  predicate Setting(kind: Kind, f: Req, r: Req, q: Req, j: nat)
  {
    && Sound(kind, f) && Sound(kind, r) && Sound(kind, q)
    && f.id == 0 && r.id == 1 && q.id == 2 && !f.async && !q.async
    && j < |r.sgl| && r.sgl[j].len > MaxLen(kind)
    && |Cuts(kind, f.sgl)| >= |Cuts(kind, r.sgl[j..])| && |Cuts(kind, q.sgl)| == 1
  }

  /** Descriptors posted before the second request is posted again. */
  function Before(kind: Kind, f: Req, r: Req, j: nat): nat
    requires j < |r.sgl|
  {
    |Cuts(kind, f.sgl)| + |Cuts(kind, r.sgl[..j])| + 1
  }

  /** The second request after its first and after its second call. */
  function Once(kind: Kind, r: Req, j: nat): Req
    requires j < |r.sgl|
  {
    r.(descNr := |Cuts(kind, r.sgl[..j])| + 1, offset := TotalLen(r.sgl[..j]) + MaxLen(kind))
  }

  function Twice(kind: Kind, r: Req, j: nat): Req
    requires j < |r.sgl|
  {
    var b, r1 := Cuts(kind, r.sgl[j..]), Once(kind, r, j);
    r1.(descNr := r1.descNr + |b|, offset := (r1.offset + CutsLen(b)) % U32)
  }

  lemma {:induction false} FirstPass(y: Sys, kind: Kind, f: Req, r: Req, q: Req, j: nat)
    requires Setting(kind, f, r, q, j)
    requires Stage(y, kind, Before(kind, f, r, j) + 1, [f, r], Lists(0, [f, r], [], []), 0, 0, 0)
    ensures Stage(Apply(y, WorkerStep), kind, Before(kind, f, r, j) + 1, [f, r],
                  Lists(0, [Once(kind, r, j)], [f.(descNr := |Cuts(kind, f.sgl)|, offset := f.count)], []),
                  Before(kind, f, r, j), 0, 0)
  {
    hide Base, AfterPost, Decide, Cuts, CutsLen, TotalLen, Batch, Sound;
    var size, first := Before(kind, f, r, j) + 1, Cuts(kind, f.sgl);
    BaseIndices(y);
    BaseRoom(y);
    HardwareIndexOk(y);
    FreshSound(kind, f);
    FreshSound(kind, r);
    HeadSound(kind, f);
    AllAtOnce(kind, f, y.tx.ring.avail);
    StagePost(y, kind, size, [f, r], Lists(0, [f, r], [], []), 0, 0, 0, 0, 0, first);
    var y1, lists1 := AfterPost(y, 0), Lists(0, [r], [f.(descNr := |first|, offset := f.count)], []);
    NoteAll(kind, f, r);
    BaseRoom(y1);
    BaseIndices(y1);
    CutOff(kind, r, j, y1.tx.ring.avail);
    var b := Batch(kind, r.sgl, 0, y1.tx.ring.avail);
    StagePost(y1, kind, size, [f, r], lists1, |first|, 0, 0, 0, 0, b);
    NoteSome(kind, r, j, lists1, |b|, CutsLen(b));
    BaseRoom(AfterPost(y1, 0));
    PassOfTwo(y);
  }

  lemma {:induction false} NoteAll(kind: Kind, f: Req, r: Req)
    requires Sound(kind, f)
    ensures NotePosted(Lists(0, [f, r], [], []), 0, |Cuts(kind, f.sgl)|, CutsLen(Cuts(kind, f.sgl))) ==
            Lists(0, [r], [f.(descNr := |Cuts(kind, f.sgl)|, offset := f.count)], [])
  {
    hide Cuts, CutsLen, TotalLen;
    IntendedLen(kind, f.sgl);
    assert [f, r][..0] + [f, r][1..] == [r];
  }

  lemma {:induction false} NoteSome(kind: Kind, r: Req, j: nat, lists: Lists, n: nat, bytes: nat)
    requires Sound(kind, r) && j < |r.sgl| && lists.work == [r]
    requires n == |Cuts(kind, r.sgl[..j])| + 1 && bytes == TotalLen(r.sgl[..j]) + MaxLen(kind) < r.count
    ensures NotePosted(lists, 0, n, bytes) == lists.(work := [Once(kind, r, j)])
  {
    hide Cuts, CutsLen, TotalLen;
    assert [r][0 := Once(kind, r, j)] == [Once(kind, r, j)];
  }

  /** Credits for one pending request, with some left over. */
  lemma {:induction false} PaidAndBanked(ls: Lists, h: Req, credit: nat)
    requires ls.pend == [h] && credit > h.descNr && (!h.async || h.offset == h.count)
    ensures Distribute(ls, credit) == ls.(pend := [], completed := ls.completed + [Completion(h.id, 0)], credit := credit - h.descNr)
  {
    var ls1 := FinishPend(ls);
    assert ls1.pend == [];
    assert Distribute(ls1, credit - h.descNr) == ls1.(credit := credit - h.descNr);
  }

  lemma {:induction false} NoteSecond(kind: Kind, r: Req, q: Req, j: nat, lists: Lists)
    requires Sound(kind, q) && j < |r.sgl| && lists.work == [Once(kind, r, j), q] && lists.pend == []
    requires Twice(kind, r, j).offset != r.count && |Cuts(kind, q.sgl)| == 1
    ensures NotePosted(lists, 0, |Cuts(kind, r.sgl[j..])|, CutsLen(Cuts(kind, r.sgl[j..]))) == lists.(work := [Twice(kind, r, j), q])
    ensures NotePosted(lists.(work := [Twice(kind, r, j), q]), 1, 1, CutsLen(Cuts(kind, q.sgl))) ==
            lists.(work := [Twice(kind, r, j)], pend := [q.(descNr := 1, offset := q.count)])
  {
    hide Cuts, CutsLen, TotalLen;
    IntendedLen(kind, q.sgl);
    var r1, r2 := Once(kind, r, j), Twice(kind, r, j);
    assert [r1, q][0 := r2] == [r2, q];
    assert [r2, q][..1] + [r2, q][2..] == [r2];
  }

  /** The lists after the second pass. */
  function Behind(kind: Kind, r: Req, q: Req, j: nat, lists: Lists): Lists
    requires j < |r.sgl|
  {
    lists.(work := [Twice(kind, r, j)], pend := [q.(descNr := 1, offset := q.count)])
  }

  lemma {:induction false} SecondPass(y: Sys, kind: Kind, f: Req, r: Req, q: Req, j: nat, lists: Lists) returns (y': Sys, m: nat)
    requires Setting(kind, f, r, q, j) && lists.work == [Once(kind, r, j), q] && lists.pend == []
    requires Stage(y, kind, Before(kind, f, r, j) + 1, [f, r, q], lists, Before(kind, f, r, j), Before(kind, f, r, j), Before(kind, f, r, j))
    ensures y' == Apply(y, WorkerStep) && m == |Cuts(kind, r.sgl[j..])| >= 2
    ensures Stage(y', kind, Before(kind, f, r, j) + 1, [f, r, q], Behind(kind, r, q, j, lists),
                  Before(kind, f, r, j) + m + 1, Before(kind, f, r, j), Before(kind, f, r, j))
    ensures |y'.log| == Before(kind, f, r, j) + m + 1 && y'.log[Before(kind, f, r, j) + m].owner == 2
  {
    hide Base, AfterPost, Decide, Cuts, CutsLen, TotalLen, Batch, Sound;
    var n, b, last := Before(kind, f, r, j), Cuts(kind, r.sgl[j..]), Cuts(kind, q.sgl);
    BaseIndices(y);
    BaseRoom(y);
    HardwareIndexOk(y);
    FreshSound(kind, q);
    StartedOver(kind, r, j, y.tx.ring.avail);
    NoteSecond(kind, r, q, j, lists);
    StagePost(y, kind, n + 1, [f, r, q], lists, n, n, n, 0, j, b);
    var y1, lists1 := AfterPost(y, 0), lists.(work := [Twice(kind, r, j), q]);
    BaseRoom(y1);
    BaseIndices(y1);
    AllAtOnce(kind, q, y1.tx.ring.avail);
    StagePost(y1, kind, n + 1, [f, r, q], lists1, n + |b|, n, n, 1, 0, last);
    PassOfTwo(y);
    y', m := Apply(y, WorkerStep), |b|;
  }

  /** The state in which the run ends. */
  function EarlyEnd(kind: Kind, c2h: bool, f: Req, r: Req, q: Req, j: nat): Sys
    requires j < |r.sgl|
  {
    Exec(kind, c2h, Before(kind, f, r, j) + 1, EarlySteps(f, r, q, Before(kind, f, r, j)))
  }

  /** The counters say that the third request is complete, while its only descriptor has not
      been consumed. */
  lemma {:induction false} CompletesTooEarly(kind: Kind, c2h: bool, f: Req, r: Req, q: Req, j: nat)
    requires Setting(kind, f, r, q, j)
    ensures var n, m, y := Before(kind, f, r, j), |Cuts(kind, r.sgl[j..])|, EarlyEnd(kind, c2h, f, r, q, j);
            && m >= 2
            && y.submitted == [f, r, q] && y.tx.lists.completed == [Completion(0, 0), Completion(2, 0)]
            && y.consumed == n + 1 && |y.log| == n + m + 1
            && y.log[n + m].owner == 2
            && !Done(y.log, y.consumed, 2, q.count)
  {
    hide Base, Exec, Apply, Sound, Cuts, CutsLen, TotalLen, Stage, Distribute;
    var n, m, size := Before(kind, f, r, j), |Cuts(kind, r.sgl[j..])|, Before(kind, f, r, j) + 1;
    var r1 := Once(kind, r, j);
    var y5 := UpToService(kind, c2h, f, r, q, j);
    var banked := Lists(|Cuts(kind, r.sgl[..j])| + 1, [r1], [], [Completion(0, 0)]);
    FreshSound(kind, q);
    StageSubmit(y5, kind, size, [f, r], banked, n, n, n, q);
    var y6, l6 := Apply(y5, SubmitStep(q)), banked.(work := banked.work + [q]);
    assert l6.work == [r1, q] && [f, r] + [q] == [f, r, q];
    var y7, m' := SecondPass(y6, kind, f, r, q, j, l6);
    var l7 := Behind(kind, r, q, j, l6);
    StageHardware(y7, kind, size, [f, r, q], l7, n + m + 1, n, n, 1);
    var y8 := Apply(y7, HardwareStep(1));
    StageService(y8, kind, size, [f, r, q], l7, n + m + 1, n, n + 1);
    PaidAndBanked(l7, q.(descNr := 1, offset := q.count), 1 + l7.credit);
    var y9 := Apply(y8, ServiceStep);
    StageIs(y9, kind, size, [f, r, q], Distribute(l7, 1 + l7.credit), n + m + 1, n + 1, n + 1);
    var steps := EarlySteps(f, r, q, n);
    Follow(kind, c2h, size, steps, 5);
    Follow(kind, c2h, size, steps, 6);
    Follow(kind, c2h, size, steps, 7);
    Follow(kind, c2h, size, steps, 8);
    assert steps[..9] == steps;
    assert y9.log[n + m].owner == 2;
  }

  lemma {:induction false} StageIs(y: Sys, kind: Kind, size: nat, reqs: seq<Req>, lists: Lists, posted: nat, consumed: nat, hw: nat)
    requires Stage(y, kind, size, reqs, lists, posted, consumed, hw)
    ensures y.submitted == reqs && y.tx.lists == lists && |y.log| == posted && y.consumed == consumed
  {
  }

  /** The first half of the run: the ring is empty again, and the credits of the second
      request are banked. */
  lemma {:induction false} UpToService(kind: Kind, c2h: bool, f: Req, r: Req, q: Req, j: nat) returns (y: Sys)
    requires Setting(kind, f, r, q, j)
    ensures var n := Before(kind, f, r, j);
            && y == Exec(kind, c2h, n + 1, EarlySteps(f, r, q, n)[..5])
            && Stage(y, kind, n + 1, [f, r],
                     Lists(|Cuts(kind, r.sgl[..j])| + 1, [Once(kind, r, j)], [], [Completion(0, 0)]), n, n, n)
  {
    hide Base, Exec, Apply, Sound, Cuts, CutsLen, TotalLen, Stage, Distribute;
    var n, size, steps := Before(kind, f, r, j), Before(kind, f, r, j) + 1, EarlySteps(f, r, q, Before(kind, f, r, j));
    FreshSound(kind, f);
    FreshSound(kind, r);
    StageInitial(kind, c2h, size);
    ExecNone(kind, c2h, size, steps);
    var y0 := Initial(kind, c2h, size);
    StageSubmit(y0, kind, size, [], Lists(0, [], [], []), 0, 0, 0, f);
    var y1 := Apply(y0, SubmitStep(f));
    Follow(kind, c2h, size, steps, 0);
    assert [] + [f] == [f];
    StageSubmit(y1, kind, size, [f], Lists(0, [f], [], []), 0, 0, 0, r);
    var y2 := Apply(y1, SubmitStep(r));
    Follow(kind, c2h, size, steps, 1);
    assert [f] + [r] == [f, r];
    FirstPass(y2, kind, f, r, q, j);
    var y3 := Apply(y2, WorkerStep);
    Follow(kind, c2h, size, steps, 2);
    var f' := f.(descNr := |Cuts(kind, f.sgl)|, offset := f.count);
    var l3 := Lists(0, [Once(kind, r, j)], [f'], []);
    StageHardware(y3, kind, size, [f, r], l3, n, 0, 0, n);
    var y4 := Apply(y3, HardwareStep(n));
    Follow(kind, c2h, size, steps, 3);
    StageService(y4, kind, size, [f, r], l3, n, 0, n);
    PaidAndBanked(l3, f', n);
    y := Apply(y4, ServiceStep);
    Follow(kind, c2h, size, steps, 4);
    assert Distribute(l3, n) == Lists(|Cuts(kind, r.sgl[..j])| + 1, [Once(kind, r, j)], [], [Completion(0, 0)]);
  }

  lemma {:induction false} StageInitial(kind: Kind, c2h: bool, size: nat)
    requires size > 0
    ensures Stage(Initial(kind, c2h, size), kind, size, [], Lists(0, [], [], []), 0, 0, 0)
  {
    hide Base;
  }

  /** One more step of a run. */
  lemma {:induction false} Follow(kind: Kind, c2h: bool, size: nat, steps: seq<Step>, k: nat)
    requires size > 0 && k < |steps|
    ensures Exec(kind, c2h, size, steps[..k + 1]) == Apply(Exec(kind, c2h, size, steps[..k]), steps[k])
  {
    hide Base, Exec, Apply;
    assert steps[..k + 1] == steps[..k] + [steps[k]];
    ExecStep(kind, c2h, size, steps[..k], steps[k]);
  }

  lemma {:induction false} ExecNone(kind: Kind, c2h: bool, size: nat, steps: seq<Step>)
    requires size > 0
    ensures Exec(kind, c2h, size, steps[..0]) == Initial(kind, c2h, size)
  {
    hide Base, Apply, Initial;
  }

  /* ---- the exact condition on requests ---- */

  /** Every request is complete exactly when its whole count is posted and all of its
      descriptors are seen consumed. */
  predicate Exact(y: Sys)
  {
    forall i :: 0 <= i < |y.submitted| ==> (Complete(y, i) <==> Done(y.log, y.consumed, i, y.submitted[i].count))
  }

  predicate Complete(y: Sys, i: nat)
  {
    exists c :: 0 <= c < |y.tx.lists.completed| && y.tx.lists.completed[c].id == i
  }

  /** All requests of the run are sound, and have the given scatter list or one whose
      entries fit one descriptor each. */
  predicate Serves(kind: Kind, reqs: seq<Req>, sgl: seq<Sg>)
  {
    AllSound(kind, reqs) && forall i :: 0 <= i < |reqs| ==> reqs[i].sgl == sgl || FitEach(kind, reqs[i].sgl)
  }

  /** A queue of this kind, with a ring of any size, serves requests with this scatter list
      among others right, whatever the interleaving. */
  ghost predicate ExactInAllRuns(kind: Kind, c2h: bool, sgl: seq<Sg>)
  {
    forall size: nat, steps: seq<Step> :: size > 0 ==> ExactIn(kind, c2h, size, steps, sgl)
  }

  predicate ExactIn(kind: Kind, c2h: bool, size: nat, steps: seq<Step>, sgl: seq<Sg>)
    requires size > 0
  {
    Serves(kind, Exec(kind, c2h, size, steps).submitted, sgl) ==> Exact(Exec(kind, c2h, size, steps))
  }

  lemma {:induction false} FitIsExact(kind: Kind, c2h: bool, size: nat, steps: seq<Step>, sgl: seq<Sg>)
    requires size > 0 && FitEach(kind, sgl)
    ensures ExactIn(kind, c2h, size, steps, sgl)
  {
    hide Exec, Base, Done, AllSound, FitEach, Order;
    var y := Exec(kind, c2h, size, steps);
    if Serves(kind, y.submitted, sgl) {
      RunOrder(kind, c2h, size, steps);
      CompletesExactlyWhenConsumed(kind, c2h, size, steps);
      forall i | 0 <= i < |y.submitted| ensures Complete(y, i) <==> i < |y.tx.lists.completed| {
        if i < |y.tx.lists.completed| {
          assert y.tx.lists.completed[i].id == i;
        }
      }
    }
  }

  /** A request for `n` pieces that fit one descriptor each. */
  function Plain(kind: Kind, id: nat, n: nat): (r: Req)
  {
    var len := if kind.MM? then 1 else 0;
    Req(id, seq(n, _ => Sg(0, len)), 0, if kind.MM? then n else 0, false, 0, 0)
  }

  lemma {:induction false} PlainIs(kind: Kind, id: nat, n: nat)
    requires n > 0 && (kind.MM? ==> n < U32)
    ensures Sound(kind, Plain(kind, id, n)) && FitEach(kind, Plain(kind, id, n).sgl)
    ensures |Cuts(kind, Plain(kind, id, n).sgl)| == n
  {
    CutsOnePerEntry(kind, Plain(kind, id, n).sgl);
    PlainLen(Plain(kind, id, n).sgl, if kind.MM? then 1 else 0);
  }

  lemma {:induction false} PlainLen(sgl: seq<Sg>, len: nat)
    requires len <= 1 && forall k :: 0 <= k < |sgl| ==> sgl[k].len == len
    ensures TotalLen(sgl) == if len == 1 then |sgl| else 0
  {
    if sgl != [] {
      PlainLen(sgl[1..], len);
    }
  }

  /** A memory-mapped queue takes at most one descriptor for each byte. */
  lemma {:induction false} CutsAtMostBytes(cuts: seq<Cut>)
    requires forall k :: 0 <= k < |cuts| ==> cuts[k].len > 0
    ensures |cuts| <= CutsLen(cuts)
  {
    if cuts != [] {
      CutsAtMostBytes(cuts[..|cuts| - 1]);
    }
  }

  lemma {:induction false} MmCutsBound(sgl: seq<Sg>)
    ensures |Cuts(MM, sgl)| <= TotalLen(sgl)
  {
    hide Cuts, CutsLen, TotalLen;
    forall k | 0 <= k < |Cuts(MM, sgl)| ensures Cuts(MM, sgl)[k].len > 0 {
      var e := CutInEntry(MM, sgl, k);
    }
    CutsAtMostBytes(Cuts(MM, sgl));
    IntendedLen(MM, sgl);
  }

  /** A scatter list with an entry that is too long spoils some run. */
  lemma {:induction false} OversizedIsNot(kind: Kind, c2h: bool, sgl: seq<Sg>, j: nat) returns (size: nat, steps: seq<Step>)
    requires sgl != [] && TotalLen(sgl) < U32 && j < |sgl| && sgl[j].len > MaxLen(kind)
    ensures size > 0 && !ExactIn(kind, c2h, size, steps, sgl)
  {
    hide Exec, Cuts, Done, TotalLen, Plain, Sound, FitEach, Before, EarlySteps;
    OversizedCuts(kind, sgl, j);
    var m := |Cuts(kind, sgl[j..])|;
    var f, r, q := Plain(kind, 0, m), Req(1, sgl, 0, TotalLen(sgl), false, 0, 0), Plain(kind, 2, 1);
    TailCuts(kind, sgl, j);
    PlainIs(kind, 0, m);
    PlainIs(kind, 2, 1);
    PlainIds(kind, m);
    OversizedSound(kind, r, j);
    size, steps := Before(kind, f, r, j) + 1, EarlySteps(f, r, q, Before(kind, f, r, j));
    CompletesTooEarly(kind, c2h, f, r, q, j);
    var y := Exec(kind, c2h, size, steps);
    assert y.tx.lists.completed[1].id == 2;
    assert Complete(y, 2);
    ServedAll(kind, f, r, q, sgl);
    assert y.submitted[2] == q;
  }

  lemma {:induction false} TailCuts(kind: Kind, sgl: seq<Sg>, j: nat)
    requires j <= |sgl| && TotalLen(sgl) < U32
    ensures kind.MM? ==> |Cuts(kind, sgl[j..])| < U32
  {
    hide Cuts, TotalLen;
    MmCutsBound(sgl[j..]);
    assert sgl == sgl[..j] + sgl[j..];
    TotalLenConcat(sgl[..j], sgl[j..]);
  }

  lemma {:induction false} PlainIds(kind: Kind, n: nat)
    ensures Plain(kind, 0, n).id == 0 && Plain(kind, 2, 1).id == 2 && !Plain(kind, 0, n).async && !Plain(kind, 2, 1).async
  {
  }

  lemma {:induction false} OversizedSound(kind: Kind, r: Req, j: nat)
    requires j < |r.sgl| && r.sgl[j].len > MaxLen(kind) && TotalLen(r.sgl) < U32
    requires r.count == TotalLen(r.sgl) && r.descNr == 0 && r.offset == 0
    ensures Sound(kind, r)
  {
    InsideEntry(kind, r.sgl, j);
  }

  lemma {:induction false} ServedAll(kind: Kind, f: Req, r: Req, q: Req, sgl: seq<Sg>)
    requires Sound(kind, f) && Sound(kind, r) && Sound(kind, q) && f.id == 0 && r.id == 1 && q.id == 2
    requires FitEach(kind, f.sgl) && r.sgl == sgl && FitEach(kind, q.sgl)
    ensures Serves(kind, [f, r, q], sgl)
  {
    hide Sound, FitEach;
  }

  /** MAIN RESULT.  For every scatter list of a request: in ALL runs that serve requests with
      this list, and any others whose entries fit, requests complete exactly when all of
      their descriptors are seen consumed, if and only if every entry of the list fits one
      descriptor. */
  lemma {:induction false} ExactForAllRunsIffEntriesFit(kind: Kind, c2h: bool, sgl: seq<Sg>)
    requires sgl != [] && TotalLen(sgl) < U32
    ensures ExactInAllRuns(kind, c2h, sgl) <==> (forall k :: 0 <= k < |sgl| ==> sgl[k].len <= MaxLen(kind))
  {
    hide ExactIn, TotalLen;
    if FitEach(kind, sgl) {
      forall size: nat, steps: seq<Step> | size > 0 ensures ExactIn(kind, c2h, size, steps, sgl) {
        FitIsExact(kind, c2h, size, steps, sgl);
      }
    } else {
      var j :| 0 <= j < |sgl| && sgl[j].len > MaxLen(kind);
      var size, steps := OversizedIsNot(kind, c2h, sgl, j);
    }
  }

  /* ---- a concrete case ---- */

  /** Requests of two pages, of one buffer of two pages, and of one page, on a streaming
      queue with a ring of four slots. */
  function Pages(id: nat, lens: seq<nat>, count: nat): Req
  {
    Req(id, seq(|lens|, k requires 0 <= k < |lens| => Sg(0, lens[k])), 0, count, false, 0, 0)
  }

  /** The third request is reported complete when the hardware has consumed four of six
      descriptors; its own is the sixth. */
  lemma {:induction false} EarlyCompletion()
    ensures var f, r, q := Pages(0, [4096, 4096], 8192), Pages(1, [8192], 8192), Pages(2, [4096], 4096);
            var y := Exec(StH2c, false, 4, EarlySteps(f, r, q, 3));
            && Sound(StH2c, f) && Sound(StH2c, r) && Sound(StH2c, q)
            && y.tx.lists.completed == [Completion(0, 0), Completion(2, 0)]
            && |y.log| == 6 && y.consumed == 4 && y.log[5].owner == 2
            && y.tx.ring.cidx == 0 && y.tx.ring.pidx == 2
  {
    hide Exec, Base;
    var f, r, q := Pages(0, [4096, 4096], 8192), Pages(1, [8192], 8192), Pages(2, [4096], 4096);
    PagesOf(f, r, q);
    CompletesTooEarly(StH2c, false, f, r, q, 0);
    ExecKind(StH2c, false, 4, EarlySteps(f, r, q, 3));
    BaseSlots(Exec(StH2c, false, 4, EarlySteps(f, r, q, 3)));
  }

  lemma {:induction false} PagesOf(f: Req, r: Req, q: Req)
    requires f == Pages(0, [4096, 4096], 8192) && r == Pages(1, [8192], 8192) && q == Pages(2, [4096], 4096)
    ensures Sound(StH2c, f) && Sound(StH2c, r) && Sound(StH2c, q)
    ensures |Cuts(StH2c, f.sgl)| == 2 && |Cuts(StH2c, q.sgl)| == 1
    ensures |Cuts(StH2c, r.sgl[0..])| == 2 && |Cuts(StH2c, r.sgl[..0])| == 0
  {
    CutsOnePerEntry(StH2c, f.sgl);
    CutsOnePerEntry(StH2c, q.sgl);
    assert f.sgl[1..] == [Sg(0, 4096)] && f.sgl[1..][1..] == [] && q.sgl[1..] == [] && r.sgl[1..] == [];
    assert TotalLen(f.sgl) == 4096 + TotalLen(f.sgl[1..]) == 8192;
    assert TotalLen(q.sgl) == 4096 && TotalLen(r.sgl) == 8192;
    assert EntryCuts(StH2c, 0, 8192) == [Cut(0, 4096)] + EntryCuts(StH2c, 4096, 4096) == [Cut(0, 4096), Cut(4096, 4096)];
    assert r.sgl[0..] == r.sgl;
    assert Cuts(StH2c, r.sgl) == EntryCuts(StH2c, 0, 8192) + Cuts(StH2c, r.sgl[1..]);
  }
}
