/** What the descriptors in the ring transfer, in runs in which no posting call has stopped
    inside an entry. */
module TransmitContent {
  import opened RingIndex
  import opened ScatterGather
  import opened TransmitSpec
  import opened TransmitTiling
  import opened TransmitRuns
  import opened TransmitOrder

  /** The descriptor transfers the piece. */
  predicate Carries(kind: Kind, c2h: bool, d: Desc, p: Piece)
  {
    && d.len == p.len
    && (kind.MM? ==> d.valid)
    && (kind.MM? && c2h ==> d.src == p.card && d.dst == p.host)
    && (kind.MM? && !c2h ==> d.src == p.host && d.dst == p.card)
    && (kind.StH2c? ==> d.src == p.host)
  }

  /** The log from `begin` to `end` carries the first pieces. */
  predicate CarriesAll(kind: Kind, c2h: bool, log: seq<Sent>, begin: nat, end: nat, ps: seq<Piece>)
  {
    begin <= end <= |log| && end - begin <= |ps| &&
    forall k :: begin <= k < end ==> Carries(kind, c2h, log[k].desc, ps[k - begin])
  }

  function Tiling(kind: Kind, r: Req): seq<Piece>
  {
    Intended(kind, r.sgl, r.epAddr)
  }

  /** Requests posted in full were posted piece by piece; the next one is being so. */
  predicate Content(y: Sys)
  {
    && |y.ends| <= |y.submitted| && Begin(y.ends, |y.ends|) <= |y.log|
    && (forall i :: 0 <= i < |y.ends| && NonEmpty(y.submitted[i].sgl) ==> PostedWhole(y, i))
    && (|y.ends| < |y.submitted| && NonEmpty(y.submitted[|y.ends|].sgl) ==> PostedPart(y, |y.ends|))
  }

  predicate PostedWhole(y: Sys, i: nat)
    requires i < |y.ends| <= |y.submitted|
  {
    && CarriesAll(y.tx.kind, y.tx.c2h, y.log, Begin(y.ends, i), y.ends[i], Tiling(y.tx.kind, y.submitted[i]))
    && y.ends[i] - Begin(y.ends, i) == |Tiling(y.tx.kind, y.submitted[i])|
  }

  predicate PostedPart(y: Sys, i: nat)
    requires i == |y.ends| < |y.submitted| && Begin(y.ends, |y.ends|) <= |y.log|
  {
    && CarriesAll(y.tx.kind, y.tx.c2h, y.log, Begin(y.ends, i), |y.log|, Tiling(y.tx.kind, y.submitted[i]))
    && HeadDescs(y) <= |Cuts(y.tx.kind, y.submitted[i].sgl)|
    && CutsLen(Cuts(y.tx.kind, y.submitted[i].sgl)[..HeadDescs(y)]) == HeadBytes(y)
  }

  /* ---- where a call stands among the cuts ---- */

  /** With non-empty entries no cut is empty, so bytes determine the number of cuts. */
  lemma {:induction false} CutsPositive(kind: Kind, sgl: seq<Sg>, k: nat)
    requires NonEmpty(sgl) && k < |Cuts(kind, sgl)|
    ensures Cuts(kind, sgl)[k].len > 0
  {
    hide Cuts, CutsLen, TotalLen;
    var e := CutInEntry(kind, sgl, k);
  }

  lemma {:induction false} CutsLenStrict(cuts: seq<Cut>, i: nat, j: nat)
    requires i < j <= |cuts| && forall k :: 0 <= k < |cuts| ==> cuts[k].len > 0
    ensures CutsLen(cuts[..i]) < CutsLen(cuts[..j])
  {
    hide CutsLen;
    assert cuts[..j] == cuts[..i] + ([cuts[i]] + cuts[i + 1..j]);
    CutsLenConcat(cuts[..i], [cuts[i]] + cuts[i + 1..j]);
    CutsLenConcat([cuts[i]], cuts[i + 1..j]);
    OneCutLen(cuts[i]);
  }

  /** A call that resumes at the entry where `n` cuts end takes the next cuts. */
  lemma {:induction false} BatchContinues(kind: Kind, sgl: seq<Sg>, card: nat, from: nat, n: nat, space: nat)
    requires NonEmpty(sgl) && from <= |sgl| && n <= |Cuts(kind, sgl)|
    requires CutsLen(Cuts(kind, sgl)[..n]) == TotalLen(sgl[..from])
    ensures var b, ps := Batch(kind, sgl, from, space), Intended(kind, sgl, card);
            && n + |b| <= |ps| == |Cuts(kind, sgl)|
            && Pieces(b, card + TotalLen(sgl[..from])) == ps[n..n + |b|]
            && CutsLen(Cuts(kind, sgl)[..n + |b|]) == TotalLen(sgl[..from]) + CutsLen(b)
            && (TotalLen(sgl[..from]) + CutsLen(b) == TotalLen(sgl) ==> n + |b| == |ps|)
  {
    hide Cuts, CutsLen, TotalLen, Pieces;
    var all, before, after := Cuts(kind, sgl), Cuts(kind, sgl[..from]), Cuts(kind, sgl[from..]);
    var b := Batch(kind, sgl, from, space);
    assert sgl == sgl[..from] + sgl[from..];
    CutsConcat(kind, sgl[..from], sgl[from..]);
    IntendedLen(kind, sgl[..from]);
    assert all[..|before|] == before;
    forall k | 0 <= k < |all| ensures all[k].len > 0 { CutsPositive(kind, sgl, k); }
    if n < |before| {
      CutsLenStrict(all, n, |before|);
    } else if |before| < n {
      CutsLenStrict(all, |before|, n);
    }
    assert all[n..n + |b|] == b;
    PiecesSlice(all, card, n, n + |b|);
    assert all[..n + |b|] == all[..n] + b;
    CutsLenConcat(all[..n], b);
    if n + |b| < |all| {
      CutsLenStrict(all, n + |b|, |all|);
      IntendedLen(kind, sgl);
      assert all[..|all|] == all;
    }
  }

  /** What a batch writes into its slots. */
  lemma {:induction false} AppendedCarries(tx: Tx, r: Req, from: nat, b: seq<Cut>, c: nat)
    requires Shape(tx.ring) && from <= |r.sgl| && c < |b| <= tx.ring.avail
    ensures Carries(tx.kind, tx.c2h, Appended(tx, r, from, b)[c].desc, Pieces(b, r.epAddr + r.offset)[c])
  {
    hide LastFrom, CutsLen;
    assert Delta(Incr(tx.ring.pidx, c, |tx.ring.slots|), tx.ring.pidx, |tx.ring.slots|) == c;
  }

  lemma {:induction false} CarriesMore(tx: Tx, log: seq<Sent>, begin: nat, ps: seq<Piece>, r: Req, from: nat, b: seq<Cut>)
    requires Shape(tx.ring) && from <= |r.sgl| && |b| <= tx.ring.avail
    requires CarriesAll(tx.kind, tx.c2h, log, begin, |log|, ps) && |log| - begin + |b| <= |ps|
    requires Pieces(b, r.epAddr + r.offset) == ps[|log| - begin..|log| - begin + |b|]
    ensures CarriesAll(tx.kind, tx.c2h, log + Appended(tx, r, from, b), begin, |log| + |b|, ps)
  {
    hide Appended, Pieces, Carries;
    var log' := log + Appended(tx, r, from, b);
    forall k | begin <= k < |log'| ensures Carries(tx.kind, tx.c2h, log'[k].desc, ps[k - begin]) {
      if k >= |log| {
        AppendedCarries(tx, r, from, b, k - |log|);
        assert ps[|log| - begin..|log| - begin + |b|][k - |log|] == ps[k - begin];
      }
    }
  }

  lemma {:induction false} CarriesKeep(kind: Kind, c2h: bool, log: seq<Sent>, log': seq<Sent>, begin: nat, end: nat, ps: seq<Piece>)
    requires CarriesAll(kind, c2h, log, begin, end, ps) && log <= log'
    ensures CarriesAll(kind, c2h, log', begin, end, ps)
  {
    hide Carries;
  }

  /* ---- posting ---- */

  /** The requests posted in full before stay as they are. */
  lemma {:induction false} WholeKeeps(y: Sys, y': Sys, i: nat)
    requires i < |y.ends| <= |y.submitted| && PostedWhole(y, i)
    requires y'.tx.kind == y.tx.kind && y'.tx.c2h == y.tx.c2h && y.log <= y'.log && y.ends <= y'.ends && y.submitted <= y'.submitted
    requires |y'.ends| <= |y'.submitted|
    ensures PostedWhole(y', i)
  {
    hide CarriesAll, Tiling;
    CarriesKeep(y.tx.kind, y.tx.c2h, y.log, y'.log, Begin(y.ends, i), y.ends[i], Tiling(y.tx.kind, y.submitted[i]));
  }

  /** The call has posted the request in full: the next one has nothing posted. */
  lemma {:induction false} NextPart(y: Sys)
    requires Order(y) && |y.ends| < |y.submitted| && HeadDescs(y) == 0
    ensures PostedPart(y, |y.ends|)
  {
    hide Owners, BytesAre, AllSound, PendIs, CompletedOk, Cuts, Intended, AtEntry;
    assert Cuts(y.tx.kind, y.submitted[|y.ends|].sgl)[..0] == [];
    assert CutsLen([]) == 0;
  }

  /** What the call adds to the request it is for. */
  lemma {:induction false} PartGrows(y: Sys, from: nat, b: seq<Cut>)
    requires Shape(y.tx.ring) && |y.ends| < |y.submitted| && Begin(y.ends, |y.ends|) <= |y.log|
    requires PostedPart(y, |y.ends|) && NonEmpty(y.submitted[|y.ends|].sgl)
    requires var r := y.submitted[|y.ends|];
             from <= |r.sgl| && TotalLen(r.sgl[..from]) == HeadBytes(y) && b == Batch(y.tx.kind, r.sgl, from, y.tx.ring.avail)
    ensures var w, r := |y.ends|, y.submitted[|y.ends|].(offset := HeadBytes(y));
            var ps, log' := Tiling(y.tx.kind, y.submitted[w]), y.log + Appended(y.tx, r, from, b);
            && |b| <= y.tx.ring.avail
            && CarriesAll(y.tx.kind, y.tx.c2h, log', Begin(y.ends, w), |log'|, ps)
            && HeadDescs(y) + |b| <= |Cuts(y.tx.kind, r.sgl)| == |ps|
            && CutsLen(Cuts(y.tx.kind, r.sgl)[..HeadDescs(y) + |b|]) == HeadBytes(y) + CutsLen(b)
            && (HeadBytes(y) + CutsLen(b) == TotalLen(r.sgl) ==> HeadDescs(y) + |b| == |ps|)
  {
    hide Cuts, CutsLen, TotalLen, Batch, Appended, CarriesAll, NonEmpty, Intended;
    var w := |y.ends|;
    var r := y.submitted[w].(offset := HeadBytes(y));
    BatchContinues(y.tx.kind, r.sgl, r.epAddr, from, HeadDescs(y), y.tx.ring.avail);
    CarriesMore(y.tx, y.log, Begin(y.ends, w), Tiling(y.tx.kind, y.submitted[w]), r, from, b);
  }

  lemma {:induction false} NewWhole(y: Sys, i: nat)
    requires i + 1 == |y.ends| <= |y.submitted| && y.ends[i] == |y.log|
    requires CarriesAll(y.tx.kind, y.tx.c2h, y.log, Begin(y.ends, i), |y.log|, Tiling(y.tx.kind, y.submitted[i]))
    requires |y.log| - Begin(y.ends, i) == |Tiling(y.tx.kind, y.submitted[i])|
    ensures PostedWhole(y, i)
  {
  }

  lemma {:induction false} NewPart(y: Sys)
    requires |y.ends| < |y.submitted| && Begin(y.ends, |y.ends|) <= |y.log|
    requires CarriesAll(y.tx.kind, y.tx.c2h, y.log, Begin(y.ends, |y.ends|), |y.log|, Tiling(y.tx.kind, y.submitted[|y.ends|]))
    requires HeadDescs(y) <= |Cuts(y.tx.kind, y.submitted[|y.ends|].sgl)|
    requires CutsLen(Cuts(y.tx.kind, y.submitted[|y.ends|].sgl)[..HeadDescs(y)]) == HeadBytes(y)
    ensures PostedPart(y, |y.ends|)
  {
  }

  lemma {:induction false} OrderCounts(y: Sys)
    requires Order(y)
    ensures |y.ends| == PostedReqs(y.tx.lists) && |y.ends| + |y.tx.lists.work| == |y.submitted|
    ensures Begin(y.ends, |y.ends|) <= |y.log|
  {
    hide Owners, BytesAre, AllSound, CompletedOk, AtEntry;
  }

  lemma {:induction false} SameAppended(tx: Tx, r: Req, r': Req, from: nat, b: seq<Cut>)
    requires Shape(tx.ring) && from <= |r.sgl| && |b| <= tx.ring.avail
    requires r'.id == r.id && r'.sgl == r.sgl && r'.epAddr == r.epAddr && r'.offset == r.offset
    ensures Appended(tx, r', from, b) == Appended(tx, r, from, b)
  {
    hide Written;
  }

  lemma {:induction false} PostContent(y: Sys)
    requires Base(y) && Order(y) && Content(y) && y.tx.lists.work != [] && y.tx.ring.avail > 0
    ensures Shape(y.tx.ring)
    ensures !AfterPost(y, 0).inside ==> Content(AfterPost(y, 0))
  {
    hide Base, Order, AfterPost, PostedWhole, PostedPart, NotePosted, Batch, Appended, CutsLen, TotalLen, NonEmpty, Cuts, Tiling, AtEntry, Sound, CarriesAll;
    var from, b := HeadPost(y);
    HeadFacts(y);
    BaseIndices(y);
    PostOrder(y);
    var y', w := AfterPost(y, 0), |y.ends|;
    if !y'.inside {
      PostExtends(y, 0);
      OrderCounts(y');
      NoteWork(y.tx.lists, |b|, CutsLen(b), y.submitted[w], HeadDescs(y), HeadBytes(y));
      HeadSound(y.tx.kind, y.submitted[w]);
      forall i | 0 <= i < w && NonEmpty(y.submitted[i].sgl) ensures PostedWhole(y', i) {
        WholeKeeps(y, y', i);
      }
      if NonEmpty(y.submitted[w].sgl) {
        PartGrows(y, from, b);
        SameAppended(y.tx, y.tx.lists.work[0], y.submitted[w].(offset := HeadBytes(y)), from, b);
        if |y'.ends| > w {
          NewWhole(y', w);
        } else {
          NewPart(y');
        }
      }
      if |y'.ends| > w && w + 1 < |y.submitted| {
        NextPart(y');
      }
    }
  }

  lemma {:induction false} PassContent(y: Sys)
    requires Base(y) && Order(y) && Content(y)
    ensures Shape(y.tx.ring)
    ensures !Pass(y, 0).inside ==> Content(Pass(y, 0))
    decreases |y.tx.lists.work|
  {
    hide Base, Order, Content, AfterPost;
    BaseIndices(y);
    if y.tx.lists.work != [] {
      if y.tx.ring.avail == 0 {
        FullRing(y);
      } else {
        PostBase(y, 0);
        PostOrder(y);
        PostContent(y);
        var y1 := AfterPost(y, 0);
        PassGrows(y1, 0);
        if y1.tx.ring.avail > 0 && !y1.inside {
          PassContent(y1);
        }
      }
    }
  }

  /** A step that posts nothing. */
  lemma {:induction false} ContentKeeps(y: Sys, y': Sys)
    requires Content(y) && Order(y) && Order(y')
    requires y'.tx.kind == y.tx.kind && y'.tx.c2h == y.tx.c2h && y'.log == y.log && y'.ends == y.ends && y.submitted <= y'.submitted
    requires y'.tx.lists.work == y.tx.lists.work || (|y'.submitted| == |y.submitted| + 1 && y'.tx.lists.work == y.tx.lists.work + [y'.submitted[|y.submitted|]])
    ensures Content(y')
  {
    hide Order, PostedWhole, PostedPart, NonEmpty;
    OrderCounts(y);
    OrderCounts(y');
    forall i | 0 <= i < |y.ends| && NonEmpty(y.submitted[i].sgl) ensures PostedWhole(y', i) {
      WholeKeeps(y, y', i);
    }
    var w := |y.ends|;
    if w < |y.submitted| && NonEmpty(y.submitted[w].sgl) {
      PartKeeps(y, y');
    } else if w < |y'.submitted| && w == |y.submitted| {
      HeadNone(y);
      NextPart(y');
    }
  }

  lemma {:induction false} HeadNone(y: Sys)
    requires Order(y) && |y.ends| == |y.submitted|
    ensures HeadDescs(y) == 0
  {
    hide Owners, BytesAre, AllSound, CompletedOk, AtEntry, PendIs;
  }

  lemma {:induction false} PartKeeps(y: Sys, y': Sys)
    requires |y.ends| < |y.submitted| && Begin(y.ends, |y.ends|) <= |y.log| && PostedPart(y, |y.ends|)
    requires y'.tx.kind == y.tx.kind && y'.tx.c2h == y.tx.c2h && y'.log == y.log && y'.ends == y.ends && y.submitted <= y'.submitted
    requires HeadBytes(y') == HeadBytes(y)
    ensures PostedPart(y', |y'.ends|)
  {
    hide CarriesAll, Tiling, Cuts, CutsLen;
  }

  lemma {:induction false} StepContent(y: Sys, step: Step)
    requires Base(y) && Order(y) && Content(y) && Order(Apply(y, step)) && !Apply(y, step).inside
    ensures Content(Apply(y, step))
  {
    hide Base, Order, Content, Pass;
    HardwareIndexOk(y);
    BaseIndices(y);
    var y' := Apply(y, step);
    if Enabled(y, step) {
      if step.WorkerStep? {
        PassContent(y);
      } else {
        DistributeWork(y);
        ContentKeeps(y, y');
      }
    }
  }

  lemma {:induction false} DistributeWork(y: Sys)
    requires Shape(y.tx.ring) && HwIndexOk(y.tx.ring, Slot(y.hw, |y.tx.ring.slots|))
    ensures var tx' := Service(y.tx, Slot(y.hw, |y.tx.ring.slots|));
            tx'.lists.work == y.tx.lists.work && tx'.kind == y.tx.kind && tx'.c2h == y.tx.c2h
  {
    hide Distribute;
    DistributeBalanced(y.tx.lists, Delta(Slot(y.hw, |y.tx.ring.slots|), y.tx.ring.cidx, |y.tx.ring.slots|) + y.tx.lists.credit);
  }

  lemma {:induction false} RunContent(kind: Kind, c2h: bool, size: nat, steps: seq<Step>)
    requires size > 0
    ensures var y := Exec(kind, c2h, size, steps);
            AllSound(kind, y.submitted) && !y.inside ==> Content(y)
  {
    hide Base, Order, Content, Apply, AllSound, Initial;
    var y := Exec(kind, c2h, size, steps);
    if steps == [] {
      InitialIs(kind, c2h, size);
      NoContent(Initial(kind, c2h, size));
    } else if AllSound(kind, y.submitted) && !y.inside {
      var before := Exec(kind, c2h, size, steps[..|steps| - 1]);
      ExecKind(kind, c2h, size, steps[..|steps| - 1]);
      StepExtends(before, steps[|steps| - 1]);
      SoundPrefix(kind, before.submitted, y.submitted);
      RunOrder(kind, c2h, size, steps[..|steps| - 1]);
      RunOrder(kind, c2h, size, steps);
      RunContent(kind, c2h, size, steps[..|steps| - 1]);
      StepContent(before, steps[|steps| - 1]);
    }
  }

  lemma {:induction false} NoContent(y: Sys)
    requires |y.submitted| + |y.log| + |y.ends| == 0
    ensures Content(y)
  {
    hide PostedWhole, PostedPart;
  }

  /* ---- the main result ---- */

  /** MAIN RESULT on contents.  In every run in which no posting call has stopped inside an
      entry, whatever the interleaving and however posting was spread over ring refills:
      the descriptors logged for a request with non-empty entries are, in order, the first
      pieces of its tiling, and all of them once it is off the work list; and the log is
      what the ring holds, up to what the driver has seen consumed. */
  lemma {:induction false} RingCarriesTheTiling(kind: Kind, c2h: bool, size: nat, steps: seq<Step>, i: nat)
    requires size > 0
    requires var y := Exec(kind, c2h, size, steps); AllSound(kind, y.submitted) && !y.inside && i < |y.submitted|
    requires NonEmpty(Exec(kind, c2h, size, steps).submitted[i].sgl)
    ensures var y := Exec(kind, c2h, size, steps);
            var own, ps := OwnDescs(y.log, i), Intended(kind, y.submitted[i].sgl, y.submitted[i].epAddr);
            && |own| <= |ps|
            && (forall m :: 0 <= m < |own| ==> Carries(kind, c2h, own[m], ps[m]))
            && (i < |y.tx.lists.completed| + |y.tx.lists.pend| ==> |own| == |ps|)
  {
    hide Exec, Base, Order, Content, Carries, NonEmpty, Intended, AllSound;
    var y := Exec(kind, c2h, size, steps);
    RunOrder(kind, c2h, size, steps);
    RunContent(kind, c2h, size, steps);
    ExecKind(kind, c2h, size, steps);
    OrderCounts(y);
    OwnStretch(y, i);
    if i <= |y.ends| {
      ContentAt(y, i);
    }
  }

  /** The descriptors logged for request `i`, in order. */
  function OwnDescs(log: seq<Sent>, i: nat): seq<Desc>
  {
    if log == [] then []
    else OwnDescs(log[..|log| - 1], i) + (if log[|log| - 1].owner == i then [log[|log| - 1].desc] else [])
  }

  /** Where they are in the log. */
  function Until(y: Sys, i: nat): nat
  {
    if i < |y.ends| then y.ends[i] else |y.log|
  }

  lemma {:induction false} OwnBetween(log: seq<Sent>, i: nat, begin: nat, end: nat, n: nat)
    requires begin <= end <= |log| && n <= |log|
    requires forall k :: 0 <= k < |log| ==> (log[k].owner == i <==> begin <= k < end)
    ensures var own := OwnDescs(log[..n], i);
            && |own| == (if n <= begin then 0 else if n < end then n - begin else end - begin)
            && forall m :: 0 <= m < |own| ==> own[m] == log[begin + m].desc
  {
    if n > 0 {
      OwnBetween(log, i, begin, end, n - 1);
      assert log[..n][..n - 1] == log[..n - 1];
    }
  }

  /** The position belongs to the request in whose stretch it lies. */
  lemma {:induction false} OwnerIs(ends: seq<nat>, owner: nat, i: nat, k: nat)
    requires Rising(ends)
    requires OwnedIn(owner, ends, k) && i <= |ends|
    ensures owner == i <==> Begin(ends, i) <= k && (i < |ends| ==> k < ends[i])
  {
    hide Rising;
    if owner < i {
      BeginMonotone(ends, owner + 1, i);
    } else if i < owner {
      BeginMonotone(ends, i + 1, owner);
    }
  }

  lemma {:induction false} OwnersAre(log: seq<Sent>, ends: seq<nat>, i: nat)
    requires Owners(log, ends) && Begin(ends, |ends|) <= |log|
    ensures i > |ends| ==> forall k :: 0 <= k < |log| ==> log[k].owner != i
    ensures i <= |ends| ==> Begin(ends, i) <= (if i < |ends| then ends[i] else |log|) <= |log|
    ensures i <= |ends| ==> forall k :: 0 <= k < |log| ==>
              (log[k].owner == i <==> Begin(ends, i) <= k < (if i < |ends| then ends[i] else |log|))
  {
    hide OwnedIn, Rising;
    OwnersRise(log, ends);
    forall k | 0 <= k < |log|
      ensures OwnedIn(log[k].owner, ends, k) && log[k].owner <= |ends|
      ensures i <= |ends| ==> (log[k].owner == i <==> Begin(ends, i) <= k && (i < |ends| ==> k < ends[i]))
    {
      OwnerBound(log[k].owner, ends, k);
      if i <= |ends| {
        OwnerIs(ends, log[k].owner, i, k);
      }
    }
    if i < |ends| {
      assert Begin(ends, i) < ends[i];
    }
  }

  lemma {:induction false} OwnersRise(log: seq<Sent>, ends: seq<nat>)
    requires Owners(log, ends)
    ensures Rising(ends)
  {
    hide OwnedIn;
  }

  lemma {:induction false} OwnerBound(owner: nat, ends: seq<nat>, k: nat)
    requires OwnedIn(owner, ends, k)
    ensures owner <= |ends|
  {
  }

  lemma {:induction false} BeginMonotone(ends: seq<nat>, i: nat, j: nat)
    requires Rising(ends)
    requires i <= j <= |ends|
    ensures Begin(ends, i) <= Begin(ends, j)
    decreases j - i
  {
    hide Rising;
    if i < j {
      RisingAt(ends, i);
      BeginMonotone(ends, i + 1, j);
    }
  }

  /** Requests are posted in full one after the other. */
  predicate Rising(ends: seq<nat>)
  {
    forall e :: 0 <= e < |ends| ==> Begin(ends, e) < ends[e]
  }

  lemma {:induction false} RisingAt(ends: seq<nat>, e: nat)
    requires Rising(ends) && e < |ends|
    ensures Begin(ends, e) < ends[e] == Begin(ends, e + 1)
  {
  }

  lemma {:induction false} OwnersOf(y: Sys)
    requires Order(y)
    ensures Owners(y.log, y.ends)
  {
  }

  lemma {:induction false} OwnStretch(y: Sys, i: nat)
    requires Order(y)
    ensures i > |y.ends| ==> OwnDescs(y.log, i) == []
    ensures i <= |y.ends| ==>
              && Begin(y.ends, i) <= Until(y, i) <= |y.log|
              && |OwnDescs(y.log, i)| == Until(y, i) - Begin(y.ends, i)
              && forall m :: 0 <= m < |OwnDescs(y.log, i)| ==> OwnDescs(y.log, i)[m] == y.log[Begin(y.ends, i) + m].desc
  {
    hide Order, Owners;
    OwnersOf(y);
    OrderCounts(y);
    OwnersAre(y.log, y.ends, i);
    assert y.log[..|y.log|] == y.log;
    if i <= |y.ends| {
      OwnBetween(y.log, i, Begin(y.ends, i), Until(y, i), |y.log|);
    } else {
      OwnBetween(y.log, i, 0, 0, |y.log|);
    }
  }

  lemma {:induction false} ContentAt(y: Sys, i: nat)
    requires Content(y) && i <= |y.ends| && i < |y.submitted| && NonEmpty(y.submitted[i].sgl)
    ensures CarriesAll(y.tx.kind, y.tx.c2h, y.log, Begin(y.ends, i), Until(y, i), Tiling(y.tx.kind, y.submitted[i]))
    ensures i < |y.ends| ==> Until(y, i) - Begin(y.ends, i) == |Tiling(y.tx.kind, y.submitted[i])|
  {
    hide CarriesAll, Tiling, NonEmpty;
  }
}
