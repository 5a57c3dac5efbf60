/** Start and end flags of streaming descriptors.  The driver sets them and never clears
    them, so a slot keeps the flags of every descriptor that was ever in it. */
module TransmitFlags {
  import opened RingIndex
  import opened ScatterGather
  import opened TransmitSpec
  import opened TransmitTiling
  import opened TransmitRuns
  import opened TransmitOrder
  import opened TransmitContent
  import opened TransmitTheorems
  import opened TransmitLimits

  /* ---- flags that are only ever set ---- */

  /** Some marked descriptor up to `n` was in slot `s`. */
  ghost predicate SomeIn(marks: set<nat>, n: nat, s: nat, size: nat)
    requires size > 0
  {
    exists j :: j in marks && j < n && Slot(j, size) == s
  }

  /** The flags of the slots, and of the logged descriptors when they were posted. */
  ghost predicate Shown(slots: seq<bool>, log: seq<bool>, marks: set<nat>)
  {
    && |slots| > 0
    && (forall j :: j in marks ==> j < |log|)
    && (forall s :: 0 <= s < |slots| ==> (slots[s] <==> SomeIn(marks, |log|, s, |slots|)))
    && (forall k :: 0 <= k < |log| ==> (log[k] <==> SomeIn(marks, k + 1, Slot(k, |slots|), |slots|)))
  }

  /** Posting `n` descriptors, those in `more` marked. */
  lemma {:induction false} ShownPost(slots: seq<bool>, log: seq<bool>, marks: set<nat>,
                                     slots': seq<bool>, log': seq<bool>, more: set<nat>)
    requires Shown(slots, log, marks) && |slots'| == |slots|
    requires log <= log' && |log'| - |log| < |slots|
    requires forall j :: j in more ==> |log| <= j < |log'|
    requires forall s :: 0 <= s < |slots| ==>
               (slots'[s] <==> slots[s] || |log| + Delta(s, Slot(|log|, |slots|), |slots|) in more)
    requires forall k :: |log| <= k < |log'| ==> log'[k] == slots'[Slot(k, |slots|)]
    ensures Shown(slots', log', marks + more)
  {
    var p, p', sz := |log|, |log'|, |slots|;
    forall j | p <= j < p'
      ensures Slot(j, sz) < sz && p + Delta(Slot(j, sz), Slot(p, sz), sz) == j
    {
      SlotDelta(j, p, sz);
    }
    forall s | 0 <= s < sz
      ensures slots'[s] <==> SomeIn(marks + more, p', s, sz)
      ensures forall k :: p <= k < p' && Slot(k, sz) == s ==> (slots'[s] <==> SomeIn(marks + more, k + 1, s, sz))
    {
      SlotShown(slots, p, p', marks, slots', more, s);
    }
    forall k | 0 <= k < p' ensures log'[k] <==> SomeIn(marks + more, k + 1, Slot(k, sz), sz) {
      if k < p {
        assert log'[k] == log[k];
        EarlierOnly(marks, more, p, k + 1, Slot(k, sz), sz);
      } else {
        assert log'[k] == slots'[Slot(k, sz)];
      }
    }
  }

  lemma {:induction false} EarlierOnly(marks: set<nat>, more: set<nat>, p: nat, n: nat, s: nat, size: nat)
    requires size > 0 && n <= p && forall j :: j in more ==> p <= j
    ensures SomeIn(marks + more, n, s, size) <==> SomeIn(marks, n, s, size)
  {
    if SomeIn(marks, n, s, size) {
      var j :| j in marks && j < n && Slot(j, size) == s;
      assert j in marks + more;
    }
  }

  lemma {:induction false} SlotShown(slots: seq<bool>, p: nat, p': nat, marks: set<nat>, slots': seq<bool>, more: set<nat>, s: nat)
    requires |slots'| == |slots| && s < |slots| && p <= p'
    requires forall j :: j in marks ==> j < p
    requires slots[s] <==> SomeIn(marks, p, s, |slots|)
    requires forall j :: j in more ==> p <= j < p'
    requires forall j :: p <= j < p' ==> p + Delta(Slot(j, |slots|), Slot(p, |slots|), |slots|) == j
    requires slots'[s] <==> slots[s] || p + Delta(s, Slot(p, |slots|), |slots|) in more
    ensures slots'[s] <==> SomeIn(marks + more, p', s, |slots|)
    ensures forall k :: p <= k < p' && Slot(k, |slots|) == s ==> (slots'[s] <==> SomeIn(marks + more, k + 1, s, |slots|))
  {
    hide Delta;
    var sz, k := |slots|, p + Delta(s, Slot(p, |slots|), |slots|);
    if slots[s] {
      var j :| j in marks && j < p && Slot(j, sz) == s;
      assert j in marks + more;
    }
    if k in more {
      SlotAhead(p, s, sz);
      assert k in marks + more && Slot(k, sz) == s;
    }
    forall j | j in marks + more && Slot(j, sz) == s ensures slots'[s] {
      if j in marks {
        assert SomeIn(marks, p, s, sz);
      }
    }
  }

  lemma {:induction false} SlotAhead(p: nat, s: nat, sz: nat)
    requires s < sz
    ensures Slot(p + Delta(s, Slot(p, sz), sz), sz) == s
  {
    SlotIncr(p, Delta(s, Slot(p, sz), sz), sz);
  }

  /* ---- what the flags should say ---- */

  /** How many descriptors of the same request come before descriptor `k`. */
  function Nth(log: seq<Sent>, k: nat): nat
    requires k < |log|
  {
    |OwnDescs(log[..k], log[k].owner)|
  }

  /** The descriptor is the first of its request. */
  predicate Leads(log: seq<Sent>, k: nat)
    requires k < |log|
  {
    Nth(log, k) == 0
  }

  /** Number of descriptors of a list before those of its last entry. */
  function BeforeLast(sgl: seq<Sg>): nat
  {
    if sgl == [] then 0 else |Cuts(StH2c, sgl[..|sgl| - 1])|
  }

  /** The descriptor is one of those of the last entry of its request. */
  predicate Closes(reqs: seq<Req>, log: seq<Sent>, k: nat)
    requires k < |log|
  {
    log[k].owner < |reqs| && Nth(log, k) >= BeforeLast(reqs[log[k].owner].sgl)
  }

  ghost function LeadMarks(log: seq<Sent>): set<nat>
  {
    set k | 0 <= k < |log| && Leads(log, k)
  }

  ghost function CloseMarks(reqs: seq<Req>, log: seq<Sent>): set<nat>
  {
    set k | 0 <= k < |log| && Closes(reqs, log, k)
  }

  function SlotSops(slots: seq<Desc>): seq<bool> { seq(|slots|, s requires 0 <= s < |slots| => slots[s].sop) }
  function SlotEops(slots: seq<Desc>): seq<bool> { seq(|slots|, s requires 0 <= s < |slots| => slots[s].eop) }
  function LogSops(log: seq<Sent>): seq<bool> { seq(|log|, k requires 0 <= k < |log| => log[k].desc.sop) }
  function LogEops(log: seq<Sent>): seq<bool> { seq(|log|, k requires 0 <= k < |log| => log[k].desc.eop) }

  /** Every flag is there because some descriptor that was in the slot needed it. */
  ghost predicate Flags(y: Sys)
  {
    && Shown(SlotSops(y.tx.ring.slots), LogSops(y.log), LeadMarks(y.log))
    && Shown(SlotEops(y.tx.ring.slots), LogEops(y.log), CloseMarks(y.submitted, y.log))
    && (forall k :: 0 <= k < |y.log| ==> y.log[k].owner < |y.submitted|)
  }

  /** A request without empty entries, or with a single entry. */
  predicate Regular(reqs: seq<Req>)
  {
    forall i :: 0 <= i < |reqs| ==> NonEmpty(reqs[i].sgl) || |reqs[i].sgl| == 1
  }

  /* ---- one call ---- */

  lemma {:induction false} OwnConcat(a: seq<Sent>, b: seq<Sent>, i: nat)
    ensures OwnDescs(a + b, i) == OwnDescs(a, i) + OwnDescs(b, i)
  {
    if b == [] {
      assert a + b == a;
    } else {
      assert (a + b)[..|a + b| - 1] == a + b[..|b| - 1];
      OwnConcat(a, b[..|b| - 1], i);
    }
  }

  lemma {:induction false} OwnAll(b: seq<Sent>, i: nat)
    requires forall c :: 0 <= c < |b| ==> b[c].owner == i
    ensures |OwnDescs(b, i)| == |b|
  {
    if b != [] {
      OwnAll(b[..|b| - 1], i);
    }
  }

  /** Places of earlier descriptors stay, and new ones follow on. */
  lemma {:induction false} NthAfter(log: seq<Sent>, b: seq<Sent>, i: nat)
    requires forall c :: 0 <= c < |b| ==> b[c].owner == i
    ensures forall k :: 0 <= k < |log| ==> Nth(log + b, k) == Nth(log, k)
    ensures forall k :: |log| <= k < |log| + |b| ==> Nth(log + b, k) == |OwnDescs(log, i)| + (k - |log|)
  {
    hide OwnDescs;
    var log' := log + b;
    forall k | 0 <= k < |log'|
      ensures k < |log| ==> Nth(log', k) == Nth(log, k)
      ensures k >= |log| ==> Nth(log', k) == |OwnDescs(log, i)| + (k - |log|)
    {
      if k < |log| {
        assert log'[..k] == log[..k];
      } else {
        assert log'[..k] == log + b[..k - |log|];
        OwnConcat(log, b[..k - |log|], i);
        OwnAll(b[..k - |log|], i);
      }
    }
  }

  /** Where posting for the head stands among its descriptors. */
  lemma {:induction false} HeadCuts(y: Sys, from: nat)
    requires Base(y) && Order(y) && Content(y) && y.tx.lists.work != [] && |y.ends| < |y.submitted|
    requires var sgl := y.submitted[|y.ends|].sgl;
             from < |sgl| && TotalLen(sgl[..from]) == HeadBytes(y) && (NonEmpty(sgl) || |sgl| == 1)
    ensures HeadDescs(y) == |Cuts(y.tx.kind, y.submitted[|y.ends|].sgl[..from])|
    ensures HeadBytes(y) == 0 <==> from == 0
    ensures HeadDescs(y) == 0 <==> from == 0
  {
    hide Base, Order, Cuts, CutsLen, TotalLen, CarriesAll, Tiling;
    var w := |y.ends|;
    var sgl := y.submitted[w].sgl;
    NoLen();
    HeadFacts(y);
    if NonEmpty(sgl) {
      assert PostedPart(y, w);
      CountByBytes(y.tx.kind, sgl, from, HeadDescs(y));
    } else {
      assert sgl[..from] == [];
      EmptyHead(y);
      assert |Cuts(y.tx.kind, [])| == 0 by { NoCuts(y.tx.kind); }
    }
  }

  lemma {:induction false} NoCuts(kind: Kind)
    ensures Cuts(kind, []) == []
  {
  }

  lemma {:induction false} EmptyHead(y: Sys)
    requires Base(y) && Order(y) && y.tx.lists.work != [] && |y.ends| < |y.submitted| && HeadBytes(y) == 0
    requires var sgl := y.submitted[|y.ends|].sgl; |sgl| == 1 && !NonEmpty(sgl)
    ensures HeadDescs(y) == 0
  {
    hide Owners, BytesAre, PendIs, CompletedOk, AtEntry;
    SoundAt(y.tx.kind, y.submitted, |y.ends|);
    var sgl := y.submitted[|y.ends|].sgl;
    assert sgl[1..] == [] && TotalLen(sgl) == sgl[0].len + TotalLen(sgl[1..]) == 0;
  }

  /** Without empty entries the bytes tell the number of descriptors. */
  lemma {:induction false} CountByBytes(kind: Kind, sgl: seq<Sg>, from: nat, n: nat)
    requires NonEmpty(sgl) && from < |sgl| && n <= |Cuts(kind, sgl)|
    requires CutsLen(Cuts(kind, sgl)[..n]) == TotalLen(sgl[..from])
    ensures n == |Cuts(kind, sgl[..from])| && (n == 0 <==> from == 0) && (TotalLen(sgl[..from]) == 0 <==> from == 0)
  {
    hide Cuts, CutsLen, TotalLen;
    var all, before := Cuts(kind, sgl), Cuts(kind, sgl[..from]);
    assert sgl == sgl[..from] + sgl[from..];
    CutsConcat(kind, sgl[..from], sgl[from..]);
    IntendedLen(kind, sgl[..from]);
    assert all[..|before|] == before;
    forall k | 0 <= k < |all| ensures all[k].len > 0 { CutsPositive(kind, sgl, k); }
    if n < |before| {
      CutsLenStrict(all, n, |before|);
    } else if |before| < n {
      CutsLenStrict(all, |before|, n);
    }
    NoLen();
    assert sgl[..0] == [] && all[..0] == [];
    if from > 0 {
      TotalLenStrict(sgl, 0, from);
    } else {
      NoCuts(kind);
    }
  }

  /** The flags a streaming batch leaves in a slot. */
  lemma {:induction false} BatchFlags(ring: Ring, c2h: bool, sgl: seq<Sg>, card: nat, offset: nat, from: nat, b: seq<Cut>, s: nat)
    requires Shape(ring) && from < |sgl| && 0 < |b| <= ring.avail && s < |ring.slots|
    ensures var d, was, c := Written(StH2c, c2h, ring, sgl, card, offset, from, b)[s], ring.slots[s], Delta(s, ring.pidx, |ring.slots|);
            && (d.sop <==> was.sop || (c == 0 && offset == 0))
            && (d.eop <==> was.eop || (c < |b| && |Cuts(StH2c, sgl[from..|sgl| - 1])| <= c))
  {
    hide Cuts;
  }

  lemma {:induction false} SplitBeforeLast(sgl: seq<Sg>, from: nat)
    requires from < |sgl|
    ensures BeforeLast(sgl) == |Cuts(StH2c, sgl[..from])| + |Cuts(StH2c, sgl[from..|sgl| - 1])|
  {
    hide Cuts;
    assert sgl[..|sgl| - 1] == sgl[..from] + sgl[from..|sgl| - 1];
    CutsConcat(StH2c, sgl[..from], sgl[from..|sgl| - 1]);
  }

  /** Descriptor `k` of a batch from `p` on, before which its request had `n`, is number
      `last` of the request or a later one. */
  predicate Late(p: nat, n: nat, last: nat, k: nat)
  {
    p <= k && n + (k - p) >= last
  }

  ghost function LateMarks(p: nat, m: nat, n: nat, last: nat): set<nat>
  {
    set k | p <= k < p + m && Late(p, n, last, k)
  }

  /** The descriptors of a batch that lead or close their request. */
  lemma {:induction false} NewMarks(reqs: seq<Req>, log: seq<Sent>, more: seq<Sent>, w: nat)
    requires |more| > 0 && w < |reqs| && forall c :: 0 <= c < |more| ==> more[c].owner == w
    ensures var n := |OwnDescs(log, w)|;
            && LeadMarks(log + more) == LeadMarks(log) + (if n == 0 then {|log|} else {})
            && CloseMarks(reqs, log + more) ==
               CloseMarks(reqs, log) + LateMarks(|log|, |more|, n, BeforeLast(reqs[w].sgl))
  {
    hide OwnDescs, BeforeLast, Nth;
    NthAfter(log, more, w);
    var log' := log + more;
    forall k | 0 <= k < |log'|
      ensures k < |log| ==> (Leads(log', k) <==> Leads(log, k)) && (Closes(reqs, log', k) <==> Closes(reqs, log, k))
      ensures k >= |log| ==> log'[k].owner == w
    {
      assert log'[k] == if k < |log| then log[k] else more[k - |log|];
    }
  }

  /** The batch `b` for the request `r`, whose first descriptor resumes entry `from`, takes
      the queue from `y` to `y'`. */
  predicate Appends(y: Sys, y': Sys, r: Req, from: nat, b: seq<Cut>)
  {
    && Shape(y.tx.ring) && y.tx.kind.StH2c? && from < |r.sgl| && 0 < |b| <= y.tx.ring.avail
    && y.tx.ring.pidx == Slot(|y.log|, |y.tx.ring.slots|)
    && y'.submitted == y.submitted && y'.log == y.log + Appended(y.tx, r, from, b)
    && y'.tx.ring.slots == Written(y.tx.kind, y.tx.c2h, y.tx.ring, r.sgl, r.epAddr, r.offset, from, b)
    && r.id < |y.submitted| && r.sgl == y.submitted[r.id].sgl
    && |OwnDescs(y.log, r.id)| == |Cuts(StH2c, r.sgl[..from])|
    && (r.offset == 0 <==> from == 0) && (|OwnDescs(y.log, r.id)| == 0 <==> from == 0)
  }

  lemma {:induction false} AppendedAt(y: Sys, y': Sys, r: Req, from: nat, b: seq<Cut>)
    requires Appends(y, y', r, from, b)
    ensures var p, sz := |y.log|, |y.tx.ring.slots|;
            && |y'.log| == p + |b| && |b| < sz == |y'.tx.ring.slots| && y.log <= y'.log
            && (forall k :: p <= k < p + |b| ==> y'.log[k].desc == y'.tx.ring.slots[Slot(k, sz)] && y'.log[k].owner == r.id)
  {
    hide Written, Cuts, OwnDescs, Delta;
    var p, sz, more := |y.log|, |y.tx.ring.slots|, Appended(y.tx, r, from, b);
    AppendedOwners(y.tx, r, from, b);
    forall k | p <= k < p + |b| ensures y'.log[k].desc == y'.tx.ring.slots[Slot(k, sz)] && y'.log[k].owner == r.id {
      SlotIncr(p, k - p, sz);
      assert y'.log[k] == more[k - p];
    }
  }

  lemma {:induction false} SopsPosted(y: Sys, y': Sys, r: Req, from: nat, b: seq<Cut>)
    requires Appends(y, y', r, from, b) && Flags(y)
    ensures Shown(SlotSops(y'.tx.ring.slots), LogSops(y'.log),
                  LeadMarks(y.log) + if |OwnDescs(y.log, r.id)| == 0 then {|y.log|} else {})
  {
    hide Shown, Cuts, LeadMarks, CloseMarks, OwnDescs, Written, Delta, Appended;
    var p, sz, slots' := |y.log|, |y.tx.ring.slots|, y'.tx.ring.slots;
    var leads: set<nat> := if |OwnDescs(y.log, r.id)| == 0 then {p} else {};
    AppendedAt(y, y', r, from, b);
    forall s | 0 <= s < sz
      ensures slots'[s].sop <==> y.tx.ring.slots[s].sop || p + Delta(s, Slot(p, sz), sz) in leads
    {
      BatchFlags(y.tx.ring, y.tx.c2h, r.sgl, r.epAddr, r.offset, from, b, s);
    }
    ShownPost(SlotSops(y.tx.ring.slots), LogSops(y.log), LeadMarks(y.log), SlotSops(slots'), LogSops(y'.log), leads);
  }

  lemma {:induction false} EopsPosted(y: Sys, y': Sys, r: Req, from: nat, b: seq<Cut>)
    requires Appends(y, y', r, from, b) && Flags(y)
    ensures var n, p := |OwnDescs(y.log, r.id)|, |y.log|;
            Shown(SlotEops(y'.tx.ring.slots), LogEops(y'.log),
                  CloseMarks(y.submitted, y.log) + LateMarks(p, |b|, n, BeforeLast(r.sgl)))
  {
    hide Shown, Cuts, LeadMarks, CloseMarks, OwnDescs, Written, BeforeLast, Delta, Appended;
    var n, p, sz, slots' := |OwnDescs(y.log, r.id)|, |y.log|, |y.tx.ring.slots|, y'.tx.ring.slots;
    var closes := LateMarks(p, |b|, n, BeforeLast(r.sgl));
    AppendedAt(y, y', r, from, b);
    SplitBeforeLast(r.sgl, from);
    forall s | 0 <= s < sz
      ensures slots'[s].eop <==> y.tx.ring.slots[s].eop || p + Delta(s, Slot(p, sz), sz) in closes
    {
      BatchFlags(y.tx.ring, y.tx.c2h, r.sgl, r.epAddr, r.offset, from, b, s);
    }
    ShownPost(SlotEops(y.tx.ring.slots), LogEops(y.log), CloseMarks(y.submitted, y.log), SlotEops(slots'), LogEops(y'.log), closes);
  }

  /** The flags after the batch. */
  lemma {:induction false} FlagsPosted(y: Sys, y': Sys, r: Req, from: nat, b: seq<Cut>)
    requires Appends(y, y', r, from, b) && Flags(y)
    ensures Flags(y')
  {
    hide Shown, Cuts, LeadMarks, CloseMarks, OwnDescs, Written, BeforeLast, Appended;
    AppendedAt(y, y', r, from, b);
    AppendedOwners(y.tx, r, from, b);
    NewMarks(y.submitted, y.log, Appended(y.tx, r, from, b), r.id);
    SopsPosted(y, y', r, from, b);
    EopsPosted(y, y', r, from, b);
  }

  lemma {:induction false} PostFlags(y: Sys)
    requires Base(y) && Order(y) && Content(y) && Flags(y) && y.tx.kind.StH2c? && Regular(y.submitted)
    requires y.tx.lists.work != [] && y.tx.ring.avail > 0
    ensures Shape(y.tx.ring) && Flags(AfterPost(y, 0))
  {
    hide Base, Order, Content, AfterPost, NotePosted, StoppedInside, Cuts, CutsLen, TotalLen, Batch, Written, NonEmpty, Flags, OwnDescs, Appended;
    var from, b := HeadPost(y);
    BaseIndices(y);
    BaseSlots(y);
    HeadCuts(y, from);
    OwnOfHead(y);
    FlagsPosted(y, AfterPost(y, 0), y.tx.lists.work[0], from, b);
  }

  lemma {:induction false} OwnOfHead(y: Sys)
    requires Order(y)
    ensures HeadDescs(y) >= 0 && |OwnDescs(y.log, |y.ends|)| == HeadDescs(y)
  {
    hide Order;
    OrderCounts(y);
    OwnStretch(y, |y.ends|);
  }

  lemma {:induction false} PassFlags(y: Sys)
    requires Base(y) && Order(y) && Content(y) && Flags(y) && y.tx.kind.StH2c? && Regular(y.submitted)
    ensures Shape(y.tx.ring)
    ensures !Pass(y, 0).inside ==> Flags(Pass(y, 0))
    decreases |y.tx.lists.work|
  {
    hide Base, Order, Content, AfterPost, Flags, Regular;
    BaseIndices(y);
    if y.tx.lists.work != [] {
      if y.tx.ring.avail == 0 {
        FullRing(y);
      } else {
        PostBase(y, 0);
        PostOrder(y);
        PostContent(y);
        PostFlags(y);
        var y1 := AfterPost(y, 0);
        PassGrows(y1, 0);
        if y1.tx.ring.avail > 0 && !y1.inside {
          PassFlags(y1);
        }
      }
    }
  }

  /** More requests do not change what descriptors of earlier ones need. */
  lemma {:induction false} FlagsKeep(y: Sys, y': Sys)
    requires Flags(y) && y'.tx.ring.slots == y.tx.ring.slots && y'.log == y.log && y.submitted <= y'.submitted
    ensures Flags(y')
  {
    hide Shown, Nth, BeforeLast;
    assert CloseMarks(y'.submitted, y.log) == CloseMarks(y.submitted, y.log);
  }

  lemma {:induction false} ServiceSlots(tx: Tx, cidxHw: nat)
    requires Shape(tx.ring) && HwIndexOk(tx.ring, cidxHw)
    ensures Service(tx, cidxHw).ring.slots == tx.ring.slots
  {
  }

  lemma {:induction false} StepFlags(y: Sys, step: Step)
    requires Base(y) && Order(y) && Content(y) && Flags(y) && y.tx.kind.StH2c? && Regular(y.submitted)
    requires !Apply(y, step).inside
    ensures Flags(Apply(y, step))
  {
    hide Base, Order, Content, Pass, Flags, Service, Regular;
    BaseIndices(y);
    HardwareIndexOk(y);
    ServiceSlots(y.tx, Slot(y.hw, |y.tx.ring.slots|));
    if Enabled(y, step) {
      if step.WorkerStep? {
        PassFlags(y);
      } else {
        FlagsKeep(y, Apply(y, step));
      }
    }
  }

  lemma {:induction false} NoFlags(kind: Kind, c2h: bool, size: nat)
    requires size > 0
    ensures Flags(Initial(kind, c2h, size))
  {
    hide Base;
    var y := Initial(kind, c2h, size);
    assert LeadMarks(y.log) == {} && CloseMarks(y.submitted, y.log) == {};
    assert forall s :: 0 <= s < size ==> !SlotSops(y.tx.ring.slots)[s] && !SlotEops(y.tx.ring.slots)[s];
  }

  lemma {:induction false} RegularPrefix(a: seq<Req>, b: seq<Req>)
    requires a <= b && Regular(b)
    ensures Regular(a)
  {
    hide NonEmpty;
  }

  lemma {:induction false} RunFlags(c2h: bool, size: nat, steps: seq<Step>)
    requires size > 0
    ensures var y := Exec(StH2c, c2h, size, steps);
            AllSound(StH2c, y.submitted) && Regular(y.submitted) && !y.inside ==> Flags(y)
  {
    hide Base, Order, Content, Apply, AllSound, Initial, Regular, Flags;
    var y := Exec(StH2c, c2h, size, steps);
    if |steps| == 0 {
      NoFlags(StH2c, c2h, size);
    } else if AllSound(StH2c, y.submitted) && Regular(y.submitted) && !y.inside {
      var before := Exec(StH2c, c2h, size, steps[..|steps| - 1]);
      ExecKind(StH2c, c2h, size, steps[..|steps| - 1]);
      StepExtends(before, steps[|steps| - 1]);
      SoundPrefix(StH2c, before.submitted, y.submitted);
      RegularPrefix(before.submitted, y.submitted);
      RunOrder(StH2c, c2h, size, steps[..|steps| - 1]);
      RunContent(StH2c, c2h, size, steps[..|steps| - 1]);
      RunFlags(c2h, size, steps[..|steps| - 1]);
      StepFlags(before, steps[|steps| - 1]);
    }
  }

  /* ---- the main results ---- */

  /** Some descriptor up to `k` was in the slot of descriptor `k` and led its request. */
  ghost predicate SlotLed(log: seq<Sent>, k: nat, size: nat)
    requires k < |log| && size > 0
  {
    exists j :: 0 <= j <= k && Slot(j, size) == Slot(k, size) && Leads(log, j)
  }

  ghost predicate SlotClosed(reqs: seq<Req>, log: seq<Sent>, k: nat, size: nat)
    requires k < |log| && size > 0
  {
    exists j :: 0 <= j <= k && Slot(j, size) == Slot(k, size) && Closes(reqs, log, j)
  }

  /** MAIN RESULT on streaming flags.  In every run in which no posting call has stopped
      inside an entry, a posted descriptor has the start flag if and only if some descriptor
      in the same slot, itself or an earlier one, was the first of its request; and the end
      flag if and only if one of them was among those of the last entry of its request. */
  lemma {:induction false} StreamFlagsAre(c2h: bool, size: nat, steps: seq<Step>, k: nat)
    requires size > 0 && k < |Exec(StH2c, c2h, size, steps).log|
    requires var y := Exec(StH2c, c2h, size, steps);
             AllSound(StH2c, y.submitted) && Regular(y.submitted) && !y.inside
    ensures var y := Exec(StH2c, c2h, size, steps);
            && (y.log[k].desc.sop <==> SlotLed(y.log, k, size))
            && (y.log[k].desc.eop <==> SlotClosed(y.submitted, y.log, k, size))
  {
    hide Exec, Base, AllSound, Regular, Leads, Closes;
    var y := Exec(StH2c, c2h, size, steps);
    ExecKind(StH2c, c2h, size, steps);
    RunFlags(c2h, size, steps);
    var sops, eops := LogSops(y.log), LogEops(y.log);
    assert sops[k] == y.log[k].desc.sop && eops[k] == y.log[k].desc.eop;
    LedIs(y.log, k, size);
    ClosedIs(y.submitted, y.log, k, size);
  }

  lemma {:induction false} LedIs(log: seq<Sent>, k: nat, size: nat)
    requires k < |log| && size > 0
    ensures SomeIn(LeadMarks(log), k + 1, Slot(k, size), size) <==> SlotLed(log, k, size)
  {
    hide Leads;
    if SlotLed(log, k, size) {
      var j :| 0 <= j <= k && Slot(j, size) == Slot(k, size) && Leads(log, j);
      assert j in LeadMarks(log);
    }
  }

  lemma {:induction false} ClosedIs(reqs: seq<Req>, log: seq<Sent>, k: nat, size: nat)
    requires k < |log| && size > 0
    ensures SomeIn(CloseMarks(reqs, log), k + 1, Slot(k, size), size) <==> SlotClosed(reqs, log, k, size)
  {
    hide Closes;
    if SlotClosed(reqs, log, k, size) {
      var j :| 0 <= j <= k && Slot(j, size) == Slot(k, size) && Closes(reqs, log, j);
      assert j in CloseMarks(reqs, log);
    }
  }

  /** So the start flag is always on the first descriptor of a request, and the end flag on
      those of its last entry. */
  lemma {:induction false} StreamFlagsMark(c2h: bool, size: nat, steps: seq<Step>, k: nat)
    requires size > 0 && k < |Exec(StH2c, c2h, size, steps).log|
    requires var y := Exec(StH2c, c2h, size, steps);
             AllSound(StH2c, y.submitted) && Regular(y.submitted) && !y.inside
    ensures var y := Exec(StH2c, c2h, size, steps);
            && (Leads(y.log, k) ==> y.log[k].desc.sop)
            && (Closes(y.submitted, y.log, k) ==> y.log[k].desc.eop)
  {
    hide Exec, Base, AllSound, Regular, Leads, Closes;
    StreamFlagsAre(c2h, size, steps, k);
  }

  /** MAIN RESULT on stale flags.  The flags of a run delimit its requests if and only if no
      slot that once held the first descriptor of a request, or one of its last entry, is
      used again for one that is neither. */
  lemma {:induction false} FlagsDelimitIff(c2h: bool, size: nat, steps: seq<Step>)
    requires size > 0
    requires var y := Exec(StH2c, c2h, size, steps);
             AllSound(StH2c, y.submitted) && Regular(y.submitted) && !y.inside
    ensures var y := Exec(StH2c, c2h, size, steps);
            (forall k :: 0 <= k < |y.log| ==>
               (y.log[k].desc.sop <==> Leads(y.log, k)) && (y.log[k].desc.eop <==> Closes(y.submitted, y.log, k)))
            <==>
            (forall j, k :: 0 <= j < k < |y.log| && Slot(j, size) == Slot(k, size) ==>
               (Leads(y.log, j) ==> Leads(y.log, k)) && (Closes(y.submitted, y.log, j) ==> Closes(y.submitted, y.log, k)))
  {
    hide Exec, Base, AllSound, Regular, Leads, Closes, Slot;
    var y := Exec(StH2c, c2h, size, steps);
    forall k | 0 <= k < |y.log|
      ensures y.log[k].desc.sop <==> SlotLed(y.log, k, size)
      ensures y.log[k].desc.eop <==> SlotClosed(y.submitted, y.log, k, size)
    {
      StreamFlagsAre(c2h, size, steps, k);
    }
  }

  /* ---- a concrete case ---- */

  /** A request of one page and one of two, on a ring with a single usable slot at a time. */
  function StaleSteps(f: Req, r: Req): seq<Step>
  {
    [SubmitStep(f), SubmitStep(r), WorkerStep, HardwareStep(1), ServiceStep,
     WorkerStep, HardwareStep(1), ServiceStep, WorkerStep]
  }

  /** A pass that finds one free slot and posts one descriptor of the first request. */
  lemma {:induction false} PostsOne(y: Sys, reqs: seq<Req>, lists: Lists, posted: nat, from: nat, cut: Cut)
    requires Stage(y, StH2c, 2, reqs, lists, posted, posted, posted) && lists.work != []
    requires Decide(StH2c, lists.work[0].sgl, lists.work[0].offset, 1) == Take(from, [cut])
    ensures var y' := Apply(y, WorkerStep);
            && Stage(y', StH2c, 2, reqs, NotePosted(lists, 0, 1, cut.len), posted + 1, posted, posted)
            && y.log <= y'.log && |y'.log| == posted + 1 && y'.log[posted].owner == lists.work[0].id
  {
    hide Base, AfterPost, NotePosted, Decide;
    BaseRoom(y);
    HardwareIndexOk(y);
    OneCutLen(cut);
    StagePost(y, StH2c, 2, reqs, lists, posted, posted, posted, 0, from, [cut]);
    BaseRoom(AfterPost(y, 0));
  }

  lemma {:induction false} StaleRequests(f: Req, r: Req)
    requires f == Pages(0, [4096], 4096) && r == Pages(1, [4096, 4096], 8192)
    ensures Sound(StH2c, f) && Sound(StH2c, r) && Regular([f, r]) && BeforeLast(f.sgl) == 0 && BeforeLast(r.sgl) == 1
    ensures Decide(StH2c, f.sgl, 0, 1) == Take(0, [Cut(0, 4096)])
    ensures Decide(StH2c, r.sgl, 0, 1) == Take(0, [Cut(0, 4096)])
    ensures Decide(StH2c, r.sgl, 4096, 1) == Take(1, [Cut(0, 4096)])
  {
    assert f.sgl == [Sg(0, 4096)] && r.sgl == [Sg(0, 4096), Sg(0, 4096)];
    assert f.sgl[1..] == [] && r.sgl[1..] == [Sg(0, 4096)] && r.sgl[1..][1..] == [] && r.sgl[..1] == [Sg(0, 4096)] == f.sgl;
    assert f.sgl[0..] == f.sgl && r.sgl[0..] == r.sgl && f.sgl[..0] == [];
    assert TotalLen(f.sgl) == 4096 + TotalLen(f.sgl[1..]) == 4096;
    assert TotalLen(r.sgl) == 4096 + TotalLen(r.sgl[1..]) && TotalLen(r.sgl[1..]) == 4096;
    CutsOnePerEntry(StH2c, f.sgl);
    CutsOnePerEntry(StH2c, r.sgl);
    LocateBoundary(r.sgl, 1);
    assert Cuts(StH2c, f.sgl) == [Cut(0, 4096)];
    assert Cuts(StH2c, r.sgl)[..1] == [Cut(0, 4096)] == Cuts(StH2c, r.sgl[1..]);
  }

  /** What the steps do to the lists. */
  lemma {:induction false} StaleLists(f: Req, r: Req)
    requires f == Pages(0, [4096], 4096) && r == Pages(1, [4096, 4096], 8192)
    ensures var f1, r1, done := f.(descNr := 1, offset := 4096), r.(descNr := 1, offset := 4096), [Completion(0, 0)];
            && NotePosted(Lists(0, [f, r], [], []), 0, 1, 4096) == Lists(0, [r], [f1], [])
            && Distribute(Lists(0, [r], [f1], []), 1) == Lists(0, [r], [], done)
            && NotePosted(Lists(0, [r], [], done), 0, 1, 4096) == Lists(0, [r1], [], done)
            && Distribute(Lists(0, [r1], [], done), 1) == Lists(1, [r1], [], done)
  {
    assert [f, r][..0] + [f, r][1..] == [r];
    assert [r][0 := r.(descNr := 1, offset := 4096)] == [r.(descNr := 1, offset := 4096)];
    assert [f.(descNr := 1, offset := 4096)][1..] == [];
  }

  lemma {:induction false} StaleRun(f: Req, r: Req) returns (y: Sys)
    requires f == Pages(0, [4096], 4096) && r == Pages(1, [4096, 4096], 8192)
    ensures y == Exec(StH2c, false, 2, StaleSteps(f, r)[..9])
    ensures y.submitted == [f, r] && |y.log| == 3 && y.log[0].owner == 0 && y.log[1].owner == y.log[2].owner == 1
  {
    hide Exec, Base, Apply, Sound, Regular, Stage, NotePosted, Decide, Distribute;
    var f1, r1, done := f.(descNr := 1, offset := 4096), r.(descNr := 1, offset := 4096), [Completion(0, 0)];
    var steps, cut := StaleSteps(f, r), Cut(0, 4096);
    StaleRequests(f, r);
    StaleLists(f, r);
    StageInitial(StH2c, false, 2);
    ExecNone(StH2c, false, 2, steps);
    var y0 := Initial(StH2c, false, 2);
    StageSubmit(y0, StH2c, 2, [], Lists(0, [], [], []), 0, 0, 0, f);
    var y1 := Apply(y0, SubmitStep(f));
    assert [] + [f] == [f] && [f] + [r] == [f, r];
    StageSubmit(y1, StH2c, 2, [f], Lists(0, [f], [], []), 0, 0, 0, r);
    var y2 := Apply(y1, SubmitStep(r));
    PostsOne(y2, [f, r], Lists(0, [f, r], [], []), 0, 0, cut);
    var y3 := Apply(y2, WorkerStep);
    var y5 := Serve(y3, [f, r], Lists(0, [r], [f1], []), 0);
    PostsOne(y5, [f, r], Lists(0, [r], [], done), 1, 0, cut);
    var y6 := Apply(y5, WorkerStep);
    var y8 := Serve(y6, [f, r], Lists(0, [r1], [], done), 1);
    PostsOne(y8, [f, r], Lists(1, [r1], [], done), 2, 1, cut);
    y := Apply(y8, WorkerStep);
    Follow(StH2c, false, 2, steps, 0);
    Follow(StH2c, false, 2, steps, 1);
    Follow(StH2c, false, 2, steps, 2);
    Follow(StH2c, false, 2, steps, 3);
    Follow(StH2c, false, 2, steps, 4);
    Follow(StH2c, false, 2, steps, 5);
    Follow(StH2c, false, 2, steps, 6);
    Follow(StH2c, false, 2, steps, 7);
    Follow(StH2c, false, 2, steps, 8);
    StageIs(y, StH2c, 2, [f, r], NotePosted(Lists(1, [r1], [], done), 0, 1, 4096), 3, 2, 2);
  }

  /** The hardware consumes the one descriptor, and the driver sees it. */
  lemma {:induction false} Serve(y: Sys, reqs: seq<Req>, lists: Lists, n: nat) returns (y': Sys)
    requires Stage(y, StH2c, 2, reqs, lists, n + 1, n, n) && lists.credit == 0
    ensures Base(y) && y' == Apply(Apply(y, HardwareStep(1)), ServiceStep)
    ensures Stage(y', StH2c, 2, reqs, Distribute(lists, 1), n + 1, n + 1, n + 1) && y'.log == y.log
  {
    hide Base, Distribute, Apply;
    StageHardware(y, StH2c, 2, reqs, lists, n + 1, n, n, 1);
    var y1 := Apply(y, HardwareStep(1));
    StageService(y1, StH2c, 2, reqs, lists, n + 1, n, n + 1);
    y' := Apply(y1, ServiceStep);
  }

  /** The second descriptor of the second request carries a start flag that was left there
      by the first request. */
  lemma {:induction false} StaleStartFlag()
    ensures var f, r := Pages(0, [4096], 4096), Pages(1, [4096, 4096], 8192);
            var y := Exec(StH2c, false, 2, StaleSteps(f, r));
            && |y.log| == 3 && y.log[1].owner == y.log[2].owner == 1
            && !Leads(y.log, 2) && y.log[2].desc.sop
  {
    hide Exec, Base, Apply, Sound, Regular, Stage, NotePosted, Decide, Leads, Pages;
    var f, r := Pages(0, [4096], 4096), Pages(1, [4096, 4096], 8192);
    var steps := StaleSteps(f, r);
    StaleRequests(f, r);
    var y := StaleRun(f, r);
    assert steps[..9] == steps;
    StaleIds(f, r);
    StaleEnds(y, f, r);
    RunOrder(StH2c, false, 2, steps);
    StreamFlagsAre(false, 2, steps, 2);
  }

  lemma {:induction false} StaleIds(f: Req, r: Req)
    requires f == Pages(0, [4096], 4096) && r == Pages(1, [4096, 4096], 8192)
    ensures f.id == 0 && r.id == 1 && AllFit(StH2c, [f, r])
  {
  }

  lemma {:induction false} StaleEnds(y: Sys, f: Req, r: Req)
    requires f.id == 0 && r.id == 1 && Sound(StH2c, f) && Sound(StH2c, r)
    requires y.submitted == [f, r] && |y.log| == 3 && y.log[0].owner == 0 && y.log[1].owner == y.log[2].owner == 1
    ensures AllSound(StH2c, y.submitted) && Leads(y.log, 0) && !Leads(y.log, 2) && SlotLed(y.log, 2, 2)
  {
    hide Sound;
    assert y.log[..2] == [y.log[0], y.log[1]] && y.log[..0] == [];
    assert y.log[..2][..1] == [y.log[0]] && [y.log[0]][..0] == [];
    assert Slot(0, 2) == 0 == Slot(2, 2);
  }
}
