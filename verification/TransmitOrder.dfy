/** Runs in which no posting call has stopped inside a scatter list entry: the counters
    follow, request by request, the log of who owns each descriptor. */
module TransmitOrder {
  import opened RingIndex
  import opened ScatterGather
  import opened TransmitSpec
  import opened TransmitTiling
  import opened TransmitRuns

  predicate AllSound(kind: Kind, reqs: seq<Req>)
  {
    forall i :: 0 <= i < |reqs| ==> Sound(kind, reqs[i]) && reqs[i].id == i
  }

  /** Where in the log the descriptors of request `i` begin. */
  function Begin(ends: seq<nat>, i: nat): nat
    requires i <= |ends|
  {
    if i == 0 then 0 else ends[i - 1]
  }

  /** Completed requests come first, then the pending ones, then those with work left. */
  function Finished(ls: Lists): nat { |ls.completed| }

  function PostedReqs(ls: Lists): nat { |ls.completed| + |ls.pend| }

  /** Bytes of the descriptors posted for request `i`. */
  function BytesOf(log: seq<Sent>, i: nat): nat
  {
    if log == [] then 0
    else BytesOf(log[..|log| - 1], i) + (if log[|log| - 1].owner == i then log[|log| - 1].desc.len else 0)
  }

  /* ---- the invariant ---- */

  /** The descriptors of each request are a stretch of the log, in the order of the
      requests. */
  predicate Owners(log: seq<Sent>, ends: seq<nat>)
  {
    && (forall i :: 0 <= i < |ends| ==> Begin(ends, i) < ends[i] <= |log|)
    && (forall k :: 0 <= k < |log| ==> OwnedIn(log[k].owner, ends, k))
  }

  predicate OwnedIn(owner: nat, ends: seq<nat>, k: nat)
  {
    owner <= |ends| && Begin(ends, owner) <= k && (owner < |ends| ==> k < ends[owner])
  }

  /** A request of which `n` descriptors and `offset` bytes are posted. */
  function Partly(r: Req, n: nat, offset: nat): Req
  {
    r.(descNr := n, offset := offset)
  }

  /** A request posted in full, with `n` descriptors still counted against it. */
  function Full(r: Req, n: nat): Req
  {
    r.(descNr := n, offset := r.count)
  }

  /** The work list is requests `w`, `w + 1`, ...; the first may be posted in part, up to
      an entry boundary, and nothing of the later ones is. */
  predicate WorkIs(work: seq<Req>, reqs: seq<Req>, w: nat, n: nat, bytes: nat)
  {
    && w + |work| == |reqs|
    && (work == [] ==> n == 0)
    && (work != [] ==>
          && work[0] == Partly(reqs[w], n, bytes)
          && AtEntry(reqs[w].sgl, bytes) && (bytes < reqs[w].count || n == 0) && (n == 0 ==> bytes == 0)
          && work[1..] == reqs[w + 1..])
  }

  /** The pending list is requests `d`, `d + 1`, ...; `credited` descriptors have been
      handed out, all to request `d` and earlier ones. */
  predicate PendIs(pend: seq<Req>, reqs: seq<Req>, d: nat, ends: seq<nat>, credited: nat)
  {
    && d + |pend| == |ends| <= |reqs|
    && Begin(ends, d) <= credited
    && (pend == [] ==> credited == Begin(ends, d))
    && (pend != [] ==> credited < ends[d] && pend[0] == Full(reqs[d], ends[d] - credited))
    && (forall i :: 1 <= i < |pend| ==> UntouchedAt(pend[i], reqs, ends, d + i))
  }

  /** A pending request none of whose descriptors has been handed out. */
  predicate UntouchedAt(r: Req, reqs: seq<Req>, ends: seq<nat>, i: nat)
  {
    i < |ends| <= |reqs| && Begin(ends, i) <= ends[i] && r == Full(reqs[i], ends[i] - Begin(ends, i))
  }

  predicate CompletedOk(completed: seq<Completion>)
  {
    forall i :: 0 <= i < |completed| ==> completed[i] == Completion(i, 0)
  }

  /** Bytes posted: all of a request that was posted in full, and of the next one what its
      offset says. */
  predicate BytesAre(log: seq<Sent>, reqs: seq<Req>, w: nat, bytes: nat)
  {
    && w <= |reqs|
    && (forall i :: 0 <= i < w ==> BytesOf(log, i) == reqs[i].count)
    && BytesOf(log, w) == bytes
  }

  /** Where posting stands in request `w`, in descriptors and in bytes. */
  function HeadDescs(y: Sys): int
  {
    |y.log| - Begin(y.ends, |y.ends|)
  }

  function HeadBytes(y: Sys): nat
  {
    if y.tx.lists.work == [] then 0 else y.tx.lists.work[0].offset
  }

  predicate ListsOk(ls: Lists, reqs: seq<Req>, ends: seq<nat>, consumed: nat, n: int, bytes: nat)
  {
    && n >= 0 && |ends| == PostedReqs(ls)
    && WorkIs(ls.work, reqs, PostedReqs(ls), n, bytes)
    && ls.credit <= consumed
    && PendIs(ls.pend, reqs, Finished(ls), ends, consumed - ls.credit)
    && CompletedOk(ls.completed)
  }

  /** No pending request has all its descriptors consumed. */
  predicate NoneOverdue(ls: Lists, ends: seq<nat>, consumed: nat)
  {
    ls.pend != [] ==> Finished(ls) < |ends| && consumed < ends[Finished(ls)]
  }

  predicate Order(y: Sys)
  {
    && AllSound(y.tx.kind, y.submitted)
    && Owners(y.log, y.ends)
    && ListsOk(y.tx.lists, y.submitted, y.ends, y.consumed, HeadDescs(y), HeadBytes(y))
    && NoneOverdue(y.tx.lists, y.ends, y.consumed)
    && BytesAre(y.log, y.submitted, |y.ends|, HeadBytes(y))
  }

  /* ---- what one call does to the first request of the work list ---- */

  /** A request whose posting stands at an entry boundary: the call resumes at that entry,
      takes at least one descriptor, and takes no more bytes than are left. */
  lemma {:induction false} HeadDecision(kind: Kind, r: Req, bytes: nat, space: nat) returns (from: nat)
    requires Sound(kind, r) && AtEntry(r.sgl, bytes) && (bytes < r.count || bytes == 0) && space > 0
    ensures from < |r.sgl| && TotalLen(r.sgl[..from]) == bytes
    ensures Decide(kind, r.sgl, bytes, space) == Take(from, Batch(kind, r.sgl, from, space))
    ensures Batch(kind, r.sgl, from, space) != []
  {
    hide Cuts, EntryCuts;
    assert r.sgl[..0] == [] && r.sgl[..|r.sgl|] == r.sgl;
    from := 0;
    if bytes > 0 {
      from := LocateWithin(r.sgl, bytes);
    }
    assert r.sgl == r.sgl[..from] + r.sgl[from..];
    TotalLenConcat(r.sgl[..from], r.sgl[from..]);
    SomeCuts(kind, r.sgl[from..]);
  }

  lemma {:induction false} SomeCuts(kind: Kind, sgl: seq<Sg>)
    requires sgl != [] && (kind.MM? ==> TotalLen(sgl) > 0)
    ensures Cuts(kind, sgl) != []
  {
    hide CutsLen;
    IntendedLen(kind, sgl);
    NoLen();
  }

  /** Bytes of a batch: all that is left if there was room for it, else not more. */
  lemma {:induction false} BatchBytes(kind: Kind, sgl: seq<Sg>, from: nat, space: nat)
    requires from <= |sgl|
    ensures var b := Batch(kind, sgl, from, space);
            && TotalLen(sgl[..from]) + CutsLen(b) <= TotalLen(sgl)
            && (|b| < space ==> TotalLen(sgl[..from]) + CutsLen(b) == TotalLen(sgl))
  {
    hide Cuts, CutsLen;
    var all, b := Cuts(kind, sgl[from..]), Batch(kind, sgl, from, space);
    IntendedLen(kind, sgl[from..]);
    assert sgl == sgl[..from] + sgl[from..];
    TotalLenConcat(sgl[..from], sgl[from..]);
    assert all == b + all[|b|..];
    CutsLenConcat(b, all[|b|..]);
    assert |b| < space ==> b == all;
  }

  /** The lists after a batch for the first request of the work list. */
  lemma {:induction false} NoteHead(ls: Lists, orig: Req, n: nat, bytes: nat, m: nat, more: nat)
    requires ls.work != [] && ls.work[0] == Partly(orig, n, bytes) && bytes + more <= orig.count < U32
    ensures NotePosted(ls, 0, m, more) ==
            if bytes + more == orig.count then ls.(work := ls.work[1..], pend := ls.pend + [Full(orig, n + m)])
            else ls.(work := [Partly(orig, n + m, bytes + more)] + ls.work[1..])
  {
    assert ls.work[..0] + ls.work[1..] == ls.work[1..];
    assert ls.work[0 := Partly(orig, n + m, bytes + more)] == [Partly(orig, n + m, bytes + more)] + ls.work[1..];
  }

  lemma {:induction false} PendAppends(pend: seq<Req>, reqs: seq<Req>, d: nat, ends: seq<nat>, credited: nat, n: nat, end: nat)
    requires PendIs(pend, reqs, d, ends, credited) && |ends| < |reqs|
    requires end == Begin(ends, |ends|) + n && n > 0 && credited < end
    ensures PendIs(pend + [Full(reqs[|ends|], n)], reqs, d, ends + [end], credited)
  {
    var pend', ends' := pend + [Full(reqs[|ends|], n)], ends + [end];
    assert Begin(ends', d) == Begin(ends, d);
    forall i | 1 <= i < |pend'| ensures UntouchedAt(pend'[i], reqs, ends', d + i) {
      if i < |pend| {
        assert UntouchedAt(pend[i], reqs, ends, d + i);
      }
    }
  }

  /** Posting for the head of the work list, as far as the lists are concerned. */
  lemma {:induction false} PostLists(kind: Kind, ls: Lists, reqs: seq<Req>, ends: seq<nat>, consumed: nat,
                                     n: nat, bytes: nat, m: nat, more: nat)
    requires ListsOk(ls, reqs, ends, consumed, n, bytes) && AllSound(kind, reqs)
    requires ls.work != [] && m > 0 && bytes + more <= reqs[PostedReqs(ls)].count
    requires bytes + more < reqs[PostedReqs(ls)].count ==> AtEntry(reqs[PostedReqs(ls)].sgl, bytes + more)
    requires consumed <= Begin(ends, |ends|) + n && NoneOverdue(ls, ends, consumed)
    ensures var ls', end := NotePosted(ls, 0, m, more), Begin(ends, |ends|) + n + m;
            if bytes + more == reqs[PostedReqs(ls)].count then
              && |ls'.work| == |ls.work| - 1
              && ListsOk(ls', reqs, ends + [end], consumed, 0, 0)
              && NoneOverdue(ls', ends + [end], consumed)
              && (ls'.work != [] ==> ls'.work[0].offset == 0)
            else
              && |ls'.work| == |ls.work| && ls'.work[0].offset == bytes + more
              && ListsOk(ls', reqs, ends, consumed, n + m, bytes + more)
              && NoneOverdue(ls', ends, consumed)
  {
    hide NotePosted, Sound, CompletedOk;
    var w := PostedReqs(ls);
    SoundAt(kind, reqs, w);
    NoteHead(ls, reqs[w], n, bytes, m, more);
    if bytes + more == reqs[w].count {
      PendAppends(ls.pend, reqs, Finished(ls), ends, consumed - ls.credit, n + m, Begin(ends, |ends|) + n + m);
      WorkPops(kind, ls.work, reqs, w, n, bytes);
    }
  }

  lemma {:induction false} SoundAt(kind: Kind, reqs: seq<Req>, i: nat)
    requires AllSound(kind, reqs) && i < |reqs|
    ensures Sound(kind, reqs[i]) && reqs[i].count < U32 && reqs[i].descNr == 0 && reqs[i].offset == 0 && reqs[i].id == i
    ensures AtEntry(reqs[i].sgl, 0)
  {
    assert reqs[i].sgl[..0] == [];
  }

  lemma {:induction false} WorkPops(kind: Kind, work: seq<Req>, reqs: seq<Req>, w: nat, n: nat, bytes: nat)
    requires WorkIs(work, reqs, w, n, bytes) && work != [] && AllSound(kind, reqs)
    ensures WorkIs(work[1..], reqs, w + 1, 0, 0)
    ensures |work| > 1 ==> work[1].offset == 0
  {
    hide Sound;
    if |work| > 1 {
      assert work[1] == reqs[w + 1..][0];
      SoundAt(kind, reqs, w + 1);
      assert work[1..][1..] == reqs[w + 1..][1..];
    }
  }

  /* ---- what one call does to the log ---- */

  lemma {:induction false} WrittenLen(kind: Kind, c2h: bool, ring: Ring, sgl: seq<Sg>, card: nat, offset: nat,
                                      from: nat, b: seq<Cut>, c: nat)
    requires Shape(ring) && from <= |sgl| && c < |b| <= ring.avail
    ensures Written(kind, c2h, ring, sgl, card, offset, from, b)[Incr(ring.pidx, c, |ring.slots|)].len == b[c].len
  {
    hide LastFrom, CutsLen;
    assert Delta(Incr(ring.pidx, c, |ring.slots|), ring.pidx, |ring.slots|) == c;
  }

  lemma {:induction false} BytesConcat(a: seq<Sent>, b: seq<Sent>, i: nat)
    ensures BytesOf(a + b, i) == BytesOf(a, i) + BytesOf(b, i)
  {
    if b == [] {
      assert a + b == a;
    } else {
      assert (a + b)[..|a + b| - 1] == a + b[..|b| - 1];
      BytesConcat(a, b[..|b| - 1], i);
    }
  }

  lemma {:induction false} BytesOfBatch(sent: seq<Sent>, b: seq<Cut>, owner: nat, i: nat)
    requires |sent| == |b|
    requires forall c :: 0 <= c < |b| ==> sent[c].owner == owner && sent[c].desc.len == b[c].len
    ensures BytesOf(sent, i) == if i == owner then CutsLen(b) else 0
  {
    if b != [] {
      BytesOfBatch(sent[..|b| - 1], b[..|b| - 1], owner, i);
    }
  }

  /** The batch that posting for the request `r` appends to the log. */
  function Appended(tx: Tx, r: Req, from: nat, b: seq<Cut>): (s: seq<Sent>)
    requires Shape(tx.ring) && from <= |r.sgl| && |b| <= tx.ring.avail
    ensures |s| == |b|
  {
    Batched(r.id, Written(tx.kind, tx.c2h, tx.ring, r.sgl, r.epAddr, r.offset, from, b), tx.ring.pidx, |b|)
  }

  lemma {:induction false} AppendedBytes(tx: Tx, r: Req, from: nat, b: seq<Cut>, log: seq<Sent>, i: nat)
    requires Shape(tx.ring) && from <= |r.sgl| && |b| <= tx.ring.avail
    ensures BytesOf(log + Appended(tx, r, from, b), i) == BytesOf(log, i) + if i == r.id then CutsLen(b) else 0
  {
    hide Written, BytesOf, CutsLen;
    var sent := Appended(tx, r, from, b);
    forall c | 0 <= c < |b| ensures sent[c].owner == r.id && sent[c].desc.len == b[c].len {
      WrittenLen(tx.kind, tx.c2h, tx.ring, r.sgl, r.epAddr, r.offset, from, b, c);
    }
    BytesConcat(log, sent, i);
    BytesOfBatch(sent, b, r.id, i);
  }

  lemma {:induction false} OwnersGrow(log: seq<Sent>, ends: seq<nat>, batch: seq<Sent>)
    requires Owners(log, ends) && Begin(ends, |ends|) <= |log| && batch != []
    requires forall c :: 0 <= c < |batch| ==> batch[c].owner == |ends|
    ensures Owners(log + batch, ends) && Owners(log + batch, ends + [|log| + |batch|])
  {
    var log', ends' := log + batch, ends + [|log| + |batch|];
    forall i | 0 <= i < |ends'| ensures Begin(ends', i) < ends'[i] <= |log'| {
      if i < |ends| {
        assert Begin(ends, i) < ends[i];
      }
    }
    forall k | 0 <= k < |log'| ensures OwnedIn(log'[k].owner, ends, k) && OwnedIn(log'[k].owner, ends', k) {
      if k < |log| {
        assert OwnedIn(log[k].owner, ends, k);
      }
    }
  }

  lemma {:induction false} BytesGrow(tx: Tx, r: Req, from: nat, b: seq<Cut>, log: seq<Sent>, ends: seq<nat>, reqs: seq<Req>, bytes: nat)
    requires Shape(tx.ring) && from <= |r.sgl| && |b| <= tx.ring.avail && r.id == |ends| < |reqs|
    requires Owners(log, ends) && BytesAre(log, reqs, |ends|, bytes)
    ensures var log' := log + Appended(tx, r, from, b);
            && BytesAre(log', reqs, |ends|, bytes + CutsLen(b))
            && (bytes + CutsLen(b) == reqs[|ends|].count ==> BytesAre(log', reqs, |ends| + 1, 0))
  {
    hide Appended, BytesOf, CutsLen;
    var log' := log + Appended(tx, r, from, b);
    forall i | 0 <= i <= |ends| + 1
      ensures BytesOf(log', i) == BytesOf(log, i) + if i == r.id then CutsLen(b) else 0
    {
      AppendedBytes(tx, r, from, b, log, i);
    }
    forall k | 0 <= k < |log| ensures log[k].owner != |ends| + 1 {
      assert OwnedIn(log[k].owner, ends, k);
    }
    NoBytes(log, |ends| + 1);
  }

  lemma {:induction false} NoBytes(log: seq<Sent>, i: nat)
    requires forall k :: 0 <= k < |log| ==> log[k].owner != i
    ensures BytesOf(log, i) == 0
  {
    if log != [] {
      NoBytes(log[..|log| - 1], i);
    }
  }

  /* ---- posting ---- */

  /** The first request of the work list, in terms of the history. */
  lemma {:induction false} HeadFacts(y: Sys)
    requires Base(y) && Order(y) && y.tx.lists.work != []
    ensures var w := |y.ends|;
            && w == PostedReqs(y.tx.lists) < |y.submitted|
            && Sound(y.tx.kind, y.submitted[w]) && y.submitted[w].id == w && y.submitted[w].count < U32
            && y.tx.lists.work[0] == Partly(y.submitted[w], HeadDescs(y), HeadBytes(y))
            && AtEntry(y.submitted[w].sgl, HeadBytes(y))
            && (HeadBytes(y) < y.submitted[w].count || HeadBytes(y) == 0)
            && Begin(y.ends, w) <= |y.log| && Shape(y.tx.ring)
  {
    hide InFlight, Balanced, Delimited, PendIs, CompletedOk, BytesAre, Sound;
    SoundAt(y.tx.kind, y.submitted, PostedReqs(y.tx.lists));
  }

  /** One call for the first request of the work list, spelled out. */
  lemma {:induction false} HeadPost(y: Sys) returns (from: nat, b: seq<Cut>)
    requires Base(y) && Order(y) && y.tx.lists.work != [] && y.tx.ring.avail > 0
    ensures Shape(y.tx.ring) && |y.ends| < |y.submitted|
    ensures var w, r, y' := |y.ends|, y.tx.lists.work[0], AfterPost(y, 0);
            && r.id == w && r.sgl == y.submitted[w].sgl && r.offset == HeadBytes(y)
            && b != [] && |b| <= y.tx.ring.avail && from < |r.sgl| && TotalLen(r.sgl[..from]) == HeadBytes(y)
            && b == Batch(y.tx.kind, r.sgl, from, y.tx.ring.avail)
            && HeadBytes(y) + CutsLen(b) <= y.submitted[w].count
            && (|b| < y.tx.ring.avail ==> HeadBytes(y) + CutsLen(b) == y.submitted[w].count)
            && y'.log == y.log + Appended(y.tx, r, from, b) && y'.lost == y.lost
            && y'.tx.kind == y.tx.kind && y'.submitted == y.submitted && y'.consumed == y.consumed && y'.hw == y.hw
            && y'.tx.lists == NotePosted(y.tx.lists, 0, |b|, CutsLen(b))
            && y'.tx.ring.avail == y.tx.ring.avail - |b|
            && y'.tx.ring.slots == Written(y.tx.kind, y.tx.c2h, y.tx.ring, r.sgl, r.epAddr, r.offset, from, b)
            && y'.ends == (if |y'.tx.lists.work| < |y.tx.lists.work| then y.ends + [|y'.log|] else y.ends)
            && (y'.inside <==> y.inside || StoppedInside(y.tx, y'.tx, 0))
  {
    hide Base, Order, AfterPost, Written, NotePosted, Decide, StoppedInside, Sound, CutsLen, AtEntry, Batched;
    HeadFacts(y);
    var w := |y.ends|;
    HeadSound(y.tx.kind, y.submitted[w]);
    from := HeadDecision(y.tx.kind, y.submitted[w], HeadBytes(y), y.tx.ring.avail);
    b := Batch(y.tx.kind, y.submitted[w].sgl, from, y.tx.ring.avail);
    BatchBytes(y.tx.kind, y.submitted[w].sgl, from, y.tx.ring.avail);
    PostCases(y, 0);
    DecideFits(y.tx, 0);
  }

  lemma {:induction false} HeadSound(kind: Kind, r: Req)
    requires Sound(kind, r)
    ensures r.count == TotalLen(r.sgl)
  {
  }

  lemma {:induction false} HeadStops(y: Sys, from: nat, b: seq<Cut>)
    requires Base(y) && Order(y) && y.tx.lists.work != []
    requires var w := |y.ends|; w < |y.submitted| && from < |y.submitted[w].sgl| && TotalLen(y.submitted[w].sgl[..from]) == HeadBytes(y)
    requires b == Batch(y.tx.kind, y.submitted[|y.ends|].sgl, from, y.tx.ring.avail)
    requires FitEach(y.tx.kind, y.submitted[|y.ends|].sgl)
    ensures AtEntry(y.submitted[|y.ends|].sgl, HeadBytes(y) + CutsLen(b))
  {
    hide Base, Order;
    var sgl := y.submitted[|y.ends|].sgl;
    var j := CutsReach(y.tx.kind, sgl[from..], |b|);
    assert sgl[..from + j] == sgl[..from] + sgl[from..][..j];
    TotalLenConcat(sgl[..from], sgl[from..][..j]);
    assert TotalLen(sgl[..from + j]) == HeadBytes(y) + CutsLen(b);
  }

  /** When no entry needs two descriptors, any number of them ends at an entry boundary. */
  lemma {:induction false} CutsReach(kind: Kind, sgl: seq<Sg>, n: nat) returns (j: nat)
    requires FitEach(kind, sgl) && n <= |Cuts(kind, sgl)|
    ensures j <= |sgl| && TotalLen(sgl[..j]) == CutsLen(Cuts(kind, sgl)[..n])
  {
    hide CutsLen, EntryCuts, TotalLen;
    NoLen();
    if n == 0 {
      j := 0;
      assert sgl[..0] == [] && Cuts(kind, sgl)[..0] == [];
    } else {
      var first, rest := EntryCuts(kind, sgl[0].addr, sgl[0].len), Cuts(kind, sgl[1..]);
      EntryFirstCut(kind, sgl[0].addr, sgl[0].len);
      EntryCutsLen(kind, sgl[0].addr, sgl[0].len);
      assert |first| <= 1;
      j := CutsReach(kind, sgl[1..], n - |first|);
      assert Cuts(kind, sgl)[..n] == first + rest[..n - |first|];
      CutsLenConcat(first, rest[..n - |first|]);
      assert sgl[..j + 1][1..] == sgl[1..][..j] && sgl[..j + 1][0] == sgl[0];
      PrefixTail(sgl, j);
      j := j + 1;
    }
  }

  /** A call for the first request of the work list posts something, never fails, and
      either posts the request in full or fills the ring; unless it stops inside an entry,
      the order is kept; and it cannot stop there when the entries fit. */
  lemma {:induction false} PostOrder(y: Sys)
    requires Base(y) && Order(y) && y.tx.lists.work != [] && y.tx.ring.avail > 0
    ensures Shape(y.tx.ring)
    ensures var y' := AfterPost(y, 0);
            && |y.log| < |y'.log| && y'.lost == y.lost
            && (|y'.tx.lists.work| < |y.tx.lists.work| || y'.tx.ring.avail == 0)
            && y'.tx.kind == y.tx.kind && y'.submitted == y.submitted
            && (!y'.inside ==> Order(y'))
            && (!y.inside && |y.ends| < |y.submitted| && FitEach(y.tx.kind, y.submitted[|y.ends|].sgl) ==> !y'.inside)
  {
    hide Base, AfterPost, NotePosted, Sound, CutsLen, AtEntry, Batch, FitEach, BytesOf, Appended, CompletedOk, PendIs, WorkIs, Owners, BytesAre, AllSound, NoneOverdue;
    var from, b := HeadPost(y);
    HeadFacts(y);
    BaseIndices(y);
    var w, r, y', ls := |y.ends|, y.tx.lists.work[0], AfterPost(y, 0), y.tx.lists;
    if FitEach(y.tx.kind, y.submitted[w].sgl) {
      HeadStops(y, from, b);
    }
    NoteWork(ls, |b|, CutsLen(b), y.submitted[w], HeadDescs(y), HeadBytes(y));
    AppendedOwners(y.tx, r, from, b);
    OwnersGrow(y.log, y.ends, Appended(y.tx, r, from, b));
    BytesGrow(y.tx, r, from, b, y.log, y.ends, y.submitted, HeadBytes(y));
    if !y'.inside {
      PostLists(y.tx.kind, ls, y.submitted, y.ends, y.consumed, HeadDescs(y), HeadBytes(y), |b|, CutsLen(b));
    }
  }

  lemma {:induction false} AppendedOwners(tx: Tx, r: Req, from: nat, b: seq<Cut>)
    requires Shape(tx.ring) && from <= |r.sgl| && |b| <= tx.ring.avail
    ensures forall c :: 0 <= c < |b| ==> Appended(tx, r, from, b)[c].owner == r.id
  {
    hide Written;
  }

  lemma {:induction false} BaseIndices(y: Sys)
    requires Base(y)
    ensures Shape(y.tx.ring) && y.consumed <= y.hw <= |y.log|
  {
  }

  lemma {:induction false} NoteWork(ls: Lists, m: nat, more: nat, orig: Req, n: nat, bytes: nat)
    requires ls.work != [] && ls.work[0] == Partly(orig, n, bytes) && bytes + more <= orig.count < U32
    ensures var ls' := NotePosted(ls, 0, m, more);
            && (bytes + more == orig.count <==> |ls'.work| == |ls.work| - 1)
            && (bytes + more < orig.count ==> |ls'.work| == |ls.work| && ls'.work[0].sgl == orig.sgl && ls'.work[0].offset == bytes + more)
  {
  }

  /** Every request that is not posted in full has entries of one descriptor each. */
  predicate AllFit(kind: Kind, reqs: seq<Req>)
  {
    forall i :: 0 <= i < |reqs| ==> FitEach(kind, reqs[i].sgl)
  }

  /** A call that finds the ring full changes nothing. */
  lemma {:induction false} FullRing(y: Sys)
    requires Base(y) && Order(y) && y.tx.lists.work != [] && y.tx.ring.avail == 0
    ensures Shape(y.tx.ring) && AfterPost(y, 0) == y
  {
    hide Base, Order, AtEntry, Written;
    HeadFacts(y);
    assert y.log + Batched(y.tx.lists.work[0].id, y.tx.ring.slots, y.tx.ring.pidx, 0) == y.log;
  }

  /** A pass of the worker posts in order as far as there is room, without any failure;
      when entries fit it never stops inside one. */
  lemma {:induction false} PassOrder(y: Sys)
    requires Base(y) && Order(y)
    ensures Shape(y.tx.ring)
    ensures var y' := Pass(y, 0);
            && (!y'.inside ==> Order(y') && (y'.tx.lists.work == [] || y'.tx.ring.avail == 0) && y'.lost == y.lost)
            && (!y'.inside && y.tx.lists.work != [] && y.tx.ring.avail > 0 ==> |y.log| < |y'.log|)
            && (!y.inside && AllFit(y.tx.kind, y.submitted) ==> !y'.inside)
    decreases |y.tx.lists.work|
  {
    hide Base, Order, AfterPost, FitEach;
    BaseIndices(y);
    if y.tx.lists.work != [] {
      if y.tx.ring.avail == 0 {
        FullRing(y);
      } else {
        PostBase(y, 0);
        PostOrder(y);
        HeadFacts(y);
        var y1 := AfterPost(y, 0);
        PassGrows(y1, 0);
        if y1.tx.ring.avail > 0 && !y1.inside {
          PassOrder(y1);
        }
      }
    }
  }

  lemma {:induction false} PassGrows(y: Sys, k: nat)
    requires Shape(y.tx.ring)
    ensures k <= |y.tx.lists.work| ==> Extends(y, Pass(y, k))
  {
    hide Pass;
    if k <= |y.tx.lists.work| {
      PassExtends(y, k);
    }
  }

  /* ---- writeback service ---- */

  /** The lists while `credit` descriptors are still to be handed out. */
  predicate Handing(ls: Lists, credit: nat, reqs: seq<Req>, ends: seq<nat>, consumed: nat, n: int, bytes: nat)
  {
    ListsOk(ls.(credit := credit), reqs, ends, consumed, n, bytes)
  }

  lemma {:induction false} PendPops(pend: seq<Req>, reqs: seq<Req>, d: nat, ends: seq<nat>, credited: nat)
    requires PendIs(pend, reqs, d, ends, credited) && pend != []
    requires forall i :: 0 <= i < |ends| ==> Begin(ends, i) < ends[i]
    ensures PendIs(pend[1..], reqs, d + 1, ends, ends[d])
  {
    var rest := pend[1..];
    if rest != [] {
      assert UntouchedAt(pend[1], reqs, ends, d + 1);
      assert Begin(ends, d + 1) < ends[d + 1];
    }
    forall i | 1 <= i < |rest| ensures UntouchedAt(rest[i], reqs, ends, d + 1 + i) {
      assert UntouchedAt(pend[i + 1], reqs, ends, d + (i + 1));
    }
  }

  lemma {:induction false} CompletedGrows(completed: seq<Completion>, c: Completion)
    requires CompletedOk(completed) && c == Completion(|completed|, 0)
    ensures CompletedOk(completed + [c])
  {
  }

  lemma {:induction false} PendHead(pend: seq<Req>, reqs: seq<Req>, d: nat, ends: seq<nat>, credited: nat)
    requires PendIs(pend, reqs, d, ends, credited) && pend != []
    ensures d < |ends| <= |reqs| && credited < ends[d]
    ensures pend[0].descNr == ends[d] - credited && pend[0].id == reqs[d].id && pend[0].offset == pend[0].count
  {
  }

  /** The oldest pending request is paid for. */
  lemma {:induction false} FinishHanding(ls: Lists, credit: nat, reqs: seq<Req>, ends: seq<nat>, consumed: nat, n: int, bytes: nat)
    requires Handing(ls, credit, reqs, ends, consumed, n, bytes) && ls.pend != [] && credit >= ls.pend[0].descNr
    requires forall i :: 0 <= i < |reqs| ==> reqs[i].id == i
    requires forall i :: 0 <= i < |ends| ==> Begin(ends, i) < ends[i]
    ensures Handing(FinishPend(ls), credit - ls.pend[0].descNr, reqs, ends, consumed, n, bytes)
  {
    hide CompletedOk, WorkIs, PendIs;
    var h, d := ls.pend[0], Finished(ls);
    PendHead(ls.pend, reqs, d, ends, consumed - credit);
    PendPops(ls.pend, reqs, d, ends, consumed - credit);
    CompletedGrows(ls.completed, Completion(h.id, Status(h, 0)));
  }

  /** It is paid for in part. */
  lemma {:induction false} PartHanding(ls: Lists, credit: nat, reqs: seq<Req>, ends: seq<nat>, consumed: nat, n: int, bytes: nat)
    requires Handing(ls, credit, reqs, ends, consumed, n, bytes) && ls.pend != [] && credit < ls.pend[0].descNr
    ensures var h := ls.pend[0];
            Handing(ls.(pend := [h.(descNr := h.descNr - credit)] + ls.pend[1..]), 0, reqs, ends, consumed, n, bytes)
  {
    hide CompletedOk, WorkIs, UntouchedAt;
  }

  /** When nothing is left to hand out, no pending request is overdue. */
  lemma {:induction false} HandedOut(ls: Lists, credit: nat, reqs: seq<Req>, ends: seq<nat>, consumed: nat, n: int, bytes: nat)
    requires Handing(ls, credit, reqs, ends, consumed, n, bytes) && (credit == 0 || ls.pend == [])
    ensures ListsOk(ls.(credit := credit), reqs, ends, consumed, n, bytes)
    ensures NoneOverdue(ls.(credit := credit), ends, consumed)
  {
    hide CompletedOk, WorkIs, UntouchedAt;
  }

  /** Handing out credits completes exactly the pending requests that are overdue. */
  lemma {:induction false} DistributeOrder(ls: Lists, credit: nat, reqs: seq<Req>, ends: seq<nat>, consumed: nat, n: int, bytes: nat)
    requires Handing(ls, credit, reqs, ends, consumed, n, bytes)
    requires forall i :: 0 <= i < |reqs| ==> reqs[i].id == i
    requires forall i :: 0 <= i < |ends| ==> Begin(ends, i) < ends[i]
    ensures ListsOk(Distribute(ls, credit), reqs, ends, consumed, n, bytes)
    ensures NoneOverdue(Distribute(ls, credit), ends, consumed)
    ensures Distribute(ls, credit).work == ls.work
    decreases |ls.pend|
  {
    hide Handing, ListsOk, NoneOverdue;
    if ls.pend == [] {
      HandedOut(ls, credit, reqs, ends, consumed, n, bytes);
    } else {
      var h := ls.pend[0];
      if credit < h.descNr {
        PartHanding(ls, credit, reqs, ends, consumed, n, bytes);
        HandedOut(ls.(pend := [h.(descNr := h.descNr - credit)] + ls.pend[1..]), 0, reqs, ends, consumed, n, bytes);
      } else {
        FinishHanding(ls, credit, reqs, ends, consumed, n, bytes);
        if credit == h.descNr {
          HandedOut(FinishPend(ls), 0, reqs, ends, consumed, n, bytes);
        } else {
          DistributeOrder(FinishPend(ls), credit - h.descNr, reqs, ends, consumed, n, bytes);
        }
      }
    }
  }

  lemma {:induction false} SoundIds(kind: Kind, reqs: seq<Req>)
    requires AllSound(kind, reqs)
    ensures forall i :: 0 <= i < |reqs| ==> reqs[i].id == i
  {
    hide Sound;
  }

  lemma {:induction false} OwnersStrict(log: seq<Sent>, ends: seq<nat>)
    requires Owners(log, ends)
    ensures forall i :: 0 <= i < |ends| ==> Begin(ends, i) < ends[i]
  {
  }

  lemma {:induction false} StartHanding(ls: Lists, reqs: seq<Req>, ends: seq<nat>, consumed: nat, hw: nat, n: int, bytes: nat)
    requires ListsOk(ls, reqs, ends, consumed, n, bytes) && consumed <= hw
    ensures Handing(ls, hw - consumed + ls.credit, reqs, ends, hw, n, bytes)
  {
    hide WorkIs, PendIs, CompletedOk;
  }

  lemma {:induction false} ServiceOrder(y: Sys)
    requires Base(y) && Order(y)
    ensures HwIndexOk(y.tx.ring, Slot(y.hw, |y.tx.ring.slots|))
    ensures Order(y.(tx := Service(y.tx, Slot(y.hw, |y.tx.ring.slots|)), consumed := y.hw))
  {
    hide Base, ListsOk, NoneOverdue, Distribute, Handing, AllSound, Owners, BytesAre;
    HardwareIndexOk(y);
    BaseSlots(y);
    SoundIds(y.tx.kind, y.submitted);
    OwnersStrict(y.log, y.ends);
    var ls := y.tx.lists;
    if y.hw > y.consumed {
      StartHanding(ls, y.submitted, y.ends, y.consumed, y.hw, HeadDescs(y), HeadBytes(y));
      DistributeOrder(ls, y.hw - y.consumed + ls.credit, y.submitted, y.ends, y.hw, HeadDescs(y), HeadBytes(y));
    }
  }

  lemma {:induction false} BaseSlots(y: Sys)
    requires Base(y)
    ensures Shape(y.tx.ring) && y.consumed <= y.hw <= |y.log| < y.consumed + |y.tx.ring.slots|
    ensures y.tx.ring.pidx == Slot(|y.log|, |y.tx.ring.slots|) && y.tx.ring.cidx == Slot(y.consumed, |y.tx.ring.slots|)
    ensures y.tx.ring.pidx == y.tx.ring.cidx <==> |y.log| == y.consumed
    ensures Slot(y.hw, |y.tx.ring.slots|) == y.tx.ring.cidx <==> y.hw == y.consumed
  {
    hide InFlight, Balanced, Delimited;
    if y.consumed < |y.log| {
      SlotInjective(y.consumed, |y.log|, |y.tx.ring.slots|);
    }
    if y.consumed < y.hw {
      SlotInjective(y.consumed, y.hw, |y.tx.ring.slots|);
    }
  }

  /* ---- submission ---- */

  lemma {:induction false} SubmitOrder(y: Sys, r: Req)
    requires Base(y) && Order(y) && Sound(y.tx.kind, r) && r.id == |y.submitted|
    ensures Order(y.(tx := Submit(y.tx, r), submitted := y.submitted + [r]))
  {
    hide Base, Owners, BytesAre, CompletedOk, AtEntry, Sound, AllSound, WorkIs, PendIs;
    SoundGrows(y.tx.kind, y.submitted, r);
    BytesKeep(y.log, y.submitted, |y.ends|, HeadBytes(y), r);
    WorkLength(y.tx.lists.work, y.submitted, PostedReqs(y.tx.lists), HeadDescs(y), HeadBytes(y));
    var reqs, work := y.submitted, y.tx.lists.work;
    var reqs', work' := reqs + [r], work + [r];
    FreshSound(y.tx.kind, r);
    WorkGrows(work, reqs, PostedReqs(y.tx.lists), HeadDescs(y), HeadBytes(y), r);
    PendKeeps(y.tx.lists.pend, reqs, Finished(y.tx.lists), y.ends, y.consumed - y.tx.lists.credit, r);
  }

  lemma {:induction false} SoundGrows(kind: Kind, reqs: seq<Req>, r: Req)
    requires AllSound(kind, reqs) && Sound(kind, r) && r.id == |reqs|
    ensures AllSound(kind, reqs + [r])
  {
    hide Sound;
  }

  lemma {:induction false} BytesKeep(log: seq<Sent>, reqs: seq<Req>, w: nat, bytes: nat, r: Req)
    requires BytesAre(log, reqs, w, bytes)
    ensures BytesAre(log, reqs + [r], w, bytes)
  {
    hide BytesOf;
  }

  lemma {:induction false} WorkLength(work: seq<Req>, reqs: seq<Req>, w: nat, n: nat, bytes: nat)
    requires WorkIs(work, reqs, w, n, bytes)
    ensures w + |work| == |reqs| && (work != [] ==> work[0].offset == bytes)
  {
  }

  lemma {:induction false} FreshSound(kind: Kind, r: Req)
    requires Sound(kind, r)
    ensures r.descNr == 0 && r.offset == 0 && AtEntry(r.sgl, 0)
  {
    assert r.sgl[..0] == [];
  }

  lemma {:induction false} WorkGrows(work: seq<Req>, reqs: seq<Req>, w: nat, n: nat, bytes: nat, r: Req)
    requires WorkIs(work, reqs, w, n, bytes) && r.descNr == 0 && r.offset == 0 && AtEntry(r.sgl, 0)
    ensures WorkIs(work + [r], reqs + [r], w, n, if work == [] then 0 else bytes)
  {
    hide AtEntry;
    if work == [] {
      assert (work + [r])[1..] == (reqs + [r])[w + 1..];
    } else {
      assert (work + [r])[1..] == work[1..] + [r];
      assert (reqs + [r])[w + 1..] == reqs[w + 1..] + [r];
    }
  }

  lemma {:induction false} PendKeeps(pend: seq<Req>, reqs: seq<Req>, d: nat, ends: seq<nat>, credited: nat, r: Req)
    requires PendIs(pend, reqs, d, ends, credited)
    ensures PendIs(pend, reqs + [r], d, ends, credited)
  {
    forall i | 1 <= i < |pend| ensures UntouchedAt(pend[i], reqs + [r], ends, d + i) {
      assert UntouchedAt(pend[i], reqs, ends, d + i);
    }
  }

  /* ---- runs ---- */

  lemma {:induction false} StepOrder(y: Sys, step: Step)
    requires Base(y) && Order(y)
    ensures var y' := Apply(y, step);
            && (AllSound(y.tx.kind, y'.submitted) && !y'.inside ==> Order(y') && y'.lost == y.lost)
            && (!y.inside && AllFit(y.tx.kind, y'.submitted) && AllSound(y.tx.kind, y'.submitted) ==> !y'.inside)
  {
    hide Base, Order, Pass, FitEach, Service, Submit, Sound;
    HardwareIndexOk(y);
    BaseIndices(y);
    if Enabled(y, step) {
      match step {
        case SubmitStep(r) =>
          var reqs' := y.submitted + [r];
          if AllSound(y.tx.kind, reqs') {
            assert reqs'[|y.submitted|] == r;
            SubmitOrder(y, r);
          }
        case WorkerStep =>
          PassOrder(y);
          PassExtends(y, 0);
        case HardwareStep(n) => HardwareOrder(y, n);
        case ServiceStep => ServiceOrder(y);
      }
    }
  }

  lemma {:induction false} HardwareOrder(y: Sys, n: nat)
    requires Order(y)
    ensures Order(y.(hw := y.hw + n))
  {
    hide ListsOk, Owners, AllSound, BytesAre, NoneOverdue;
  }

  lemma {:induction false} SoundPrefix(kind: Kind, a: seq<Req>, b: seq<Req>)
    requires a <= b && AllSound(kind, b)
    ensures AllSound(kind, a)
  {
    hide Sound;
  }

  /** Every run of sound requests keeps the order, unless a posting call stopped inside an
      entry; no request fails in it; and when entries fit, no call stops there. */
  lemma {:induction false} RunOrder(kind: Kind, c2h: bool, size: nat, steps: seq<Step>)
    requires size > 0
    ensures var y := Exec(kind, c2h, size, steps);
            AllSound(kind, y.submitted) ==>
              && (!y.inside ==> Order(y) && y.lost == 0)
              && (AllFit(kind, y.submitted) ==> !y.inside)
  {
    hide Base, Order, Apply, AllFit, AllSound, Initial;
    var y := Exec(kind, c2h, size, steps);
    if steps == [] {
      InitialOrder(kind, c2h, size);
    } else if AllSound(kind, y.submitted) {
      var before := Exec(kind, c2h, size, steps[..|steps| - 1]);
      ExecKind(kind, c2h, size, steps[..|steps| - 1]);
      StepExtends(before, steps[|steps| - 1]);
      RunOrder(kind, c2h, size, steps[..|steps| - 1]);
      SoundPrefix(kind, before.submitted, y.submitted);
      if !before.inside {
        StepOrder(before, steps[|steps| - 1]);
      }
      FitPrefix(kind, before.submitted, y.submitted);
    }
  }

  lemma {:induction false} FitPrefix(kind: Kind, a: seq<Req>, b: seq<Req>)
    requires a <= b
    ensures AllFit(kind, b) ==> AllFit(kind, a)
  {
    hide FitEach;
  }

  lemma {:induction false} InitialIs(kind: Kind, c2h: bool, size: nat)
    requires size > 0
    ensures var y := Initial(kind, c2h, size);
            && |y.tx.lists.work| + |y.tx.lists.pend| + |y.tx.lists.completed| + y.tx.lists.credit == 0
            && |y.submitted| + |y.log| + |y.ends| + y.consumed == 0
            && y.lost == 0 && !y.inside
  {
    hide Base;
  }

  lemma {:induction false} NothingYet(y: Sys)
    requires |y.tx.lists.work| + |y.tx.lists.pend| + |y.tx.lists.completed| + y.tx.lists.credit == 0
    requires |y.submitted| + |y.log| + |y.ends| + y.consumed == 0
    ensures Order(y)
  {
    hide Sound, OwnedIn, UntouchedAt;
  }

  lemma {:induction false} InitialOrder(kind: Kind, c2h: bool, size: nat)
    requires size > 0
    ensures Order(Initial(kind, c2h, size)) && !Initial(kind, c2h, size).inside && Initial(kind, c2h, size).lost == 0
  {
    hide Base, Order, Initial;
    InitialIs(kind, c2h, size);
    NothingYet(Initial(kind, c2h, size));
  }
}
