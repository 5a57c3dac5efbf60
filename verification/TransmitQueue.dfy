/** The transmit side of a descriptor queue with the driver's mutable state
    (libqdma/qdma_descq.c, libqdma/qdma_thread.c).  Every method is proved to take the
    queue from one state of `TransmitSpec` to the state that module computes. */
module TransmitQueue {
  import opened RingIndex
  import opened ScatterGather
  import opened TransmitSpec

  /** `struct qdma_request` with its control block `struct qdma_sgt_req_cb`. */
  class Request {
    const id: nat
    const sgl: seq<Sg>
    const epAddr: nat
    const count: nat
    const async: bool
    var descNr: nat
    var offset: nat
    var done: bool
    var status: int

    constructor (id: nat, sgl: seq<Sg>, epAddr: nat, count: nat, async: bool)
      ensures View() == Req(id, sgl, epAddr, count, async, 0, 0) && !done
    {
      this.id, this.sgl, this.epAddr, this.count, this.async := id, sgl, epAddr, count, async;
      descNr, offset, done, status := 0, 0, false, 0;
    }

    ghost function View(): Req
      reads this
    {
      Req(id, sgl, epAddr, count, async, descNr, offset)
    }
  }

  /** The list of objects shows the list of values. */
  ghost predicate Shows(rs: seq<Request>, vs: seq<Req>)
    reads rs
  {
    && |rs| == |vs|
    && (forall i :: 0 <= i < |rs| ==> rs[i].View() == vs[i])
  }

  /** A request is linked at most once, in one of the two lists. */
  ghost predicate LinkedOnce(work: seq<Request>, pend: seq<Request>)
  {
    && (forall i, j :: 0 <= i < j < |work| ==> work[i] != work[j])
    && (forall i, j :: 0 <= i < j < |pend| ==> pend[i] != pend[j])
    && (forall i, j :: 0 <= i < |work| && 0 <= j < |pend| ==> work[i] != pend[j])
  }

  /** A request on the work list is linked nowhere else, and may move to the pending list. */
  lemma {:induction false} LinkedMoves(work: seq<Request>, pend: seq<Request>, k: nat)
    requires k < |work| && LinkedOnce(work, pend)
    ensures LinkedOnce(work[..k] + work[k + 1..], pend + [work[k]])
    ensures forall i :: 0 <= i < |work| && i != k ==> work[i] != work[k]
    ensures forall i :: 0 <= i < |pend| ==> pend[i] != work[k]
  {
  }

  /** The ring while a batch is written, before its flags are set. */
  ghost predicate PlainlyWritten(slots: seq<Desc>, was: seq<Desc>, start: nat, b: seq<Cut>, c2h: bool, card: nat)
    requires start < |was|
  {
    && |slots| == |was|
    && (forall s :: 0 <= s < |was| ==>
          slots[s] == (var c := Delta(s, start, |was|);
                       if c < |b| then MmDesc(c2h, b[c], card + CutsLen(b[..c]), false, false) else was[s]))
  }

  lemma {:induction false} PlainStep(slots: seq<Desc>, slots': seq<Desc>, was: seq<Desc>, start: nat,
                                     b: seq<Cut>, cut: Cut, c2h: bool, card: nat)
    requires start < |was| && |b| < |was| && PlainlyWritten(slots, was, start, b, c2h, card)
    requires slots' == slots[Incr(start, |b|, |was|) := MmDesc(c2h, cut, card + CutsLen(b), false, false)]
    ensures PlainlyWritten(slots', was, start, b + [cut], c2h, card)
  {
    var b' := b + [cut];
    forall s | 0 <= s < |was|
      ensures slots'[s] == (var c := Delta(s, start, |was|);
                            if c < |b'| then MmDesc(c2h, b'[c], card + CutsLen(b'[..c]), false, false) else was[s])
    {
      var c := Delta(s, start, |was|);
      if c < |b| {
        assert b'[..c] == b[..c];
      } else if c == |b| {
        assert b'[..c] == b;
      }
    }
  }

  lemma {:induction false} CutsLenStep(b: seq<Cut>, cut: Cut)
    ensures CutsLen(b + [cut]) == CutsLen(b) + cut.len
  {
    assert (b + [cut])[..|b|] == b;
  }

  lemma {:induction false} BatchDone(batch: seq<Cut>, b: seq<Cut>, todo: seq<Cut>, room: nat)
    requires batch == (b + todo)[..Min(room, |b + todo|)]
    requires |b| == room || (|b| < room && todo == [])
    ensures b == batch
  {
    assert todo == [] ==> b + todo == b;
  }

  /** Emitting part of an entry moves cuts from what is to do to what is done. */
  lemma {:induction false} BatchMoves(batch: seq<Cut>, b: seq<Cut>, cuts: seq<Cut>, rest: seq<Cut>, n: nat, room: nat)
    requires n <= |cuts| && batch == (b + (cuts + rest))[..Min(room, |b + (cuts + rest)|)]
    ensures batch == ((b + cuts[..n]) + (cuts[n..] + rest))[..Min(room, |(b + cuts[..n]) + (cuts[n..] + rest)|)]
  {
    assert b + (cuts + rest) == (b + cuts[..n]) + (cuts[n..] + rest);
  }

  lemma {:induction false} NothingWritten(was: seq<Desc>, start: nat, c2h: bool, card: nat)
    requires start < |was|
    ensures CutsLen([]) == 0 && PlainlyWritten(was, was, start, [], c2h, card)
  {
  }

  lemma {:induction false} PlainUnchanged(slots: seq<Desc>, was: seq<Desc>, start: nat, c2h: bool, card: nat)
    requires start < |was| && PlainlyWritten(slots, was, start, [], c2h, card)
    ensures slots == was
  {
  }

  lemma {:induction false} CutsFirst(kind: Kind, sgl: seq<Sg>)
    ensures Cuts(kind, sgl) ==
            if sgl == [] then [] else EntryCuts(kind, sgl[0].addr, sgl[0].len) + Cuts(kind, sgl[1..])
  {
  }

  lemma {:induction false} BatchIs(kind: Kind, sgl: seq<Sg>, from: nat, space: nat)
    requires from <= |sgl|
    ensures Batch(kind, sgl, from, space) ==
            Cuts(kind, sgl[from..])[..Min(space, |Cuts(kind, sgl[from..])|)]
  {
  }

  lemma {:induction false} EntryFirst(kind: Kind, addr: nat, len: nat)
    requires kind.MM?
    ensures EntryCuts(kind, addr, len) ==
            if len == 0 then []
            else [Cut(addr, Min(len, DESC_BLEN_MAX))] +
                 EntryCuts(kind, addr + Min(len, DESC_BLEN_MAX), len - Min(len, DESC_BLEN_MAX))
  {
  }

  /** Flags on the two ends turn a plainly written batch into the specified one. */
  lemma {:induction false} FlagsComplete(slots: seq<Desc>, ring: Ring, b: seq<Cut>, c2h: bool,
                                         sgl: seq<Sg>, card: nat, offset: nat, from: nat)
    requires Shape(ring) && from <= |sgl| && 0 < |b| <= ring.avail
    requires PlainlyWritten(slots, ring.slots, ring.pidx, b, c2h, card + offset)
    ensures var last := Incr(ring.pidx, |b| - 1, |ring.slots|);
            var t := slots[last := slots[last].(eop := true)];
            t[ring.pidx := t[ring.pidx].(sop := true)] == Written(MM, c2h, ring, sgl, card, offset, from, b)
  {
    var last := Incr(ring.pidx, |b| - 1, |ring.slots|);
    var t := slots[last := slots[last].(eop := true)];
    var t' := t[ring.pidx := t[ring.pidx].(sop := true)];
    var w := Written(MM, c2h, ring, sgl, card, offset, from, b);
    forall s | 0 <= s < |w| ensures t'[s] == w[s] {
      assert slots[s] == (var c := Delta(s, ring.pidx, |ring.slots|);
                          if c < |b| then MmDesc(c2h, b[c], card + offset + CutsLen(b[..c]), false, false)
                          else ring.slots[s]);
    }
  }

  /** A streaming ring while a batch is written. */
  ghost predicate StWritten(slots: seq<Desc>, was: seq<Desc>, start: nat, b: seq<Cut>, sop: bool, lastFrom: nat)
    requires start < |was|
  {
    && |slots| == |was|
    && (forall s :: 0 <= s < |was| ==> slots[s] == StSlot(was[s], Delta(s, start, |was|), b, sop, lastFrom))
  }

  lemma {:induction false} StStep(slots: seq<Desc>, was: seq<Desc>, start: nat, b: seq<Cut>, cut: Cut,
                                  sop: bool, lastFrom: nat)
    requires start < |was| && |b| < |was| && StWritten(slots, was, start, b, sop, lastFrom)
    ensures var at := Incr(start, |b|, |was|);
            StWritten(slots[at := StDesc(slots[at], cut, lastFrom <= |b|)], was, start, b + [cut], sop, lastFrom)
  {
  }

  lemma {:induction false} StNothing(was: seq<Desc>, start: nat, sop: bool, lastFrom: nat)
    requires start < |was|
    ensures StWritten(if sop then was[start := was[start].(sop := true)] else was, was, start, [], sop, lastFrom)
  {
  }

  lemma {:induction false} StComplete(slots: seq<Desc>, ring: Ring, b: seq<Cut>, c2h: bool,
                                      sgl: seq<Sg>, card: nat, offset: nat, from: nat)
    requires Shape(ring) && from <= |sgl| && |b| <= ring.avail
    requires StWritten(slots, ring.slots, ring.pidx, b, offset == 0, LastFrom(StH2c, sgl, from))
    ensures slots == Written(StH2c, c2h, ring, sgl, card, offset, from, b)
  {
  }

  lemma {:induction false} StEntryFirst(addr: nat, len: nat)
    ensures EntryCuts(StH2c, addr, len) ==
            [Cut(addr, Min(len, PAGE_SIZE))] +
            (if len <= PAGE_SIZE then []
             else EntryCuts(StH2c, addr + Min(len, PAGE_SIZE), len - Min(len, PAGE_SIZE)))
  {
  }

  /** Number of descriptors of the entries from `from` up to, not including, `to`. */
  function CutsBefore(sgl: seq<Sg>, from: nat, to: nat): nat
    requires from <= to <= |sgl|
  {
    |Cuts(StH2c, sgl[from..to])|
  }

  lemma {:induction false} NoneBefore(sgl: seq<Sg>, from: nat)
    requires from <= |sgl|
    ensures CutsBefore(sgl, from, from) == 0
  {
  }

  lemma {:induction false} CutsBeforeStep(sgl: seq<Sg>, from: nat, i: nat)
    requires from <= i < |sgl|
    ensures CutsBefore(sgl, from, i + 1) == CutsBefore(sgl, from, i) + |EntryCuts(StH2c, sgl[i].addr, sgl[i].len)|
  {
    assert sgl[from..i + 1] == sgl[from..i] + [sgl[i]];
    CutsConcat(StH2c, sgl[from..i], [sgl[i]]);
    assert Cuts(StH2c, [sgl[i]]) == EntryCuts(StH2c, sgl[i].addr, sgl[i].len);
  }

  lemma {:induction false} CutsBeforeMonotone(sgl: seq<Sg>, from: nat, i: nat, j: nat)
    requires from <= i <= j <= |sgl|
    ensures CutsBefore(sgl, from, i) <= CutsBefore(sgl, from, j)
  {
    assert sgl[from..j] == sgl[from..i] + sgl[i..j];
    CutsConcat(StH2c, sgl[from..i], sgl[i..j]);
  }

  /** While entry `i` is being cut, being at the last entry and being past `LastFrom`
      descriptors are the same. */
  lemma {:induction false} AtLastEntry(sgl: seq<Sg>, from: nat, i: nat, n: nat)
    requires from <= i < |sgl| && CutsBefore(sgl, from, i) <= n < CutsBefore(sgl, from, i + 1)
    ensures LastFrom(StH2c, sgl, from) <= n <==> i == |sgl| - 1
  {
    if i < |sgl| - 1 {
      CutsBeforeMonotone(sgl, from, i + 1, |sgl| - 1);
    }
  }

  /** The request at position `k` is still there, or it has left the list. */
  ghost predicate StaysOrLeaves(now: seq<Request>, was: seq<Request>, k: nat)
    requires k < |was|
  {
    now == was || now == was[..k] + was[k + 1..]
  }

  /** The pending list is as before, or `r` has joined it. */
  ghost predicate MayMove(now: seq<Request>, was: seq<Request>, r: Request)
  {
    now == was || now == was + [r]
  }

  /** One turn of the worker's loop. */
  lemma {:induction false} WorkerStep(tx: Tx, k: nat)
    requires Shape(tx.ring) && k < |tx.lists.work|
    ensures var (t1, rv) := Post(tx, k);
            var t2 := if rv < 0 then t1.(lists := FinishWork(t1.lists, k, rv)) else t1;
            && (t2.ring.avail == 0 ==> Worker(tx, k) == t2)
            && (t2.ring.avail > 0 && |t2.lists.work| < |tx.lists.work| ==> Worker(tx, k) == Worker(t2, k))
            && (t2.ring.avail > 0 && |t2.lists.work| == |tx.lists.work| ==> Worker(tx, k) == Worker(t2, k + 1))
  {
  }

  lemma {:induction false} WorkerEnd(tx: Tx)
    requires Shape(tx.ring)
    ensures Worker(tx, |tx.lists.work|) == tx
  {
  }

  /** One turn of the loop of `req_update_pend`. */
  lemma {:induction false} DistributeStep(ls: Lists, credit: nat)
    requires ls.pend != []
    ensures var h := ls.pend[0];
            && (credit == h.descNr ==> Distribute(ls, credit) == FinishPend(ls).(credit := 0))
            && (credit > h.descNr ==> Distribute(ls, credit) == Distribute(FinishPend(ls), credit - h.descNr))
            && (credit < h.descNr ==>
                  Distribute(ls, credit) ==
                  ls.(pend := [h.(descNr := h.descNr - credit)] + ls.pend[1..], credit := 0))
  {
  }

  lemma {:induction false} DistributeEnd(ls: Lists, credit: nat)
    ensures ls.pend == [] ==> Distribute(ls, credit) == ls.(credit := credit)
  {
  }

  class DescQueue {
    const kind: Kind
    const c2h: bool
    const desc: array<Desc>
    var avail: nat
    var pidx: nat
    var cidx: nat
    var credit: nat
    var work: seq<Request>
    var pend: seq<Request>
    var pidxReg: nat
    ghost var model: Tx

    ghost predicate FieldsOk()
      reads this, desc
    {
      && model.kind == kind && model.c2h == c2h
      && model.ring == Ring(desc[..], avail, pidx, cidx)
      && Shape(model.ring)
      && model.lists.credit == credit
      && model.pidxReg == pidxReg
    }

    /** The objects linked in the lists show the requests of `ls`. */
    ghost predicate ListsAre(ls: Lists)
      reads this`work, this`pend, work, pend
    {
      && LinkedOnce(work, pend)
      && Shows(work, ls.work)
      && Shows(pend, ls.pend)
    }

    ghost predicate ListsOk()
      reads this`work, this`pend, this`model, work, pend
    {
      ListsAre(model.lists)
    }

    lemma {:induction false} SameLength()
      requires ListsOk()
      ensures |work| == |model.lists.work| && |pend| == |model.lists.pend|
    {
    }

    lemma {:induction false} AtPend()
      requires ListsOk() && pend != []
      ensures model.lists.pend != [] && pend[0].View() == model.lists.pend[0]
    {
    }

    lemma {:induction false} AtWork(k: nat)
      requires ListsOk() && k < |work|
      ensures |work| == |model.lists.work| && work[k].View() == model.lists.work[k]
    {
    }

    ghost predicate Valid()
      reads this, desc, work, pend
    {
      FieldsOk() && ListsOk()
    }

    /** `qdma_descq_config_complete` and the zeroed ring it is used with. */
    constructor (kind: Kind, c2h: bool, rngsz: nat)
      requires rngsz > 0
      ensures Valid() && fresh(desc) && desc.Length == rngsz && work == pend == []
      ensures model == Configured(kind, c2h, rngsz)
    {
      this.kind, this.c2h := kind, c2h;
      desc := new Desc[rngsz](_ => Desc(0, 0, 0, false, false, false));
      avail, pidx, cidx, credit, pidxReg := rngsz - 1, 0, 0, 0, 0;
      work, pend := [], [];
      model := Configured(kind, c2h, rngsz);
      new;
      assert desc[..] == model.ring.slots;
    }

    /** `qdma_request_submit`: the request joins the work list, unless the queue is offline. */
    method Submit(r: Request, online: bool) returns (rv: int)
      requires Valid() && r !in work && r !in pend
      modifies this`work, this`model
      ensures Valid() && pend == old(pend)
      ensures online ==> rv == 0 && work == old(work) + [r] && model == TransmitSpec.Submit(old(model), r.View())
      ensures !online ==> rv == EINVAL && work == old(work) && model == old(model)
    {
      if !online {
        return EINVAL;
      }
      work := work + [r];
      model := TransmitSpec.Submit(model, r.View());
      rv := 0;
    }

    /** The end of a posting call: counters, lists, and `req_submitted`. */
    method NoteBatch(k: nat, descCnt: nat, dataCnt: nat)
      requires k < |work| && ListsOk() && model.lists.credit == credit
      modifies this`work, this`pend, this`model, work[k]
      ensures ListsOk() && model == old(model).(lists := NotePosted(old(model).lists, k, descCnt, dataCnt))
      ensures StaysOrLeaves(work, old(work), k) && MayMove(pend, old(pend), old(work[k]))
    {
      hide LinkedOnce;
      LinkedMoves(work, pend, k);
      var cb := work[k];
      cb.descNr := cb.descNr + descCnt;
      cb.offset := (cb.offset + dataCnt) % U32;
      if cb.offset == cb.count {
        work := work[..k] + work[k + 1..];
        pend := pend + [cb];
      }
      model := model.(lists := NotePosted(model.lists, k, descCnt, dataCnt));
    }

    /** `descq_mm_proc_request` for the request at position `k` of the work list. */
    method MmProcRequest(k: nat) returns (rv: int)
      requires Valid() && kind.MM? && k < |work|
      modifies this, desc, work[k]
      ensures Valid() && (model, rv) == Post(old(model), k)
      ensures StaysOrLeaves(work, old(work), k) && (rv < 0 ==> work == old(work))
      ensures MayMove(pend, old(pend), old(work[k]))
    {
      hide Written, Batch, NotePosted, Cuts, CutsLen, Locate, ListsAre;
      AtWork(k);
      var req := work[k];
      var descMax := avail;
      if descMax == 0 {
        return 0;
      }
      var i := 0;
      if req.offset != 0 {
        var at, sgOffset := FindOffset(req.sgl, req.offset);
        if at < 0 || at >= |req.sgl| {
          return EINVAL;
        }
        i := at;
      }
      var descCnt, dataCnt := EmitBatch(req, i, descMax);
      if descCnt == 0 {
        return EIO;
      }
      avail := avail - descCnt;
      model := model.(ring := Ring(desc[..], avail, pidx, cidx), pidxReg := pidx);
      pidxReg := pidx;
      NoteBatch(k, descCnt, dataCnt);
      return 0;
    }

    /** One turn of the inner loop: write a descriptor and step to the next slot. */
    method EmitMm(cut: Cut, epAddr: nat)
      requires pidx < desc.Length
      modifies this`pidx, desc
      ensures desc[..] == old(desc[..])[old(pidx) := MmDesc(c2h, cut, epAddr, false, false)]
      ensures pidx == Incr(old(pidx), 1, desc.Length)
    {
      desc[pidx] := MmDesc(c2h, cut, epAddr, false, false);
      pidx := if pidx + 1 == desc.Length then 0 else pidx + 1;
    }

    /** The loops of `descq_mm_proc_request`, and the flags set after them. */
    method EmitBatch(req: Request, from: nat, descMax: nat) returns (descCnt: nat, dataCnt: nat)
      requires FieldsOk() && kind.MM? && from <= |req.sgl| && descMax == avail > 0
      modifies this`pidx, desc
      ensures var b := Batch(kind, req.sgl, from, descMax);
              && descCnt == |b| && dataCnt == CutsLen(b)
              && pidx == Incr(old(pidx), descCnt, desc.Length)
              && desc[..] == if b == [] then old(desc[..])
                             else Written(kind, c2h, model.ring, req.sgl, req.epAddr, req.offset, from, b)
    {
      hide CutsLen, PlainlyWritten, Written, Batch;
      ghost var b, was, card := Batch(kind, req.sgl, from, descMax), desc[..], req.epAddr + req.offset;
      var start, descEnd := pidx, -1;
      descCnt, dataCnt, descEnd := EmitMmLoop(req.sgl, req.epAddr + req.offset, from, descMax);
      if descCnt > 0 {
        FlagsComplete(desc[..], model.ring, b, c2h, req.sgl, req.epAddr, req.offset, from);
        desc[descEnd] := desc[descEnd].(eop := true);
        desc[start] := desc[start].(sop := true);
      } else {
        PlainUnchanged(desc[..], was, start, c2h, card);
      }
    }

    /** The outer loop: the entries from `from` on are written, as far as there is room. */
    method EmitMmLoop(sgl: seq<Sg>, card: nat, from: nat, descMax: nat)
      returns (descCnt: nat, dataCnt: nat, descEnd: int)
      requires kind.MM? && pidx < desc.Length && from <= |sgl| && 0 < descMax < desc.Length
      modifies this`pidx, desc
      ensures var b := Batch(kind, sgl, from, descMax);
              && descCnt == |b| && dataCnt == CutsLen(b)
              && pidx == Incr(old(pidx), descCnt, desc.Length)
              && (descCnt > 0 ==> descEnd == Incr(old(pidx), descCnt - 1, desc.Length))
              && PlainlyWritten(desc[..], old(desc[..]), old(pidx), b, c2h, card)
    {
      hide Cuts, EntryCuts, CutsLen, PlainlyWritten, Batch;
      ghost var todo, b, batch := Cuts(kind, sgl[from..]), [], Batch(kind, sgl, from, descMax);
      ghost var was, start := desc[..], pidx;
      NothingWritten(was, start, c2h, card);
      BatchIs(kind, sgl, from, descMax);
      assert b + todo == todo;
      var epAddr, i := card, from;
      descCnt, dataCnt, descEnd := 0, 0, -1;
      while i < |sgl| && descCnt < descMax
        invariant from <= i <= |sgl|
        invariant descCnt <= descMax && |b| == descCnt && dataCnt == CutsLen(b) && epAddr == card + dataCnt
        invariant descCnt < descMax ==> todo == Cuts(kind, sgl[i..])
        invariant batch == (b + todo)[..Min(descMax, |b + todo|)]
        invariant pidx == Incr(start, descCnt, |was|)
        invariant descCnt > 0 ==> descEnd == Incr(start, descCnt - 1, |was|)
        invariant PlainlyWritten(desc[..], was, start, b, c2h, card)
      {
        ghost var cuts, rest := EntryCuts(kind, sgl[i].addr, sgl[i].len), Cuts(kind, sgl[i + 1..]);
        CutsFirst(kind, sgl[i..]);
        assert sgl[i..][1..] == sgl[i + 1..];
        var emitted, bytes;
        emitted, bytes, descEnd := EmitMmEntry(sgl[i], epAddr, descEnd, descMax - descCnt, was, start, b, card);
        BatchMoves(batch, b, cuts, rest, emitted, descMax);
        b, todo := b + cuts[..emitted], cuts[emitted..] + rest;
        descCnt, dataCnt, epAddr := descCnt + emitted, dataCnt + bytes, epAddr + bytes;
        i := i + 1;
      }
      CutsFirst(kind, sgl[|sgl|..]);
      BatchDone(batch, b, todo, descMax);
    }

    /** The inner loop: one entry is cut into descriptors, as far as there is room. */
    method EmitMmEntry(sg: Sg, epAddr0: nat, descEnd0: int, room: nat, ghost was: seq<Desc>, ghost start: nat, ghost b0: seq<Cut>,
                       ghost card: nat)
      returns (descCnt: nat, dataCnt: nat, descEnd: int)
      requires desc.Length == |was| && start < |was| && 0 < room && |b0| + room < |was|
      requires pidx == Incr(start, |b0|, |was|) && epAddr0 == card + CutsLen(b0)
      requires PlainlyWritten(desc[..], was, start, b0, c2h, card)
      modifies this`pidx, desc
      ensures var cuts := EntryCuts(MM, sg.addr, sg.len);
              && descCnt == Min(room, |cuts|)
              && CutsLen(b0 + cuts[..descCnt]) == CutsLen(b0) + dataCnt
              && PlainlyWritten(desc[..], was, start, b0 + cuts[..descCnt], c2h, card)
              && pidx == Incr(start, |b0| + descCnt, |was|)
              && descEnd == (if descCnt == 0 then descEnd0 else Incr(start, |b0| + descCnt - 1, |was|))
    {
      hide EntryCuts, CutsLen, PlainlyWritten;
      ghost var cuts, b, todo := EntryCuts(MM, sg.addr, sg.len), b0, EntryCuts(MM, sg.addr, sg.len);
      var tlen: nat, addr: nat, epAddr := sg.len, sg.addr, epAddr0;
      descCnt, dataCnt, descEnd := 0, 0, descEnd0;
      assert b == b0 + cuts[..0];
      while tlen > 0
        invariant descCnt + |todo| == |cuts| && descCnt < room && b == b0 + cuts[..descCnt] && todo == cuts[descCnt..]
        invariant todo == EntryCuts(MM, addr, tlen)
        invariant CutsLen(b) == CutsLen(b0) + dataCnt && epAddr == card + CutsLen(b)
        invariant pidx == Incr(start, |b|, |was|)
        invariant descEnd == if descCnt == 0 then descEnd0 else Incr(start, |b| - 1, |was|)
        invariant PlainlyWritten(desc[..], was, start, b, c2h, card)
        decreases tlen
      {
        var len := Min(tlen, DESC_BLEN_MAX);
        EntryFirst(MM, addr, tlen);
        assert todo[0] == Cut(addr, len) == cuts[descCnt];
        descEnd := pidx;
        PlainStep(desc[..], desc[..][pidx := MmDesc(c2h, Cut(addr, len), epAddr, false, false)],
                  was, start, b, Cut(addr, len), c2h, card);
        EmitMm(Cut(addr, len), epAddr);
        CutsLenStep(b, Cut(addr, len));
        assert b + [Cut(addr, len)] == b0 + cuts[..descCnt + 1];
        assert todo[1..] == cuts[descCnt + 1..];
        b, todo := b + [Cut(addr, len)], todo[1..];
        epAddr, dataCnt, addr, tlen := epAddr + len, dataCnt + len, addr + len, tlen - len;
        descCnt := descCnt + 1;
        if descCnt == room {
          break;
        }
      }
      EntryFirst(MM, addr, tlen);
    }

    /** `descq_proc_st_h2c_request` for the request at position `k` of the work list. */
    method StH2cProcRequest(k: nat) returns (rv: int)
      requires Valid() && kind.StH2c? && k < |work|
      modifies this, desc, work[k]
      ensures Valid() && (model, rv) == Post(old(model), k)
      ensures StaysOrLeaves(work, old(work), k) && (rv < 0 ==> work == old(work))
      ensures MayMove(pend, old(pend), old(work[k]))
    {
      hide Written, Batch, NotePosted, Cuts, CutsLen, Locate, ListsAre;
      AtWork(k);
      var req := work[k];
      var descMax := avail;
      if descMax == 0 {
        return 0;
      }
      var i := 0;
      if req.offset != 0 {
        var at, sgOffset := FindOffset(req.sgl, req.offset);
        if at < 0 || at >= |req.sgl| {
          return EINVAL;
        }
        i := at;
      }
      var descCnt, dataCnt := EmitStBatch(req, i, descMax);
      avail := avail - descCnt;
      model := model.(ring := Ring(desc[..], avail, pidx, cidx), pidxReg := pidxReg);
      NoteBatch(k, descCnt, dataCnt);
      return 0;
    }

    /** One turn of the inner loop: write a descriptor, step on, tell the hardware. */
    method EmitSt(cut: Cut, eop: bool)
      requires pidx < desc.Length
      modifies this`pidx, this`pidxReg, desc
      ensures desc[..] == old(desc[..])[old(pidx) := StDesc(old(desc[pidx]), cut, eop)]
      ensures pidx == pidxReg == Incr(old(pidx), 1, desc.Length)
    {
      desc[pidx] := StDesc(desc[pidx], cut, eop);
      pidx := if pidx + 1 == desc.Length then 0 else pidx + 1;
      pidxReg := pidx;
    }

    /** The loops of `descq_proc_st_h2c_request`, with the start flag set before them. */
    method EmitStBatch(req: Request, from: nat, descMax: nat) returns (descCnt: nat, dataCnt: nat)
      requires FieldsOk() && kind.StH2c? && from <= |req.sgl| && descMax == avail > 0
      modifies this`pidx, this`pidxReg, desc
      ensures var b := Batch(kind, req.sgl, from, descMax);
              && descCnt == |b| && dataCnt == CutsLen(b)
              && pidx == Incr(old(pidx), descCnt, desc.Length)
              && pidxReg == (if b == [] then old(pidxReg) else pidx)
              && desc[..] == Written(kind, c2h, model.ring, req.sgl, req.epAddr, req.offset, from, b)
    {
      hide Cuts, EntryCuts, CutsLen, StWritten, Written, Batch, LastFrom, CutsBefore;
      ghost var todo := Cuts(kind, req.sgl[from..]);
      ghost var b: seq<Cut> := [];
      ghost var was, start, lastFrom := desc[..], pidx, LastFrom(kind, req.sgl, from);
      var i := from;
      descCnt, dataCnt := 0, 0;
      StNothing(was, start, req.offset == 0, lastFrom);
      if req.offset == 0 {
        desc[pidx] := desc[pidx].(sop := true);
      }
      assert CutsLen(b) == 0 by { NothingWritten(was, start, c2h, 0); }
      assert Batch(kind, req.sgl, from, descMax) == (b + todo)[..Min(descMax, |b + todo|)] by {
        BatchIs(kind, req.sgl, from, descMax);
        assert b + todo == todo;
      }
      assert CutsBefore(req.sgl, from, from) == 0 by { NoneBefore(req.sgl, from); }
      while i < |req.sgl| && descCnt < descMax
        invariant from <= i <= |req.sgl|
        invariant descCnt <= descMax && |b| == descCnt && dataCnt == CutsLen(b)
        invariant descCnt < descMax ==> todo == Cuts(kind, req.sgl[i..]) && descCnt == CutsBefore(req.sgl, from, i)
        invariant Batch(kind, req.sgl, from, descMax) == (b + todo)[..Min(descMax, |b + todo|)]
        invariant pidx == Incr(start, descCnt, |was|)
        invariant pidxReg == if b == [] then old(pidxReg) else pidx
        invariant StWritten(desc[..], was, start, b, req.offset == 0, lastFrom)
      {
        ghost var cuts, rest := EntryCuts(kind, req.sgl[i].addr, req.sgl[i].len), Cuts(kind, req.sgl[i + 1..]);
        CutsFirst(kind, req.sgl[i..]);
        assert req.sgl[i..][1..] == req.sgl[i + 1..];
        CutsBeforeStep(req.sgl, from, i);
        StEntryFirst(req.sgl[i].addr, req.sgl[i].len);
        AtLastEntry(req.sgl, from, i, descCnt);
        AtLastEntry(req.sgl, from, i, descCnt + |cuts| - 1);
        var emitted, bytes := EmitStEntry(req.sgl[i], i == |req.sgl| - 1, descMax - descCnt,
                                          was, start, b, req.offset == 0, lastFrom);
        BatchMoves(Batch(kind, req.sgl, from, descMax), b, cuts, rest, emitted, descMax);
        b, todo := b + cuts[..emitted], cuts[emitted..] + rest;
        descCnt, dataCnt := descCnt + emitted, dataCnt + bytes;
        i := i + 1;
      }
      CutsFirst(kind, req.sgl[|req.sgl|..]);
      BatchDone(Batch(kind, req.sgl, from, descMax), b, todo, descMax);
      StComplete(desc[..], model.ring, b, c2h, req.sgl, req.epAddr, req.offset, from);
    }

    /** The inner loop: one entry is cut into descriptors, as far as there is room. */
    method EmitStEntry(sg: Sg, last: bool, room: nat, ghost was: seq<Desc>, ghost start: nat, ghost b0: seq<Cut>,
                       ghost sop: bool, ghost lastFrom: nat)
      returns (descCnt: nat, dataCnt: nat)
      requires desc.Length == |was| && start < |was| && 0 < room && |b0| + room < |was|
      requires pidx == Incr(start, |b0|, |was|) && StWritten(desc[..], was, start, b0, sop, lastFrom)
      requires if last then lastFrom <= |b0| else lastFrom >= |b0| + |EntryCuts(StH2c, sg.addr, sg.len)|
      modifies this`pidx, this`pidxReg, desc
      ensures var cuts := EntryCuts(StH2c, sg.addr, sg.len);
              && descCnt == Min(room, |cuts|)
              && CutsLen(b0 + cuts[..descCnt]) == CutsLen(b0) + dataCnt
              && StWritten(desc[..], was, start, b0 + cuts[..descCnt], sop, lastFrom)
              && pidx == Incr(start, |b0| + descCnt, |was|)
              && pidxReg == (if descCnt == 0 then old(pidxReg) else pidx)
    {
      hide EntryCuts, CutsLen, StWritten;
      ghost var cuts, b, todo := EntryCuts(StH2c, sg.addr, sg.len), b0, EntryCuts(StH2c, sg.addr, sg.len);
      var tlen: nat, addr: nat := sg.len, sg.addr;
      var again := true;
      descCnt, dataCnt := 0, 0;
      assert b == b0 + cuts[..0];
      while again
        invariant descCnt + |todo| == |cuts| && descCnt < room && b == b0 + cuts[..descCnt] && todo == cuts[descCnt..]
        invariant todo == if again then EntryCuts(StH2c, addr, tlen) else []
        invariant CutsLen(b) == CutsLen(b0) + dataCnt
        invariant pidx == Incr(start, |b|, |was|)
        invariant pidxReg == if descCnt == 0 then old(pidxReg) else pidx
        invariant StWritten(desc[..], was, start, b, sop, lastFrom)
        decreases tlen, again
      {
        var len := Min(tlen, PAGE_SIZE);
        StEntryFirst(addr, tlen);
        assert todo[0] == Cut(addr, len) == cuts[descCnt];
        StStep(desc[..], was, start, b, Cut(addr, len), sop, lastFrom);
        EmitSt(Cut(addr, len), last);
        CutsLenStep(b, Cut(addr, len));
        assert b + [Cut(addr, len)] == b0 + cuts[..descCnt + 1];
        assert todo[1..] == cuts[descCnt + 1..];
        b, todo := b + [Cut(addr, len)], todo[1..];
        dataCnt, addr, tlen := dataCnt + len, addr + len, tlen - len;
        again := tlen > 0;
        descCnt := descCnt + 1;
        if descCnt == room {
          break;
        }
      }
    }

    /** `qdma_descq_proc_sgt_request` */
    method ProcSgtRequest(k: nat) returns (rv: int)
      requires Valid() && k < |work|
      modifies this, desc, work[k]
      ensures Valid() && (model, rv) == Post(old(model), k)
      ensures StaysOrLeaves(work, old(work), k) && (rv < 0 ==> work == old(work))
      ensures MayMove(pend, old(pend), old(work[k]))
    {
      if kind.MM? {
        rv := MmProcRequest(k);
      } else {
        rv := StH2cProcRequest(k);
      }
    }

    /** `qdma_sgt_req_done`, without the unlinking. */
    method Report(cb: Request, error: int)
      modifies cb`done, cb`status, this`model
      ensures cb.done && cb.status == Status(cb.View(), error)
      ensures model == old(model).(lists := old(model.lists).(completed :=
                         old(model.lists.completed) + [Completion(cb.id, cb.status)]))
    {
      cb.status := if cb.async && cb.offset != cb.count then EINVAL else error;
      cb.done := true;
      model := model.(lists := model.lists.(completed := model.lists.completed + [Completion(cb.id, cb.status)]));
    }

    /** A request of the work list ends with an error. */
    method FinishWorkAt(k: nat, error: int)
      requires Valid() && k < |work|
      modifies this`work, this`model, work[k]
      ensures work == old(work[..k] + work[k + 1..]) && pend == old(pend)
      ensures Valid() && model == old(model).(lists := FinishWork(old(model.lists), k, error))
    {
      Report(work[k], error);
      work := work[..k] + work[k + 1..];
      model := model.(lists := model.lists.(work := model.lists.work[..k] + model.lists.work[k + 1..]));
    }

    /** `qdma_thread_wrk_proc`: post for the requests of the work list while there is room.
        A request that is posted in full or ends in an error leaves the list, so that its
        successor moves up to its place. */
    method WrkProc()
      requires Valid()
      modifies this, desc, work
      ensures Valid() && model == Worker(old(model), 0)
      ensures forall r :: r in work || r in pend ==> r in old(work) || r in old(pend)
    {
      hide Post, FinishWork, Worker, ListsAre;
      SameLength();
      var k := 0;
      ghost var goal := Worker(model, 0);
      while k < |work|
        invariant Valid() && 0 <= k <= |work| == |model.lists.work|
        invariant forall r :: r in work ==> r in old(work)
        invariant forall r :: r in pend ==> r in old(work) || r in old(pend)
        invariant goal == Worker(model, k)
        decreases |work| - k
      {
        var before := |work|;
        SameLength();
        WorkerStep(model, k);
        assert work[k] in work;
        var rv := ProcSgtRequest(k);
        if rv < 0 {
          FinishWorkAt(k, rv);
        }
        SameLength();
        if avail == 0 {
          break;
        }
        if |work| == before {
          k := k + 1;
        }
      }
      if k == |work| {
        WorkerEnd(model);
      }
    }

    /** `descq_wb_credit` */
    method WbCredit(cidxHw: nat) returns (n: nat)
      requires FieldsOk() && HwIndexOk(model.ring, cidxHw)
      modifies this`cidx, this`avail, this`model
      ensures FieldsOk() && n == Delta(cidxHw, old(cidx), desc.Length)
      ensures model == old(model).(ring := Reclaim(old(model.ring), cidxHw))
    {
      if cidxHw == cidx {
        return 0;
      }
      n := if cidxHw < cidx then (desc.Length - cidx) + cidxHw else cidxHw - cidx;
      cidx := cidxHw;
      avail := avail + n;
      model := model.(ring := Reclaim(model.ring, cidxHw));
    }

    /** The oldest pending request is complete. */
    method FinishPendHead()
      requires Valid() && pend != []
      modifies this`pend, this`model, pend[0]
      ensures Valid() && pend == old(pend[1..]) && model == old(model).(lists := FinishPend(old(model.lists)))
    {
      Report(pend[0], 0);
      pend := pend[1..];
      model := model.(lists := model.lists.(pend := model.lists.pend[1..]));
    }

    /** The oldest pending request absorbs `left` credits. */
    method ChargePendHead(left: nat)
      requires Valid() && pend != [] && left < pend[0].descNr
      modifies this`model, pend[0]
      ensures Valid()
      ensures var h := old(model.lists.pend)[0];
              model == old(model).(lists := old(model.lists).(pend :=
                         [h.(descNr := h.descNr - left)] + old(model.lists.pend)[1..]))
    {
      pend[0].descNr := pend[0].descNr - left;
      model := model.(lists := model.lists.(pend :=
                 [model.lists.pend[0].(descNr := pend[0].descNr)] + model.lists.pend[1..]));
    }

    /** What no pending request takes is kept for the next time. */
    method BankCredit(left: nat)
      requires Valid()
      modifies this`credit, this`model
      ensures Valid() && model == old(model).(lists := old(model.lists).(credit := left))
    {
      credit := left;
      model := model.(lists := model.lists.(credit := left));
    }

    /** `req_update_pend`: `credits` more descriptors are consumed. */
    method ReqUpdatePend(credits: nat)
      requires Valid()
      modifies this`credit, this`pend, this`model, pend
      ensures Valid() && model == old(model).(lists := Distribute(old(model.lists), credits + old(credit)))
      ensures work == old(work) && forall r :: r in pend ==> r in old(pend)
    {
      hide Distribute, FinishPend, ListsAre;
      var left: nat := credits + credit;
      ghost var goal := Distribute(model.lists, left);
      while pend != []
        invariant Valid() && work == old(work) && forall r :: r in pend ==> r in old(pend)
        invariant model == old(model).(lists := model.lists)
        invariant goal == Distribute(model.lists, left)
        decreases |pend|
      {
        var cb := pend[0];
        AtPend();
        assert cb in pend;
        DistributeStep(model.lists, left);
        if left >= cb.descNr {
          left := left - cb.descNr;
          FinishPendHead();
          if left == 0 {
            break;
          }
        } else {
          ChargePendHead(left);
          left := 0;
          break;
        }
      }
      SameLength();
      DistributeEnd(model.lists, left);
      BankCredit(left);
    }

    /** `descq_mm_n_h2c_wb`: serve the consumer index the hardware wrote back. */
    method ServiceWb(cidxHw: nat)
      requires Valid() && HwIndexOk(model.ring, cidxHw)
      modifies this, pend
      ensures Valid() && model == TransmitSpec.Service(old(model), cidxHw)
      ensures work == old(work) && forall r :: r in pend ==> r in old(pend)
    {
      hide Distribute, ListsAre, Reclaim;
      if pidx == cidx || cidxHw == cidx {
        return;
      }
      var n := WbCredit(cidxHw);
      ReqUpdatePend(n);
      pidxReg := pidx;
      model := model.(pidxReg := pidx);
    }
  }
}
