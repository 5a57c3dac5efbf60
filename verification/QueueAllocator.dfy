/** Adding, starting, stopping and removing queues (libqdma/libqdma_export.c), and the
    lookup of a queue by its handle (libqdma/qdma_device.c), as functions on values.
    `QueueDevice` (QueueDevice.dfy) has the same operations on the driver's arrays. */
module QueueAllocator {

  const IDX_INVALID: nat := 0xFFFF

  const ERR_INVALID_QIDX: int := -7
  const ERR_INVALID_DESCQ_STATE: int := -8
  const ERR_DESCQ_FULL: int := -11
  const ERR_IDX_ALREADY_ADDED: int := -12
  const ERR_INTERFACE_NOT_ENABLED: int := -16
  const EINVAL: int := -22

  /** The state of one queue (`struct qdma_descq` and its configuration). */
  datatype Queue = Queue(enabled: bool, inited: bool, online: bool, st: bool, c2h: bool, qidx: nat)

  /** What the caller asks for (`struct qdma_queue_conf`). */
  datatype Conf = Conf(qidx: nat, st: bool, c2h: bool)

  /** A device (`struct qdma_dev`) and its enabled modes. */
  datatype Dev = Dev(h2c: seq<Queue>, c2h: seq<Queue>, h2cQcnt: int, c2hQcnt: int, stEn: bool, mmEn: bool)

  datatype AddResult = AddResult(dev: Dev, rv: int, handle: nat, qidx: nat)
  datatype OpResult = OpResult(dev: Dev, rv: int)

  datatype Found = NotFound | Found(c2h: bool, idx: nat)

  /** Both directions have the same number of queues. */
  predicate Paired(d: Dev)
  {
    |d.h2c| == |d.c2h| <= IDX_INVALID
  }

  function Own(d: Dev, c2h: bool): seq<Queue>
  {
    if c2h then d.c2h else d.h2c
  }

  function Qcnt(d: Dev, c2h: bool): int
  {
    if c2h then d.c2hQcnt else d.h2cQcnt
  }

  /** The direction `c2h` after a change. */
  function With(d: Dev, c2h: bool, queues: seq<Queue>, cnt: int): Dev
  {
    if c2h then d.(c2h := queues, c2hQcnt := cnt) else d.(h2c := queues, h2cQcnt := cnt)
  }

  /** Queue `i` may be handed out in mode `st`: it is free, and its counterpart in the
      other direction is free or has the same mode. */
  predicate Admissible(own: seq<Queue>, pair: seq<Queue>, st: bool, i: nat)
    requires i < |own| == |pair|
  {
    !own[i].enabled && !(pair[i].enabled && st != pair[i].st)
  }

  /** The scan for a free queue, from `i` on. */
  function FirstFit(own: seq<Queue>, pair: seq<Queue>, st: bool, i: nat): (r: nat)
    requires i <= |own| == |pair|
    ensures i <= r <= |own|
    decreases |own| - i
  {
    if i == |own| || Admissible(own, pair, st, i) then i else FirstFit(own, pair, st, i + 1)
  }

  predicate ModeOn(d: Dev, st: bool)
  {
    if st then d.stEn else d.mmEn
  }

  /** `qdma_queue_add`; preparing the device's resources is taken to succeed. */
  function Add(d: Dev, conf: Conf): (r: AddResult)
    requires Paired(d)
    ensures Paired(r.dev) && |r.dev.h2c| == |d.h2c|
  {
    var own, pair := Own(d, conf.c2h), Own(d, !conf.c2h);
    var qmax := |own|;
    if !ModeOn(d, conf.st) then AddResult(d, ERR_INTERFACE_NOT_ENABLED, IDX_INVALID, conf.qidx)
    else if conf.qidx != IDX_INVALID && conf.qidx >= qmax then AddResult(d, ERR_INVALID_QIDX, IDX_INVALID, conf.qidx)
    else if Qcnt(d, conf.c2h) >= qmax then AddResult(d, ERR_DESCQ_FULL, IDX_INVALID, conf.qidx)
    else if conf.qidx == IDX_INVALID then
      var i := FirstFit(own, pair, conf.st, 0);
      if i == qmax then AddResult(d, ERR_DESCQ_FULL, IDX_INVALID, conf.qidx) else Enable(d, conf, i)
    else if pair[conf.qidx].enabled && conf.st != pair[conf.qidx].st then
      AddResult(d, EINVAL, IDX_INVALID, conf.qidx)
    else if own[conf.qidx].enabled then AddResult(d, ERR_IDX_ALREADY_ADDED, IDX_INVALID, conf.qidx)
    else Enable(d, conf, conf.qidx)
  }

  /** Queue `i` is handed out and configured. */
  function Enable(d: Dev, conf: Conf, i: nat): (r: AddResult)
    requires Paired(d) && i < |d.h2c|
    ensures Paired(r.dev) && |r.dev.h2c| == |d.h2c|
  {
    var own := Own(d, conf.c2h);
    AddResult(With(d, conf.c2h, own[i := own[i].(enabled := true, st := conf.st, c2h := conf.c2h, qidx := i)],
                   Qcnt(d, conf.c2h) + 1),
              0, if conf.c2h then i + |own| else i, i)
  }

  /** `qdma_device_get_descq_by_id`; with `live`, disabled queues are refused. */
  function Lookup(d: Dev, id: nat, live: bool): (r: Found)
    requires Paired(d)
    ensures r.Found? ==> r.idx < |d.h2c|
  {
    var qmax := |d.h2c|;
    if id >= 2 * qmax then NotFound
    else
      var c2h, i := id >= qmax, if id >= qmax then id - qmax else id;
      if live && !Own(d, c2h)[i].enabled then NotFound else Found(c2h, i)
  }

  /** `qdma_queue_remove`; the count is chosen by the queue's own configuration. */
  function Remove(d: Dev, id: nat): (r: OpResult)
    requires Paired(d)
    ensures Paired(r.dev) && |r.dev.h2c| == |d.h2c|
  {
    match Lookup(d, id, true)
    case NotFound => OpResult(d, ERR_INVALID_QIDX)
    case Found(c2h, i) =>
      var q := Own(d, c2h)[i];
      var d1 := With(d, c2h, Own(d, c2h)[i := q.(enabled := false, inited := false, online := false)], Qcnt(d, c2h));
      OpResult(With(d1, q.c2h, Own(d1, q.c2h), Qcnt(d1, q.c2h) - 1), 0)
  }

  /** `qdma_queue_start`; `alloc` and `prog` say whether allocation and programming work. */
  function Start(d: Dev, id: nat, alloc: int, prog: int): (r: OpResult)
    requires Paired(d)
    ensures Paired(r.dev) && |r.dev.h2c| == |d.h2c|
  {
    match Lookup(d, id, true)
    case NotFound => OpResult(d, ERR_INVALID_QIDX)
    case Found(c2h, i) =>
      var q := Own(d, c2h)[i];
      if q.inited || q.online then OpResult(d, ERR_INVALID_DESCQ_STATE)
      else if alloc < 0 then OpResult(d, alloc)
      else if prog < 0 then OpResult(d, prog)
      else OpResult(With(d, c2h, Own(d, c2h)[i := q.(inited := true, online := true)], Qcnt(d, c2h)), 0)
  }

  /** `qdma_queue_stop` */
  function Stop(d: Dev, id: nat): (r: OpResult)
    requires Paired(d)
    ensures Paired(r.dev) && |r.dev.h2c| == |d.h2c|
  {
    match Lookup(d, id, true)
    case NotFound => OpResult(d, ERR_INVALID_QIDX)
    case Found(c2h, i) =>
      var q := Own(d, c2h)[i];
      OpResult(With(d, c2h, Own(d, c2h)[i := q.(inited := false, online := false)], Qcnt(d, c2h)), 0)
  }

  /* ---- what every operation keeps ---- */

  function Enabled(qs: seq<Queue>): nat
  {
    if qs == [] then 0 else Enabled(qs[..|qs| - 1]) + (if qs[|qs| - 1].enabled then 1 else 0)
  }

  /** An enabled queue knows its direction and index; a disabled one is not running; and a
      queue runs only when it is initialised. */
  predicate QueueOk(q: Queue, c2h: bool, i: nat)
  {
    && (q.enabled ==> q.c2h == c2h && q.qidx == i)
    && (q.inited || q.online ==> q.enabled)
    && q.online == q.inited
  }

  predicate SideOk(qs: seq<Queue>, c2h: bool, cnt: int)
  {
    cnt == Enabled(qs) && forall i :: 0 <= i < |qs| ==> QueueOk(qs[i], c2h, i)
  }

  predicate SameModes(a: seq<Queue>, b: seq<Queue>)
    requires |a| == |b|
  {
    forall i :: 0 <= i < |a| ==> a[i].enabled && b[i].enabled ==> a[i].st == b[i].st
  }

  predicate Inv(d: Dev)
  {
    && Paired(d)
    && SideOk(d.h2c, false, d.h2cQcnt) && SideOk(d.c2h, true, d.c2hQcnt)
    && SameModes(d.h2c, d.c2h)
  }

  lemma {:induction false} EnabledUpdate(qs: seq<Queue>, i: nat, q: Queue)
    requires i < |qs|
    ensures Enabled(qs[i := q]) ==
            Enabled(qs) - (if qs[i].enabled then 1 else 0) + (if q.enabled then 1 else 0)
  {
    var n := |qs| - 1;
    if i < n {
      assert qs[i := q][..n] == qs[..n][i := q];
      EnabledUpdate(qs[..n], i, q);
    } else {
      assert qs[i := q][..n] == qs[..n];
    }
  }

  /** All queues are handed out if and only if the count says so. */
  lemma {:induction false} EnabledBound(qs: seq<Queue>)
    ensures Enabled(qs) <= |qs|
    ensures Enabled(qs) == |qs| <==> forall i :: 0 <= i < |qs| ==> qs[i].enabled
  {
    if qs != [] {
      var n := |qs| - 1;
      EnabledBound(qs[..n]);
      if forall i :: 0 <= i < |qs| ==> qs[i].enabled {
        forall i | 0 <= i < n ensures qs[..n][i].enabled { assert qs[..n][i] == qs[i]; }
      } else if Enabled(qs) == |qs| {
        forall i | 0 <= i < n ensures qs[i].enabled { assert qs[..n][i] == qs[i]; }
      }
    }
  }

  lemma {:induction false} FirstFitIs(own: seq<Queue>, pair: seq<Queue>, st: bool, i: nat)
    requires i <= |own| == |pair|
    ensures var r := FirstFit(own, pair, st, i);
            && i <= r <= |own|
            && (r < |own| ==> Admissible(own, pair, st, r))
            && (forall j :: i <= j < r ==> !Admissible(own, pair, st, j))
    decreases |own| - i
  {
    if i < |own| && !Admissible(own, pair, st, i) {
      FirstFitIs(own, pair, st, i + 1);
    }
  }

  /** A change of one queue that keeps its promises keeps those of its side. */
  lemma {:induction false} SideUpdate(qs: seq<Queue>, c2h: bool, cnt: int, i: nat, q: Queue)
    requires SideOk(qs, c2h, cnt) && i < |qs| && QueueOk(q, c2h, i)
    ensures SideOk(qs[i := q], c2h,
                   cnt - (if qs[i].enabled then 1 else 0) + (if q.enabled then 1 else 0))
  {
    EnabledUpdate(qs, i, q);
  }

  lemma {:induction false} EnableKeeps(d: Dev, conf: Conf, i: nat)
    requires Inv(d) && i < |d.h2c| && Admissible(Own(d, conf.c2h), Own(d, !conf.c2h), conf.st, i)
    ensures Inv(Enable(d, conf, i).dev)
    ensures Lookup(Enable(d, conf, i).dev, Enable(d, conf, i).handle, true) == Found(conf.c2h, i)
  {
    var own := Own(d, conf.c2h);
    assert QueueOk(own[i], conf.c2h, i);
    SideUpdate(own, conf.c2h, Qcnt(d, conf.c2h), i, own[i].(enabled := true, st := conf.st, c2h := conf.c2h, qidx := i));
  }

  /** Only queue `(c2h, i)` may differ. */
  predicate SameBut(d: Dev, d': Dev, c2h: bool, i: nat)
  {
    && |d'.h2c| == |d.h2c| && |d'.c2h| == |d.c2h|
    && (forall k :: 0 <= k < |d.h2c| && (c2h || k != i) ==> d'.h2c[k] == d.h2c[k])
    && (forall k :: 0 <= k < |d.c2h| && (!c2h || k != i) ==> d'.c2h[k] == d.c2h[k])
  }

  /** Size and enabled modes of the device are the same. */
  predicate SameDevice(d: Dev, d': Dev)
  {
    |d'.h2c| == |d.h2c| && d'.stEn == d.stEn && d'.mmEn == d.mmEn
  }

  /** Some queue of the direction can be handed out. */
  predicate SomeAdmissible(own: seq<Queue>, pair: seq<Queue>, st: bool)
    requires |own| == |pair|
  {
    exists i: nat :: i < |own| && Admissible(own, pair, st, i)
  }

  /** The mode is on, and the wanted queue, or with automatic choice some queue, can be
      handed out. */
  predicate CanAdd(d: Dev, conf: Conf)
    requires Paired(d)
  {
    var own, pair := Own(d, conf.c2h), Own(d, !conf.c2h);
    && ModeOn(d, conf.st)
    && (if conf.qidx == IDX_INVALID then SomeAdmissible(own, pair, conf.st)
        else conf.qidx < |own| && Admissible(own, pair, conf.st, conf.qidx))
  }

  /** When adding succeeds, and which queue is chosen. */
  lemma {:induction false} AddChoice(d: Dev, conf: Conf)
    requires Inv(d)
    ensures var r, own, pair := Add(d, conf), Own(d, conf.c2h), Own(d, !conf.c2h);
            && (r.rv == 0 <==> CanAdd(d, conf))
            && (r.rv == 0 ==>
                 && r.qidx < |d.h2c| && Admissible(own, pair, conf.st, r.qidx)
                 && r == Enable(d, conf, r.qidx)
                 && (if conf.qidx == IDX_INVALID
                     then forall j :: 0 <= j < r.qidx ==> !Admissible(own, pair, conf.st, j)
                     else r.qidx == conf.qidx))
            && (r.rv != 0 ==> r.dev == d && r.handle == IDX_INVALID && r.rv < 0)
  {
    hide SideOk, SameModes, Enabled, FirstFit;
    var own, pair := Own(d, conf.c2h), Own(d, !conf.c2h);
    CountIsFull(d, conf.c2h);
    FirstFitIs(own, pair, conf.st, 0);
    assert SomeAdmissible(own, pair, conf.st) <==> FirstFit(own, pair, conf.st, 0) < |own|;
    assert forall i :: 0 <= i < |own| && Admissible(own, pair, conf.st, i) ==> !own[i].enabled;
  }

  /** MAIN RESULT on adding.  Adding succeeds if and only if the mode is on and the wanted
      queue, or with automatic choice some queue, is admissible; automatic choice then
      gives the least one; the handle finds exactly the new queue, which has the mode,
      direction and index asked for and is not running; the count of its direction goes up
      by one, and nothing else changes.  A failed call changes nothing and returns the
      invalid handle. */
  lemma {:induction false} AddIs(d: Dev, conf: Conf)
    requires Inv(d)
    ensures var r, own, pair := Add(d, conf), Own(d, conf.c2h), Own(d, !conf.c2h);
            && Inv(r.dev)
            && (r.rv == 0 <==> CanAdd(d, conf))
            && (r.rv == 0 ==>
                 && r.qidx < |d.h2c| && Admissible(own, pair, conf.st, r.qidx)
                 && (if conf.qidx == IDX_INVALID
                     then forall j :: 0 <= j < r.qidx ==> !Admissible(own, pair, conf.st, j)
                     else r.qidx == conf.qidx)
                 && Lookup(d, r.handle, true) == NotFound
                 && Lookup(r.dev, r.handle, true) == Found(conf.c2h, r.qidx)
                 && Own(r.dev, conf.c2h)[r.qidx] == Queue(true, false, false, conf.st, conf.c2h, r.qidx)
                 && SameBut(d, r.dev, conf.c2h, r.qidx) && SameDevice(d, r.dev)
                 && Qcnt(r.dev, conf.c2h) == Qcnt(d, conf.c2h) + 1 && Qcnt(r.dev, !conf.c2h) == Qcnt(d, !conf.c2h))
            && (r.rv != 0 ==> r.dev == d && r.handle == IDX_INVALID && r.rv < 0)
  {
    hide SideOk, SameModes, Enabled, FirstFit, Add;
    AddChoice(d, conf);
    var r := Add(d, conf);
    if r.rv == 0 {
      EnableKeeps(d, conf, r.qidx);
      IdleWhenFree(d, conf.c2h, r.qidx);
    }
  }

  lemma {:induction false} IdleWhenFree(d: Dev, c2h: bool, i: nat)
    requires Inv(d) && i < |d.h2c|
    ensures var q := Own(d, c2h)[i];
            && (!q.enabled ==> !q.inited && !q.online) && q.online == q.inited
            && (q.enabled ==> q.c2h == c2h && q.qidx == i)
  {
    assert QueueOk(Own(d, c2h)[i], c2h, i);
  }

  /** Every queue of the direction is handed out. */
  predicate AllEnabled(own: seq<Queue>)
  {
    forall i :: 0 <= i < |own| ==> own[i].enabled
  }

  /** MAIN RESULT on refusals: which error is reported, in terms of the queues handed out. */
  lemma {:induction false} AddRefusal(d: Dev, conf: Conf)
    requires Inv(d)
    ensures var own, pair, rv := Own(d, conf.c2h), Own(d, !conf.c2h), Add(d, conf).rv;
            var named := conf.qidx != IDX_INVALID;
            && (rv == ERR_INTERFACE_NOT_ENABLED <==> !(if conf.st then d.stEn else d.mmEn))
            && (ModeOn(d, conf.st) ==>
                 && (rv == ERR_INVALID_QIDX <==> named && conf.qidx >= |own|)
                 && (!(named && conf.qidx >= |own|) ==>
                      && (rv == ERR_DESCQ_FULL <==>
                            if named then AllEnabled(own) else !SomeAdmissible(own, pair, conf.st))
                      && (rv == EINVAL <==>
                            named && !AllEnabled(own) && pair[conf.qidx].enabled && pair[conf.qidx].st != conf.st)
                      && (rv == ERR_IDX_ALREADY_ADDED <==>
                            named && !AllEnabled(own) && own[conf.qidx].enabled
                            && !(pair[conf.qidx].enabled && pair[conf.qidx].st != conf.st))))
  {
    hide SideOk, SameModes, Enabled, FirstFit;
    var own, pair := Own(d, conf.c2h), Own(d, !conf.c2h);
    CountIsFull(d, conf.c2h);
    FirstFitIs(own, pair, conf.st, 0);
    assert SomeAdmissible(own, pair, conf.st) <==> FirstFit(own, pair, conf.st, 0) < |own|;
    assert forall i :: 0 <= i < |own| && Admissible(own, pair, conf.st, i) ==> !own[i].enabled;
  }

  lemma {:induction false} CountIsFull(d: Dev, c2h: bool)
    requires Inv(d)
    ensures Qcnt(d, c2h) >= |d.h2c| <==> forall i :: 0 <= i < |d.h2c| ==> Own(d, c2h)[i].enabled
  {
    EnabledBound(Own(d, c2h));
  }

  lemma {:induction false} RemoveKeeps(d: Dev, id: nat)
    requires Inv(d)
    ensures Inv(Remove(d, id).dev)
  {
    if Lookup(d, id, true).Found? {
      var c2h, i := Lookup(d, id, true).c2h, Lookup(d, id, true).idx;
      var q := Own(d, c2h)[i];
      assert QueueOk(q, c2h, i);
      SideUpdate(Own(d, c2h), c2h, Qcnt(d, c2h), i, q.(enabled := false, inited := false, online := false));
    }
  }

  lemma {:induction false} StartKeeps(d: Dev, id: nat, alloc: int, prog: int)
    requires Inv(d)
    ensures Inv(Start(d, id, alloc, prog).dev)
  {
    if Lookup(d, id, true).Found? {
      var c2h, i := Lookup(d, id, true).c2h, Lookup(d, id, true).idx;
      var q := Own(d, c2h)[i];
      assert QueueOk(q, c2h, i);
      SideUpdate(Own(d, c2h), c2h, Qcnt(d, c2h), i, q.(inited := true, online := true));
    }
  }

  lemma {:induction false} StopKeeps(d: Dev, id: nat)
    requires Inv(d)
    ensures Inv(Stop(d, id).dev)
  {
    if Lookup(d, id, true).Found? {
      var c2h, i := Lookup(d, id, true).c2h, Lookup(d, id, true).idx;
      var q := Own(d, c2h)[i];
      assert QueueOk(q, c2h, i);
      SideUpdate(Own(d, c2h), c2h, Qcnt(d, c2h), i, q.(inited := false, online := false));
    }
  }

  /** What is handed out: direction, index and mode of every enabled queue. */
  function Live(d: Dev): set<(bool, nat)>
    requires Paired(d)
  {
    set c2h: bool, i: nat | c2h in {false, true} && i < |d.h2c| && Own(d, c2h)[i].enabled :: (c2h, i)
  }

  lemma {:induction false} EnableThenRemove(d: Dev, conf: Conf, i: nat)
    requires Paired(d) && i < |d.h2c| && !Own(d, conf.c2h)[i].enabled
    ensures var r := Enable(d, conf, i);
            var u := Remove(r.dev, r.handle);
            && u.rv == 0 && u.dev.h2cQcnt == d.h2cQcnt && u.dev.c2hQcnt == d.c2hQcnt
            && SameBut(d, r.dev, conf.c2h, i) && SameBut(d, u.dev, conf.c2h, i)
            && Own(r.dev, conf.c2h)[i].enabled && !Own(u.dev, conf.c2h)[i].enabled
  {
  }

  lemma {:induction false} LiveSame(d: Dev, d': Dev, c2h: bool, i: nat)
    requires Paired(d) && SameBut(d, d', c2h, i) && i < |d.h2c|
    ensures Own(d', c2h)[i].enabled ==> Live(d') == Live(d) + {(c2h, i)}
    ensures !Own(d', c2h)[i].enabled ==> Live(d') == Live(d) - {(c2h, i)}
    ensures (c2h, i) in Live(d) <==> Own(d, c2h)[i].enabled
  {
  }

  /** Removing undoes adding: the counts and the set of queues handed out are as before,
      and no other queue is touched by either call. */
  lemma {:induction false} RemoveUndoesAdd(d: Dev, conf: Conf)
    requires Inv(d) && Add(d, conf).rv == 0
    ensures var r := Add(d, conf);
            var u := Remove(r.dev, r.handle);
            && u.rv == 0 && u.dev.h2cQcnt == d.h2cQcnt && u.dev.c2hQcnt == d.c2hQcnt
            && Live(u.dev) == Live(d)
            && Live(r.dev) == Live(d) + {(conf.c2h, r.qidx)} && (conf.c2h, r.qidx) !in Live(d)
            && SameBut(d, r.dev, conf.c2h, r.qidx) && SameBut(d, u.dev, conf.c2h, r.qidx)
  {
    hide SideOk, SameModes, Add, Remove, Enable, Live, SameBut;
    AddChoice(d, conf);
    var r := Add(d, conf);
    EnableThenRemove(d, conf, r.qidx);
    LiveSame(d, r.dev, conf.c2h, r.qidx);
    LiveSame(d, Remove(r.dev, r.handle).dev, conf.c2h, r.qidx);
  }

  /* ---- handles ---- */

  function HandleOf(d: Dev, c2h: bool, i: nat): nat
  {
    if c2h then i + |d.h2c| else i
  }

  /** MAIN RESULT on handles: they are one-to-one with (direction, index), in both
      directions, and the lookup of anything else fails. */
  lemma {:induction false} HandlesAreOneToOne(d: Dev, id: nat, c2h: bool, i: nat)
    requires Paired(d) && i < |d.h2c|
    ensures Lookup(d, id, false) == Found(c2h, i) <==> id == HandleOf(d, c2h, i)
    ensures Lookup(d, id, true) == Found(c2h, i) <==> id == HandleOf(d, c2h, i) && Own(d, c2h)[i].enabled
    ensures Lookup(d, id, false) == NotFound <==> id >= 2 * |d.h2c|
  {
  }

  /** No queue's handle is the invalid handle if and only if twice the number of queues
      fits below it; with more queues a C2H queue is handed out under that value. */
  lemma {:induction false} InvalidHandleIsFreeIff(d: Dev)
    requires Paired(d)
    ensures (forall c2h: bool, i: nat :: i < |d.h2c| ==> HandleOf(d, c2h, i) != IDX_INVALID) <==> 2 * |d.h2c| <= IDX_INVALID
  {
    if 2 * |d.h2c| > IDX_INVALID {
      assert HandleOf(d, true, IDX_INVALID - |d.h2c|) == IDX_INVALID;
    }
  }

  /* ---- the life of a queue ---- */

  /** Nothing but queue `(c2h, i)` and the counts differs. */
  predicate Becomes(d: Dev, d': Dev, c2h: bool, i: nat, q: Queue)
    requires i < |d.h2c|
  {
    SameBut(d, d', c2h, i) && SameDevice(d, d') && Paired(d') && Own(d', c2h)[i] == q
  }

  predicate SameCounts(d: Dev, d': Dev)
  {
    d'.h2cQcnt == d.h2cQcnt && d'.c2hQcnt == d.c2hQcnt
  }

  /** MAIN RESULT on starting.  Starting succeeds if and only if the queue is handed out, not
      running, and both allocation and programming work; the queue then runs and is
      otherwise as it was.  A failed start changes nothing. */
  lemma {:induction false} StartIs(d: Dev, c2h: bool, i: nat, alloc: int, prog: int)
    requires Inv(d) && i < |d.h2c|
    ensures var r, q := Start(d, HandleOf(d, c2h, i), alloc, prog), Own(d, c2h)[i];
            && Inv(r.dev) && SameCounts(d, r.dev)
            && (r.rv == 0 <==> q.enabled && !q.online && alloc >= 0 && prog >= 0)
            && (r.rv == 0 ==> Becomes(d, r.dev, c2h, i, Queue(true, true, true, q.st, c2h, i)))
            && (r.rv != 0 ==> r.dev == d && r.rv < 0)
            && (!q.enabled ==> r.rv == ERR_INVALID_QIDX)
            && (q.enabled && q.online ==> r.rv == ERR_INVALID_DESCQ_STATE)
            && (q.enabled && !q.online && (alloc < 0 || prog < 0) ==> r.rv == if alloc < 0 then alloc else prog)
  {
    hide SideOk, SameModes;
    IdleWhenFree(d, c2h, i);
    HandlesAreOneToOne(d, HandleOf(d, c2h, i), c2h, i);
    StartKeeps(d, HandleOf(d, c2h, i), alloc, prog);
    HandleFails(d, HandleOf(d, c2h, i));
  }

  /** MAIN RESULT on stopping.  Stopping succeeds if and only if the queue is handed out; it
      is then not running, stays handed out in its mode, and nothing else changes. */
  lemma {:induction false} StopIs(d: Dev, c2h: bool, i: nat)
    requires Inv(d) && i < |d.h2c|
    ensures var r, q := Stop(d, HandleOf(d, c2h, i)), Own(d, c2h)[i];
            && Inv(r.dev) && SameCounts(d, r.dev)
            && (r.rv == 0 <==> q.enabled)
            && (r.rv == 0 ==> Becomes(d, r.dev, c2h, i, Queue(true, false, false, q.st, c2h, i)))
            && (r.rv != 0 ==> r == OpResult(d, ERR_INVALID_QIDX))
  {
    hide SideOk, SameModes;
    IdleWhenFree(d, c2h, i);
    HandlesAreOneToOne(d, HandleOf(d, c2h, i), c2h, i);
    StopKeeps(d, HandleOf(d, c2h, i));
    HandleFails(d, HandleOf(d, c2h, i));
  }

  /** Removing succeeds if and only if the queue is handed out; it is then neither handed
      out nor running, the count of its direction goes down by one, and nothing else
      changes. */
  lemma {:induction false} RemoveIs(d: Dev, c2h: bool, i: nat)
    requires Inv(d) && i < |d.h2c|
    ensures var r, q := Remove(d, HandleOf(d, c2h, i)), Own(d, c2h)[i];
            && Inv(r.dev)
            && (r.rv == 0 <==> q.enabled)
            && (r.rv == 0 ==>
                 && Becomes(d, r.dev, c2h, i, Queue(false, false, false, q.st, c2h, i))
                 && Qcnt(r.dev, c2h) == Qcnt(d, c2h) - 1 && Qcnt(r.dev, !c2h) == Qcnt(d, !c2h))
            && (r.rv != 0 ==> r == OpResult(d, ERR_INVALID_QIDX))
  {
    hide SideOk, SameModes;
    IdleWhenFree(d, c2h, i);
    HandlesAreOneToOne(d, HandleOf(d, c2h, i), c2h, i);
    RemoveKeeps(d, HandleOf(d, c2h, i));
    HandleFails(d, HandleOf(d, c2h, i));
  }

  lemma {:induction false} HandleFails(d: Dev, id: nat)
    requires Paired(d)
    ensures Lookup(d, id, true) == NotFound <==>
            id >= 2 * |d.h2c| || !(if id < |d.h2c| then d.h2c[id] else d.c2h[id - |d.h2c|]).enabled
  {
  }

  /** A handle that no queue has is refused by every call. */
  lemma {:induction false} UnknownHandle(d: Dev, id: nat, alloc: int, prog: int)
    requires Paired(d) && id >= 2 * |d.h2c|
    ensures Start(d, id, alloc, prog) == Stop(d, id) == Remove(d, id) == OpResult(d, ERR_INVALID_QIDX)
  {
  }

  /** Starting, stopping and starting again succeeds, and the second start leads where the
      first one did. */
  lemma {:induction false} Restart(d: Dev, c2h: bool, i: nat, alloc: int, prog: int)
    requires Inv(d) && i < |d.h2c| && Own(d, c2h)[i].enabled && !Own(d, c2h)[i].online && alloc >= 0 && prog >= 0
    ensures var h := HandleOf(d, c2h, i);
            var a := Start(d, h, alloc, prog);
            var b := Stop(a.dev, h);
            a.rv == 0 && b.rv == 0 && b.dev == d && Start(b.dev, h, alloc, prog) == a
  {
    hide SideOk, SameModes, Start, Stop;
    var h := HandleOf(d, c2h, i);
    StartIs(d, c2h, i, alloc, prog);
    StopIs(Start(d, h, alloc, prog).dev, c2h, i);
    IdleWhenFree(d, c2h, i);
    var d' := Stop(Start(d, h, alloc, prog).dev, h).dev;
    assert d'.h2c == d.h2c && d'.c2h == d.c2h;
  }

  /* ---- runs ---- */

  datatype Step =
    | AddStep(conf: Conf)
    | RemoveStep(id: nat)
    | StartStep(id: nat, alloc: int, prog: int)
    | StopStep(id: nat)

  function Apply(d: Dev, st: Step): (d': Dev)
    requires Paired(d)
    ensures Paired(d') && |d'.h2c| == |d.h2c|
  {
    match st
    case AddStep(conf) => Add(d, conf).dev
    case RemoveStep(id) => Remove(d, id).dev
    case StartStep(id, alloc, prog) => Start(d, id, alloc, prog).dev
    case StopStep(id) => Stop(d, id).dev
  }

  /** `qdma_device_init`: `qmax` idle queues in each direction. */
  function Fresh(qmax: nat, stEn: bool, mmEn: bool): (d: Dev)
    requires qmax <= IDX_INVALID
    ensures Paired(d) && |d.h2c| == qmax
  {
    var qs := seq(qmax, i requires 0 <= i < qmax => Queue(false, false, false, false, false, i));
    Dev(qs, qs, 0, 0, stEn, mmEn)
  }

  lemma {:induction false} NoneEnabled(qs: seq<Queue>)
    requires forall i :: 0 <= i < |qs| ==> !qs[i].enabled
    ensures Enabled(qs) == 0
  {
    if qs != [] {
      NoneEnabled(qs[..|qs| - 1]);
    }
  }

  function Exec(qmax: nat, stEn: bool, mmEn: bool, steps: seq<Step>): (d: Dev)
    requires qmax <= IDX_INVALID
    ensures Paired(d) && |d.h2c| == qmax
  {
    if steps == [] then Fresh(qmax, stEn, mmEn)
    else Apply(Exec(qmax, stEn, mmEn, steps[..|steps| - 1]), steps[|steps| - 1])
  }

  /** MAIN RESULT.  In every reachable state each direction's count is the number of its
      enabled queues, the two queues of a pair share one mode while both are enabled, an
      enabled queue knows its own direction and index, and only enabled queues run. */
  lemma {:induction false} ReachableStatesAreSound(qmax: nat, stEn: bool, mmEn: bool, steps: seq<Step>)
    requires qmax <= IDX_INVALID
    ensures Inv(Exec(qmax, stEn, mmEn, steps))
  {
    hide SideOk, SameModes, Add, Remove, Start, Stop;
    if steps == [] {
      FreshOk(qmax, stEn, mmEn);
    } else {
      var d := Exec(qmax, stEn, mmEn, steps[..|steps| - 1]);
      ReachableStatesAreSound(qmax, stEn, mmEn, steps[..|steps| - 1]);
      match steps[|steps| - 1] {
        case AddStep(conf) => AddIs(d, conf);
        case RemoveStep(id) => RemoveKeeps(d, id);
        case StartStep(id, alloc, prog) => StartKeeps(d, id, alloc, prog);
        case StopStep(id) => StopKeeps(d, id);
      }
    }
  }

  lemma {:induction false} FreshOk(qmax: nat, stEn: bool, mmEn: bool)
    requires qmax <= IDX_INVALID
    ensures Inv(Fresh(qmax, stEn, mmEn))
  {
    NoneEnabled(Fresh(qmax, stEn, mmEn).h2c);
  }

  /* ---- what a run says about a queue ---- */

  /** Step `a` of the run handed out queue `(c2h, i)` in mode `st`. */
  predicate AddedBy(qmax: nat, stEn: bool, mmEn: bool, steps: seq<Step>, a: nat, c2h: bool, i: nat, st: bool)
    requires qmax <= IDX_INVALID && a < |steps|
  {
    && steps[a].AddStep? && steps[a].conf.c2h == c2h && steps[a].conf.st == st
    && var r := Add(Exec(qmax, stEn, mmEn, steps[..a]), steps[a].conf); r.rv == 0 && r.qidx == i
  }

  /** Step `a` handed the queue out in mode `st`, and it was not removed since. */
  predicate AddedSince(qmax: nat, stEn: bool, mmEn: bool, steps: seq<Step>, a: nat, c2h: bool, i: nat, st: bool)
    requires qmax <= IDX_INVALID && a < |steps|
  {
    && AddedBy(qmax, stEn, mmEn, steps, a, c2h, i, st)
    && forall k :: a < k < |steps| ==> steps[k] != RemoveStep(if c2h then i + qmax else i)
  }

  /** Step `a` started the queue, or found it running, and it was neither stopped nor
      removed since. */
  predicate StartedSince(qmax: nat, stEn: bool, mmEn: bool, steps: seq<Step>, a: nat, c2h: bool, i: nat)
    requires qmax <= IDX_INVALID && a < |steps| && i < qmax
  {
    var h := if c2h then i + qmax else i;
    && steps[a].StartStep? && steps[a].id == h && steps[a].alloc >= 0 && steps[a].prog >= 0
    && Own(Exec(qmax, stEn, mmEn, steps[..a]), c2h)[i].enabled
    && forall k :: a < k < |steps| ==> steps[k] != RemoveStep(h) && steps[k] != StopStep(h)
  }

  /** Some call added the queue in mode `st`, and none removed it since. */
  predicate Added(qmax: nat, stEn: bool, mmEn: bool, steps: seq<Step>, c2h: bool, i: nat, st: bool)
    requires qmax <= IDX_INVALID
  {
    exists a :: 0 <= a < |steps| && AddedSince(qmax, stEn, mmEn, steps, a, c2h, i, st)
  }

  /** Some call started the queue while it was handed out, and none stopped or removed it
      since. */
  predicate Started(qmax: nat, stEn: bool, mmEn: bool, steps: seq<Step>, c2h: bool, i: nat)
    requires qmax <= IDX_INVALID && i < qmax
  {
    exists a :: 0 <= a < |steps| && StartedSince(qmax, stEn, mmEn, steps, a, c2h, i)
  }

  /** What one step does to queue `(c2h, i)`. */
  lemma {:induction false} StepQueue(d: Dev, st: Step, c2h: bool, i: nat)
    requires Inv(d) && i < |d.h2c|
    ensures Inv(Apply(d, st)) && SameDevice(d, Apply(d, st))
    ensures var q, q', h := Own(d, c2h)[i], Own(Apply(d, st), c2h)[i], HandleOf(d, c2h, i);
            match st
            case AddStep(conf) =>
              var r := Add(d, conf);
              if r.rv == 0 && conf.c2h == c2h && r.qidx == i
              then !q.enabled && !q.online && q'.enabled && q'.st == conf.st && !q'.online else q' == q
            case RemoveStep(id) => if id == h then !q'.enabled && !q'.online else q' == q
            case StartStep(id, alloc, prog) =>
              q'.enabled == q.enabled && (q.enabled ==> q'.st == q.st)
              && (q'.online <==> q.online || (id == h && q.enabled && alloc >= 0 && prog >= 0))
            case StopStep(id) =>
              q'.enabled == q.enabled && (q.enabled ==> q'.st == q.st) && (q'.online <==> q.online && id != h)
  {
    hide Inv, Add, Remove, Start, Stop, Admissible, FirstFit, ModeOn;
    IdleWhenFree(d, c2h, i);
    match st {
      case AddStep(conf) => AddIs(d, conf); OneAdded(d, conf, c2h, i);
      case RemoveStep(id) => OtherQueue(d, id, c2h, i, 0, 0);
      case StartStep(id, alloc, prog) => OtherQueue(d, id, c2h, i, alloc, prog);
      case StopStep(id) => OtherQueue(d, id, c2h, i, 0, 0);
    }
  }

  lemma {:induction false} OneAdded(d: Dev, conf: Conf, c2h: bool, i: nat)
    requires Inv(d) && i < |d.h2c|
    ensures var r := Add(d, conf);
            && SameDevice(d, r.dev)
            && (r.rv == 0 && conf.c2h == c2h && r.qidx == i ==> !Own(d, c2h)[i].enabled)
            && (!(r.rv == 0 && conf.c2h == c2h && r.qidx == i) ==> Own(r.dev, c2h)[i] == Own(d, c2h)[i])
  {
    hide SideOk, SameModes, Add, FirstFit, ModeOn, CanAdd;
    AddIs(d, conf);
  }

  /** Calls with a handle leave the queues alone that do not have it. */
  lemma {:induction false} OtherQueue(d: Dev, id: nat, c2h: bool, i: nat, alloc: int, prog: int)
    requires Inv(d) && i < |d.h2c|
    ensures Inv(Start(d, id, alloc, prog).dev) && Inv(Stop(d, id).dev) && Inv(Remove(d, id).dev)
    ensures SameDevice(d, Start(d, id, alloc, prog).dev) && SameDevice(d, Stop(d, id).dev) && SameDevice(d, Remove(d, id).dev)
    ensures var q := Own(d, c2h)[i];
            var a, b, e := Own(Start(d, id, alloc, prog).dev, c2h)[i], Own(Stop(d, id).dev, c2h)[i], Own(Remove(d, id).dev, c2h)[i];
            if id == HandleOf(d, c2h, i)
            then a.enabled == b.enabled == q.enabled && !e.enabled && !e.online && !b.online
                 && (a.online <==> q.online || (q.enabled && alloc >= 0 && prog >= 0))
                 && (q.enabled ==> a.st == b.st == q.st)
            else a == b == e == q
  {
    hide SideOk, SameModes, Start, Stop, Remove, Lookup;
    IdleWhenFree(d, c2h, i);
    if id >= 2 * |d.h2c| {
      UnknownHandle(d, id, alloc, prog);
    } else {
      var c, j := id >= |d.h2c|, if id >= |d.h2c| then id - |d.h2c| else id;
      StartIs(d, c, j, alloc, prog);
      StopIs(d, c, j);
      RemoveIs(d, c, j);
    }
  }

  lemma {:induction false} ExecModes(qmax: nat, stEn: bool, mmEn: bool, steps: seq<Step>)
    requires qmax <= IDX_INVALID
    ensures var d := Exec(qmax, stEn, mmEn, steps); |d.h2c| == qmax && d.stEn == stEn && d.mmEn == mmEn
  {
    hide Inv, Apply;
    if |steps| > 0 {
      var d := Exec(qmax, stEn, mmEn, steps[..|steps| - 1]);
      ReachableStatesAreSound(qmax, stEn, mmEn, steps[..|steps| - 1]);
      ExecModes(qmax, stEn, mmEn, steps[..|steps| - 1]);
      if qmax > 0 {
        StepQueue(d, steps[|steps| - 1], false, 0);
      } else {
        NoQueues(d, steps[|steps| - 1]);
      }
    }
  }

  lemma {:induction false} NoQueues(d: Dev, st: Step)
    requires Inv(d) && |d.h2c| == 0
    ensures SameDevice(d, Apply(d, st))
  {
    hide SideOk, SameModes;
  }

  /** What was added and started before the last step. */
  lemma {:induction false} Earlier(qmax: nat, stEn: bool, mmEn: bool, steps: seq<Step>, a: nat, c2h: bool, i: nat, st: bool)
    requires qmax <= IDX_INVALID && a + 1 < |steps| && i < qmax
    ensures var h, before, last := if c2h then i + qmax else i, steps[..|steps| - 1], steps[|steps| - 1];
            && (AddedSince(qmax, stEn, mmEn, steps, a, c2h, i, st) <==>
                  AddedSince(qmax, stEn, mmEn, before, a, c2h, i, st) && last != RemoveStep(h))
            && (StartedSince(qmax, stEn, mmEn, steps, a, c2h, i) <==>
                  StartedSince(qmax, stEn, mmEn, before, a, c2h, i) && last != RemoveStep(h) && last != StopStep(h))
  {
    hide Exec, Add;
    var before := steps[..|steps| - 1];
    assert before[..a] == steps[..a] && before[a] == steps[a];
  }

  /** MAIN RESULT on modes.  In every reachable state a queue is handed out if and only if
      some call added it and none removed it since, and its mode is the one that call asked
      for; it runs if and only if, while it was handed out, some call started it and none
      stopped or removed it since.  The modes of the device never change. */
  lemma {:induction false} QueueIsAsAdded(qmax: nat, stEn: bool, mmEn: bool, steps: seq<Step>, c2h: bool, i: nat)
    requires qmax <= IDX_INVALID && i < qmax
    ensures var d := Exec(qmax, stEn, mmEn, steps);
            var q := Own(d, c2h)[i];
            && d.stEn == stEn && d.mmEn == mmEn
            && (forall st :: q.enabled && q.st == st <==> Added(qmax, stEn, mmEn, steps, c2h, i, st))
            && (q.online <==> Started(qmax, stEn, mmEn, steps, c2h, i))
  {
    hide Inv, Exec, Apply, AddedSince, StartedSince, Added, Started;
    ExecModes(qmax, stEn, mmEn, steps);
    if |steps| == 0 {
      FreshQueue(qmax, stEn, mmEn, steps, c2h, i);
    } else {
      var n := |steps| - 1;
      var before := steps[..n];
      var d := Exec(qmax, stEn, mmEn, before);
      QueueIsAsAdded(qmax, stEn, mmEn, before, c2h, i);
      ReachableStatesAreSound(qmax, stEn, mmEn, before);
      var h := if c2h then i + qmax else i;
      LastStep(qmax, stEn, mmEn, steps, c2h, i);
      ExecModes(qmax, stEn, mmEn, before);
      StepQueue(d, steps[n], c2h, i);
      forall st
        ensures Added(qmax, stEn, mmEn, steps, c2h, i, st) <==>
                (Own(d, c2h)[i].enabled && Own(d, c2h)[i].st == st && steps[n] != RemoveStep(h))
                || AddedSince(qmax, stEn, mmEn, steps, n, c2h, i, st)
      {
        AddedBefore(qmax, stEn, mmEn, steps, c2h, i, st);
      }
      StartedBefore(qmax, stEn, mmEn, steps, c2h, i);
    }
  }

  lemma {:induction false} AddedBefore(qmax: nat, stEn: bool, mmEn: bool, steps: seq<Step>, c2h: bool, i: nat, st: bool)
    requires qmax <= IDX_INVALID && i < qmax && |steps| > 0
    ensures var n := |steps| - 1;
            Added(qmax, stEn, mmEn, steps, c2h, i, st) <==>
            (Added(qmax, stEn, mmEn, steps[..n], c2h, i, st) && steps[n] != RemoveStep(if c2h then i + qmax else i))
            || AddedSince(qmax, stEn, mmEn, steps, n, c2h, i, st)
  {
    hide AddedSince, StartedSince;
    var n, h := |steps| - 1, if c2h then i + qmax else i;
    forall a | 0 <= a < n
      ensures AddedSince(qmax, stEn, mmEn, steps, a, c2h, i, st) <==>
              AddedSince(qmax, stEn, mmEn, steps[..n], a, c2h, i, st) && steps[n] != RemoveStep(h)
    {
      Earlier(qmax, stEn, mmEn, steps, a, c2h, i, st);
    }
  }

  lemma {:induction false} StartedBefore(qmax: nat, stEn: bool, mmEn: bool, steps: seq<Step>, c2h: bool, i: nat)
    requires qmax <= IDX_INVALID && i < qmax && |steps| > 0
    ensures var n, h := |steps| - 1, if c2h then i + qmax else i;
            Started(qmax, stEn, mmEn, steps, c2h, i) <==>
            (Started(qmax, stEn, mmEn, steps[..n], c2h, i) && steps[n] != RemoveStep(h) && steps[n] != StopStep(h))
            || StartedSince(qmax, stEn, mmEn, steps, n, c2h, i)
  {
    hide AddedSince, StartedSince;
    var n, h := |steps| - 1, if c2h then i + qmax else i;
    forall a | 0 <= a < n
      ensures StartedSince(qmax, stEn, mmEn, steps, a, c2h, i) <==>
              StartedSince(qmax, stEn, mmEn, steps[..n], a, c2h, i) && steps[n] != RemoveStep(h) && steps[n] != StopStep(h)
    {
      Earlier(qmax, stEn, mmEn, steps, a, c2h, i, false);
    }
  }

  /** The last step of a run. */
  lemma {:induction false} LastStep(qmax: nat, stEn: bool, mmEn: bool, steps: seq<Step>, c2h: bool, i: nat)
    requires qmax <= IDX_INVALID && i < qmax && |steps| > 0
    ensures var n := |steps| - 1;
            var d, last := Exec(qmax, stEn, mmEn, steps[..n]), steps[n];
            && Exec(qmax, stEn, mmEn, steps) == Apply(d, last)
            && (forall st :: AddedSince(qmax, stEn, mmEn, steps, n, c2h, i, st) <==>
                  last.AddStep? && last.conf.c2h == c2h && last.conf.st == st
                  && Add(d, last.conf).rv == 0 && Add(d, last.conf).qidx == i)
            && (StartedSince(qmax, stEn, mmEn, steps, n, c2h, i) <==>
                  last.StartStep? && last.id == (if c2h then i + qmax else i) && last.alloc >= 0 && last.prog >= 0
                  && Own(d, c2h)[i].enabled)
  {
    hide Apply, Add;
  }

  lemma {:induction false} FreshQueue(qmax: nat, stEn: bool, mmEn: bool, steps: seq<Step>, c2h: bool, i: nat)
    requires qmax <= IDX_INVALID && i < qmax && |steps| == 0
    ensures var d := Exec(qmax, stEn, mmEn, steps); !Own(d, c2h)[i].enabled && !Own(d, c2h)[i].online
    ensures !Started(qmax, stEn, mmEn, steps, c2h, i) && forall st :: !Added(qmax, stEn, mmEn, steps, c2h, i, st)
  {
    hide Apply;
  }
}
