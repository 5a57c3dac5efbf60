/** The queues of a device in the driver's own arrays (libqdma/libqdma_export.c,
    libqdma/qdma_device.c).  Every method is proved to take the device from one state of
    `QueueAllocator` to the state that module computes. */
module QueueDevice {
  import opened QueueAllocator

  /** `struct qdma_dev` with its queue arrays. */
  class Device {
    const h2cDescq: array<Queue>
    const c2hDescq: array<Queue>
    const stModeEn: bool
    const mmModeEn: bool
    var h2cQcnt: int
    var c2hQcnt: int

    ghost function View(): Dev
      reads this, h2cDescq, c2hDescq
    {
      Dev(h2cDescq[..], c2hDescq[..], h2cQcnt, c2hQcnt, stModeEn, mmModeEn)
    }

    ghost predicate Valid()
      reads this, h2cDescq, c2hDescq
    {
      h2cDescq != c2hDescq && Paired(View())
    }

    /** `qdma_device_init` */
    constructor (qmax: nat, stEn: bool, mmEn: bool)
      requires qmax <= IDX_INVALID
      ensures Valid() && View() == Fresh(qmax, stEn, mmEn)
      ensures fresh(h2cDescq) && fresh(c2hDescq)
    {
      h2cDescq := new Queue[qmax](i requires 0 <= i < qmax => Queue(false, false, false, false, false, i));
      c2hDescq := new Queue[qmax](i requires 0 <= i < qmax => Queue(false, false, false, false, false, i));
      stModeEn, mmModeEn := stEn, mmEn;
      h2cQcnt, c2hQcnt := 0, 0;
      new;
      assert h2cDescq[..] == Fresh(qmax, stEn, mmEn).h2c && c2hDescq[..] == Fresh(qmax, stEn, mmEn).c2h;
    }

    /** The array of one direction. */
    function Side(c2h: bool): (a: array<Queue>)
      ensures a == if c2h then c2hDescq else h2cDescq
    {
      if c2h then c2hDescq else h2cDescq
    }

    method Count(c2h: bool, delta: int)
      modifies this
      ensures View() == With(old(View()), c2h, Own(old(View()), c2h), Qcnt(old(View()), c2h) + delta)
    {
      if c2h {
        c2hQcnt := c2hQcnt + delta;
      } else {
        h2cQcnt := h2cQcnt + delta;
      }
    }

    method SetQueue(c2h: bool, i: nat, q: Queue)
      requires Valid() && i < h2cDescq.Length
      modifies h2cDescq, c2hDescq
      ensures Valid()
      ensures View() == With(old(View()), c2h, Own(old(View()), c2h)[i := q], Qcnt(old(View()), c2h))
    {
      var descq := Side(c2h);
      descq[i] := q;
    }

    /** The scan of `qdma_queue_add` for a queue to hand out. */
    method ScanFree(c2h: bool, st: bool) returns (i: nat)
      requires Valid()
      ensures i == FirstFit(Own(View(), c2h), Own(View(), !c2h), st, 0)
    {
      var descq, pairq, qmax := Side(c2h), Side(!c2h), h2cDescq.Length;
      i := 0;
      while i < qmax
        invariant i <= qmax
        invariant FirstFit(descq[..], pairq[..], st, 0) == FirstFit(descq[..], pairq[..], st, i)
      {
        if pairq[i].enabled && st != pairq[i].st {
          i := i + 1;
          continue;
        }
        if descq[i].enabled {
          i := i + 1;
          continue;
        }
        break;
      }
    }

    /** `qdma_queue_add` */
    method QueueAdd(conf: Conf) returns (rv: int, handle: nat, qidx: nat)
      requires Valid()
      modifies this, h2cDescq, c2hDescq
      ensures Valid() && AddResult(View(), rv, handle, qidx) == Add(old(View()), conf)
    {
      hide FirstFit;
      ghost var d := View();
      var qmax := h2cDescq.Length;
      rv, handle, qidx := 0, IDX_INVALID, conf.qidx;
      if (conf.st && !stModeEn) || (!conf.st && !mmModeEn) {
        return ERR_INTERFACE_NOT_ENABLED, handle, qidx;
      }
      if conf.qidx != IDX_INVALID && conf.qidx >= qmax {
        return ERR_INVALID_QIDX, handle, qidx;
      }
      var qcnt := if conf.c2h then c2hQcnt else h2cQcnt;
      if qcnt >= qmax {
        return ERR_DESCQ_FULL, handle, qidx;
      }
      Count(conf.c2h, 1);
      var i := conf.qidx;
      if conf.qidx == IDX_INVALID {
        i := ScanFree(conf.c2h, conf.st);
        rv := if i == qmax then ERR_DESCQ_FULL else 0;
      } else if Side(!conf.c2h)[i].enabled && conf.st != Side(!conf.c2h)[i].st {
        rv := EINVAL;
      } else if Side(conf.c2h)[i].enabled {
        rv := ERR_IDX_ALREADY_ADDED;
      }
      if rv < 0 {
        Count(conf.c2h, -1);
        return;
      }
      SetQueue(conf.c2h, i, Side(conf.c2h)[i].(enabled := true, st := conf.st, c2h := conf.c2h, qidx := i));
      qidx := i;
      handle := i;
      if conf.c2h {
        handle := handle + qmax;
      }
    }

    /** `qdma_device_get_descq_by_id` */
    method GetDescqById(id: nat, live: bool) returns (r: Found)
      requires Valid()
      ensures r == Lookup(View(), id, live)
    {
      var qmax, i, c2h := h2cDescq.Length, id, false;
      if i >= qmax {
        i := i - qmax;
        if i >= qmax {
          return NotFound;
        }
        c2h := true;
      }
      if live && !Side(c2h)[i].enabled {
        return NotFound;
      }
      return Found(c2h, i);
    }

    /** `qdma_queue_remove` */
    method QueueRemove(id: nat) returns (rv: int)
      requires Valid()
      modifies this, h2cDescq, c2hDescq
      ensures Valid() && OpResult(View(), rv) == Remove(old(View()), id)
    {
      hide Lookup;
      var r := GetDescqById(id, true);
      if r.NotFound? {
        return ERR_INVALID_QIDX;
      }
      var q := Side(r.c2h)[r.idx];
      SetQueue(r.c2h, r.idx, q.(inited := false, online := false));
      q := Side(r.c2h)[r.idx];
      SetQueue(r.c2h, r.idx, q.(enabled := false));
      Count(q.c2h, -1);
      rv := 0;
    }

    /** `qdma_queue_start`; `alloc` and `prog` are the results of allocating the rings and
        of programming the contexts. */
    method QueueStart(id: nat, alloc: int, prog: int) returns (rv: int)
      requires Valid()
      modifies h2cDescq, c2hDescq
      ensures Valid() && OpResult(View(), rv) == Start(old(View()), id, alloc, prog)
    {
      hide Lookup;
      var r := GetDescqById(id, true);
      if r.NotFound? {
        return ERR_INVALID_QIDX;
      }
      var q := Side(r.c2h)[r.idx];
      if q.inited || q.online {
        return ERR_INVALID_DESCQ_STATE;
      }
      SetQueue(r.c2h, r.idx, q.(inited := true));
      rv := if alloc < 0 then alloc else if prog < 0 then prog else 0;
      if rv < 0 {
        SetQueue(r.c2h, r.idx, q.(inited := false));
      } else {
        SetQueue(r.c2h, r.idx, q.(inited := true, online := true));
      }
    }

    /** `qdma_queue_stop` */
    method QueueStop(id: nat) returns (rv: int)
      requires Valid()
      modifies h2cDescq, c2hDescq
      ensures Valid() && OpResult(View(), rv) == Stop(old(View()), id)
    {
      hide Lookup;
      var r := GetDescqById(id, true);
      if r.NotFound? {
        return ERR_INVALID_QIDX;
      }
      SetQueue(r.c2h, r.idx, Side(r.c2h)[r.idx].(online := false, inited := false));
      rv := 0;
    }
  }
}
