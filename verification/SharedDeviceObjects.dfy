/** The module's table of queues and its character devices as mutable objects
    (drv/qdma_mod.c, drv/cdev.c): two entries of the table may hold the same device.
    Every method is proved to compute the functions of `SharedDevice`. */
module SharedDeviceObjects {
  import opened QueueAllocator
  import opened QueueDevice
  import Sh = SharedDevice

  /** `struct qdma_cdev` */
  class CharDevice {
    const minor: nat
    var dirInit: bv8
    var h2cQhndl: nat
    var c2hQhndl: nat
    var destroyed: nat

    ghost function View(): Sh.Cdev
      reads this
    {
      Sh.Cdev(minor, dirInit, h2cQhndl, c2hQhndl, destroyed)
    }

    /** `qdma_cdev_create` */
    constructor (c2h: bool, qidx: nat, qhndl: nat)
      ensures View() == Sh.Created(c2h, qidx, qhndl)
    {
      minor, dirInit, destroyed := qidx, Sh.Bit(c2h), 0;
      h2cQhndl, c2hQhndl := if c2h then 0 else qhndl, if c2h then qhndl else 0;
    }

    /** `qdma_cdev_destroy` */
    method Destroy()
      modifies this`destroyed
      ensures View() == Sh.Destroyed(old(View()))
    {
      destroyed := destroyed + 1;
    }

    /** A direction is added (in `xpdev_queue_add`). */
    method Join(c2h: bool, qhndl: nat)
      modifies this
      ensures View() == Sh.Joined(old(View()), c2h, qhndl)
    {
      if c2h {
        c2hQhndl := qhndl;
      } else {
        h2cQhndl := qhndl;
      }
      dirInit := dirInit | Sh.Bit(c2h);
    }

    /** A direction leaves (in `xpdev_queue_delete`). */
    method Leave(c2h: bool)
      modifies this
      ensures View() == Sh.Left(old(View()), c2h)
    {
      dirInit := dirInit & !Sh.Bit(c2h);
      if dirInit == 0 {
        Destroy();
      }
    }

    /** One turn of the loop of `xpdev_device_cleanup`. */
    method Clean()
      modifies this
      ensures View() == Sh.Cleaned(old(View()))
    {
      if dirInit == 1 || dirInit == 2 {
        Destroy();
      } else {
        dirInit := dirInit >> 1;
      }
    }
  }

  lemma {:induction false} FailedAddKeeps(d: Dev, conf: Conf)
    requires Paired(d)
    ensures Add(d, conf).rv < 0 ==> Add(d, conf).dev == d
  {
  }

  /** `struct xlnx_qdata` */
  datatype QData = QData(qhndl: nat, xcdev: CharDevice?)

  /** `struct xlnx_pci_dev` */
  class XpDev {
    const lib: Device
    const qmax: nat
    const qdata: array<QData>
    /** Every character device ever created, in order. */
    ghost var objs: seq<CharDevice>
    ghost var model: Sh.Module

    /** An entry of the table shows its model. */
    ghost predicate EntryShows(q: QData, v: Sh.QData)
      reads this
    {
      && q.qhndl == v.qhndl && v.xcdev < |objs|
      && q.xcdev == (if v.xcdev >= 0 then objs[v.xcdev] else null)
    }

    ghost predicate TableOk()
      reads this, qdata
    {
      && qdata.Length == |model.qdata|
      && forall s :: 0 <= s < qdata.Length ==> EntryShows(qdata[s], model.qdata[s])
    }

    ghost predicate CdevsOk()
      reads this, objs
    {
      && |objs| == |model.cdevs|
      && (forall k, l :: 0 <= k < l < |objs| ==> objs[k] != objs[l])
      && (forall k :: 0 <= k < |objs| ==> objs[k].View() == model.cdevs[k])
    }

    ghost predicate Valid()
      reads this, lib, lib.h2cDescq, lib.c2hDescq, qdata, objs
    {
      && lib.Valid() && lib.View() == model.dev && qmax == lib.h2cDescq.Length
      && Sh.Linked(model) && TableOk() && CdevsOk()
    }

    constructor (qmax: nat, stEn: bool, mmEn: bool)
      requires qmax <= IDX_INVALID
      ensures Valid()
      ensures model == Sh.Module(Fresh(qmax, stEn, mmEn), seq(2 * qmax, _ => Sh.EMPTY), [])
    {
      this.qmax := qmax;
      lib := new Device(qmax, stEn, mmEn);
      qdata := new QData[2 * qmax](_ => QData(0, null));
      objs := [];
      model := Sh.Module(Fresh(qmax, stEn, mmEn), seq(2 * qmax, _ => Sh.EMPTY), []);
    }

    /** `xpdev_queue_get`, without the check for a configured queue. */
    function Slot(qidx: nat, c2h: bool): nat
    {
      if c2h then qidx + qmax else qidx
    }

    /** `xpdev_queue_add` */
    method QueueAdd(conf: Conf) returns (rv: int)
      requires Valid()
      modifies this, lib, lib.h2cDescq, lib.c2hDescq, qdata, objs
      ensures Valid() && Sh.Result(model, rv) == Sh.QueueAdd(old(model), conf)
    {
      hide Add, Sh.Joined, Sh.Created;
      FailedAddKeeps(model.dev, conf);
      var qhndl, qidx;
      rv, qhndl, qidx := lib.QueueAdd(conf);
      model := model.(dev := lib.View());
      if rv < 0 {
        return;
      }
      if qidx >= qmax {
        return;
      }
      rv := Attach(Slot(qidx, conf.c2h), Slot(qidx, !conf.c2h), conf.c2h, qidx, qhndl);
    }

    /** The new queue shares the device of the other direction, or gets its own. */
    method Attach(at: nat, other: nat, c2h: bool, qidx: nat, qhndl: nat) returns (rv: int)
      requires Valid() && at < qdata.Length && other < qdata.Length
      modifies this`objs, this`model, qdata, objs
      ensures Valid() && rv == 0
      ensures var m, k := old(model), old(model).qdata[other].xcdev;
              model == if k >= 0 then m.(qdata := m.qdata[at := Sh.QData(qhndl, k)],
                                         cdevs := m.cdevs[k := Sh.Joined(m.cdevs[k], c2h, qhndl)])
                       else m.(qdata := m.qdata[at := Sh.QData(qhndl, |m.cdevs|)],
                               cdevs := m.cdevs + [Sh.Created(c2h, qidx, qhndl)])
    {
      ghost var m, k := model, model.qdata[other].xcdev;
      assert EntryShows(qdata[other], m.qdata[other]);
      var c := qdata[other].xcdev;
      if c != null {
        c.Join(c2h, qhndl);
        qdata[at] := QData(qhndl, c);
        model := m.(qdata := m.qdata[at := Sh.QData(qhndl, k)],
                    cdevs := m.cdevs[k := Sh.Joined(m.cdevs[k], c2h, qhndl)]);
      } else {
        c := new CharDevice(c2h, qidx, qhndl);
        qdata[at] := QData(qhndl, c);
        objs := objs + [c];
        model := m.(qdata := m.qdata[at := Sh.QData(qhndl, |m.cdevs|)],
                    cdevs := m.cdevs + [Sh.Created(c2h, qidx, qhndl)]);
      }
      rv := 0;
    }

    /** `xpdev_queue_delete` */
    method QueueDelete(qidx: nat, c2h: bool) returns (rv: int)
      requires Valid()
      modifies this, lib, lib.h2cDescq, lib.c2hDescq, qdata, objs
      ensures Valid() && Sh.Result(model, rv) == Sh.QueueDelete(old(model), qidx, c2h)
    {
      hide Remove, Sh.Left;
      ghost var m := model;
      if qidx >= qmax {
        return EINVAL;
      }
      var at := Slot(qidx, c2h);
      assert EntryShows(qdata[at], m.qdata[at]);
      var q := qdata[at];
      if q.qhndl == 0 && q.xcdev == null {
        return EINVAL;
      }
      q.xcdev.Leave(c2h);
      rv := 0;
      if q.qhndl != IDX_INVALID {
        rv := lib.QueueRemove(q.qhndl);
      }
      qdata[at] := QData(0, null);
      model := Sh.QueueDelete(m, qidx, c2h).m;
    }

    /** One entry of the table is cleaned up. */
    method CleanEntry(s: nat)
      requires Valid() && s < qdata.Length
      modifies this`model, qdata, objs
      ensures Valid()
      ensures var m, k := old(model), old(model).qdata[s].xcdev;
              model == Sh.Module(m.dev, m.qdata[s := Sh.EMPTY],
                                 if k >= 0 then m.cdevs[k := Sh.Cleaned(m.cdevs[k])] else m.cdevs)
    {
      hide Sh.Cleaned;
      ghost var m, k := model, model.qdata[s].xcdev;
      assert EntryShows(qdata[s], m.qdata[s]);
      if qdata[s].xcdev != null {
        qdata[s].xcdev.Clean();
      }
      qdata[s] := QData(0, null);
      model := Sh.Module(m.dev, m.qdata[s := Sh.EMPTY], if k >= 0 then m.cdevs[k := Sh.Cleaned(m.cdevs[k])] else m.cdevs);
    }

    /** `xpdev_device_cleanup` */
    method DeviceCleanup()
      requires Valid()
      modifies this`model, qdata, objs
      ensures Valid() && model == Sh.Cleanup(old(model), 0)
    {
      hide Sh.Cleaned;
      var s := 0;
      while s < qdata.Length
        invariant s <= qdata.Length && Valid() && objs == old(objs)
        invariant Sh.Cleanup(model, s) == Sh.Cleanup(old(model), 0)
      {
        CleanEntry(s);
        s := s + 1;
      }
    }
  }
}
