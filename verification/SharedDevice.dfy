/** One character device shared by the two directions of a queue pair (drv/qdma_mod.c,
    drv/cdev.c), on top of the queue allocator, as functions on values.
    `SharedDeviceObjects` has the same operations on the module's own objects. */
module SharedDevice {
  import opened QueueAllocator

  /** A character device (`struct qdma_cdev`); `destroyed` counts its destructions. */
  datatype Cdev = Cdev(minor: nat, dirInit: bv8, h2cQhndl: nat, c2hQhndl: nat, destroyed: nat)

  /** What the module keeps of a queue (`struct xlnx_qdata`): its handle, and its character
      device, a position in the list of all devices ever created, or -1. */
  datatype QData = QData(qhndl: nat, xcdev: int)

  const EMPTY := QData(0, -1)

  /** The queues, the table with one entry per queue, and all devices ever created. */
  datatype Module = Module(dev: Dev, qdata: seq<QData>, cdevs: seq<Cdev>)

  datatype Result = Result(m: Module, rv: int)

  /** What the code relies on: an entry in use has a device. */
  predicate Linked(m: Module)
  {
    && Paired(m.dev) && |m.qdata| == 2 * |m.dev.h2c|
    && forall s :: 0 <= s < |m.qdata| ==>
         m.qdata[s].xcdev < |m.cdevs| && (m.qdata[s].xcdev < 0 ==> m.qdata[s] == EMPTY)
  }

  /** The bit of a direction in `dir_init`. */
  function Bit(c2h: bool): bv8
  {
    if c2h then 2 else 1
  }

  /** `qdma_cdev_create`; registering the device is taken to succeed. */
  function Created(c2h: bool, qidx: nat, qhndl: nat): Cdev
  {
    Cdev(qidx, Bit(c2h), if c2h then 0 else qhndl, if c2h then qhndl else 0, 0)
  }

  /** `qdma_cdev_destroy` */
  function Destroyed(c: Cdev): Cdev
  {
    c.(destroyed := c.destroyed + 1)
  }

  /** A direction joins an existing device. */
  function Joined(c: Cdev, c2h: bool, handle: nat): Cdev
  {
    if c2h then c.(c2hQhndl := handle, dirInit := c.dirInit | Bit(true))
    else c.(h2cQhndl := handle, dirInit := c.dirInit | Bit(false))
  }

  /** `xpdev_queue_add` */
  function QueueAdd(m: Module, conf: Conf): (r: Result)
    requires Linked(m)
    ensures Linked(r.m) && |r.m.qdata| == |m.qdata|
  {
    var a := Add(m.dev, conf);
    if a.rv < 0 then Result(m, a.rv)
    else if a.qidx >= |m.dev.h2c| then Result(m.(dev := a.dev), a.rv)
    else
      var at, other := HandleOf(m.dev, conf.c2h, a.qidx), HandleOf(m.dev, !conf.c2h, a.qidx);
      var k := m.qdata[other].xcdev;
      if k >= 0 then
        Result(Module(a.dev, m.qdata[at := QData(a.handle, k)],
                      m.cdevs[k := Joined(m.cdevs[k], conf.c2h, a.handle)]), 0)
      else
        Result(Module(a.dev, m.qdata[at := QData(a.handle, |m.cdevs|)],
                      m.cdevs + [Created(conf.c2h, a.qidx, a.handle)]), 0)
  }

  /** A direction leaves its device; the last one destroys it. */
  function Left(c: Cdev, c2h: bool): Cdev
  {
    var c' := c.(dirInit := c.dirInit & !Bit(c2h));
    if c'.dirInit == 0 then Destroyed(c') else c'
  }

  /** `xpdev_queue_delete` */
  function QueueDelete(m: Module, qidx: nat, c2h: bool): (r: Result)
    requires Linked(m)
    ensures Linked(r.m) && |r.m.qdata| == |m.qdata|
  {
    if qidx >= |m.dev.h2c| || m.qdata[HandleOf(m.dev, c2h, qidx)] == EMPTY then Result(m, EINVAL)
    else
      var at := HandleOf(m.dev, c2h, qidx);
      var q := m.qdata[at];
      var rem := if q.qhndl != IDX_INVALID then Remove(m.dev, q.qhndl) else OpResult(m.dev, 0);
      Result(Module(rem.dev, m.qdata[at := EMPTY], m.cdevs[q.xcdev := Left(m.cdevs[q.xcdev], c2h)]), rem.rv)
  }

  /** One turn of `xpdev_device_cleanup`. */
  function Cleaned(c: Cdev): Cdev
  {
    if c.dirInit == 1 || c.dirInit == 2 then Destroyed(c) else c.(dirInit := c.dirInit >> 1)
  }

  /** `xpdev_device_cleanup` from entry `s` on. */
  function Cleanup(m: Module, s: nat): (m': Module)
    requires Linked(m) && s <= |m.qdata|
    ensures Linked(m') && |m'.qdata| == |m.qdata| && |m'.cdevs| == |m.cdevs| && m'.dev == m.dev
    decreases |m.qdata| - s
  {
    if s == |m.qdata| then m
    else
      var k := m.qdata[s].xcdev;
      Cleanup(Module(m.dev, m.qdata[s := EMPTY], if k >= 0 then m.cdevs[k := Cleaned(m.cdevs[k])] else m.cdevs), s + 1)
  }

  /* ---- what every operation keeps ---- */

  /** An entry is in use exactly if its queue is handed out; it then holds the queue's
      handle and an existing device of its own pair. */
  predicate EntryOk(enabled: bool, q: QData, handle: nat, i: nat, cdevs: seq<Cdev>)
  {
    if enabled
    then q.qhndl == handle && 0 <= q.xcdev < |cdevs| && cdevs[q.xcdev].minor == i && cdevs[q.xcdev].destroyed == 0
    else q == EMPTY
  }

  /** The directions marked in the device of a pair are those that are handed out, and
      both directions have the same device. */
  predicate PairOk(hOn: bool, cOn: bool, h: QData, c: QData, i: nat, qmax: nat, cdevs: seq<Cdev>)
  {
    && EntryOk(hOn, h, i, i, cdevs) && EntryOk(cOn, c, i + qmax, i, cdevs)
    && (hOn && cOn ==> h.xcdev == c.xcdev)
    && (hOn ==> cdevs[h.xcdev].dirInit == (if cOn then 3 else 1) && cdevs[h.xcdev].h2cQhndl == i)
    && (cOn ==> cdevs[c.xcdev].dirInit == (if hOn then 3 else 2) && cdevs[c.xcdev].c2hQhndl == i + qmax)
  }

  predicate PairsOk(m: Module)
    requires Linked(m)
  {
    forall i :: 0 <= i < |m.dev.h2c| ==>
      PairOk(m.dev.h2c[i].enabled, m.dev.c2h[i].enabled, m.qdata[i], m.qdata[i + |m.dev.h2c|], i, |m.dev.h2c|, m.cdevs)
  }

  /** Some entry refers to device `k` of pair `i`. */
  predicate InUse(m: Module, k: nat, i: nat)
    requires Linked(m) && i < |m.dev.h2c|
  {
    m.qdata[i].xcdev == k || m.qdata[i + |m.dev.h2c|].xcdev == k
  }

  /** A device is destroyed once as soon as no entry refers to it, and not before. */
  predicate CdevOk(m: Module, k: nat)
    requires Linked(m) && k < |m.cdevs|
  {
    var c := m.cdevs[k];
    c.minor < |m.dev.h2c| && c.destroyed == if InUse(m, k, c.minor) then 0 else 1
  }

  predicate CdevsOk(m: Module)
    requires Linked(m)
  {
    forall k :: 0 <= k < |m.cdevs| ==> CdevOk(m, k)
  }

  predicate Good(m: Module)
  {
    Linked(m) && Inv(m.dev) && |m.qdata| <= IDX_INVALID && PairsOk(m) && CdevsOk(m)
  }

  /** Only pair `i` and one device of that pair have changed. */
  predicate OnlyPair(m: Module, m': Module, i: nat, k: nat)
    requires Linked(m) && Linked(m')
  {
    && |m'.dev.h2c| == |m.dev.h2c|
    && (forall j :: 0 <= j < |m.dev.h2c| && j != i ==> m'.dev.h2c[j] == m.dev.h2c[j])
    && (forall j :: 0 <= j < |m.dev.h2c| && j != i ==> m'.dev.c2h[j] == m.dev.c2h[j])
    && (forall s :: 0 <= s < |m.qdata| && s != i && s != i + |m.dev.h2c| ==> m'.qdata[s] == m.qdata[s])
    && OnlyCdev(m.cdevs, m'.cdevs, i, k)
  }

  /** Only device `k`, of pair `i`, has changed or is new. */
  predicate OnlyCdev(cdevs: seq<Cdev>, cdevs': seq<Cdev>, i: nat, k: nat)
  {
    && |cdevs| <= |cdevs'| <= |cdevs| + 1 && (|cdevs'| > |cdevs| ==> k == |cdevs|)
    && (forall l :: 0 <= l < |cdevs| && l != k ==> cdevs'[l] == cdevs[l])
    && (k < |cdevs| ==> cdevs[k].minor == i) && (k < |cdevs'| ==> cdevs'[k].minor == i)
  }

  lemma {:induction false} PairFrame(hOn: bool, cOn: bool, h: QData, c: QData, j: nat, qmax: nat,
                                     cdevs: seq<Cdev>, cdevs': seq<Cdev>, i: nat, k: nat)
    requires PairOk(hOn, cOn, h, c, j, qmax, cdevs) && OnlyCdev(cdevs, cdevs', i, k) && i != j
    ensures PairOk(hOn, cOn, h, c, j, qmax, cdevs')
  {
  }

  /** The other pairs are as good as before. */
  lemma {:induction false} PairsFrame(m: Module, m': Module, i: nat, k: nat)
    requires Linked(m) && Linked(m') && OnlyPair(m, m', i, k) && PairsOk(m) && i < |m.dev.h2c|
    requires PairOk(m'.dev.h2c[i].enabled, m'.dev.c2h[i].enabled, m'.qdata[i], m'.qdata[i + |m.dev.h2c|], i, |m.dev.h2c|, m'.cdevs)
    ensures PairsOk(m')
  {
    hide PairOk;
    forall j | 0 <= j < |m.dev.h2c| && j != i
      ensures PairOk(m'.dev.h2c[j].enabled, m'.dev.c2h[j].enabled, m'.qdata[j], m'.qdata[j + |m.dev.h2c|], j, |m.dev.h2c|, m'.cdevs)
    {
      PairFrame(m.dev.h2c[j].enabled, m.dev.c2h[j].enabled, m.qdata[j], m.qdata[j + |m.dev.h2c|], j, |m.dev.h2c|,
                m.cdevs, m'.cdevs, i, k);
    }
  }

  /** No other device is referred to more or less than before. */
  lemma {:induction false} CdevsFrame(m: Module, m': Module, i: nat, k: nat)
    requires Linked(m) && Linked(m') && OnlyPair(m, m', i, k) && CdevsOk(m) && i < |m.dev.h2c|
    requires forall l :: 0 <= l < |m.cdevs| && l != k ==> (InUse(m', l, i) <==> InUse(m, l, i))
    requires k < |m'.cdevs| ==> CdevOk(m', k)
    ensures CdevsOk(m')
  {
    forall l | 0 <= l < |m'.cdevs| && l != k ensures CdevOk(m', l) {
      assert CdevOk(m, l);
    }
  }

  /** The new state of the one pair that a call touches. */
  predicate PairAt(m: Module, i: nat)
    requires Linked(m) && i < |m.dev.h2c|
  {
    PairOk(m.dev.h2c[i].enabled, m.dev.c2h[i].enabled, m.qdata[i], m.qdata[i + |m.dev.h2c|], i, |m.dev.h2c|, m.cdevs)
  }

  lemma {:induction false} GoodFrame(m: Module, m': Module, i: nat, k: nat)
    requires Good(m) && Linked(m') && Inv(m'.dev) && OnlyPair(m, m', i, k) && i < |m.dev.h2c|
    requires PairAt(m', i) && (k < |m'.cdevs| ==> CdevOk(m', k))
    requires forall l :: 0 <= l < |m.cdevs| && l != k ==> (InUse(m', l, i) <==> InUse(m, l, i))
    ensures Good(m')
  {
    hide Inv, PairOk, CdevOk, OnlyCdev, InUse;
    PairsFrame(m, m', i, k);
    CdevsFrame(m, m', i, k);
  }

  /** The device of the pair, if any, else the one about to be created. */
  function DeviceOf(m: Module, c2h: bool, i: nat): nat
    requires Linked(m) && i < |m.dev.h2c|
  {
    var k := m.qdata[HandleOf(m.dev, !c2h, i)].xcdev;
    if k >= 0 then k else |m.cdevs|
  }

  /** A successful `xpdev_queue_add`, spelled out. */
  lemma {:induction false} AddDoes(m: Module, conf: Conf)
    requires Good(m) && Add(m.dev, conf).rv == 0
    ensures var i, qmax, m' := Add(m.dev, conf).qidx, |m.dev.h2c|, QueueAdd(m, conf).m;
            && i < qmax && QueueAdd(m, conf).rv == 0 && Inv(m'.dev) && m'.dev == Add(m.dev, conf).dev
            && !Own(m.dev, conf.c2h)[i].enabled && SameBut(m.dev, m'.dev, conf.c2h, i) && Own(m'.dev, conf.c2h)[i].enabled
            && var at, k := HandleOf(m.dev, conf.c2h, i), DeviceOf(m, conf.c2h, i);
               && m'.qdata == m.qdata[at := QData(at, k)]
               && m'.cdevs == if k == |m.cdevs| then m.cdevs + [Created(conf.c2h, i, at)]
                              else m.cdevs[k := Joined(m.cdevs[k], conf.c2h, at)]
  {
    hide FirstFit, SideOk, SameModes, CdevsOk, PairsOk, Add;
    AddIs(m.dev, conf);
    AddChoice(m.dev, conf);
  }

  lemma {:induction false} JoinedPair(hOn: bool, cOn: bool, h: QData, c: QData, i: nat, qmax: nat, cdevs: seq<Cdev>, c2h: bool)
    requires PairOk(hOn, cOn, h, c, i, qmax, cdevs) && (if c2h then hOn && !cOn else cOn && !hOn)
    ensures var k, at := if c2h then h.xcdev else c.xcdev, if c2h then i + qmax else i;
            && 0 <= k < |cdevs|
            && var q, cdevs' := QData(at, k), cdevs[k := Joined(cdevs[k], c2h, at)];
               PairOk(true, true, if c2h then h else q, if c2h then q else c, i, qmax, cdevs')
  {
  }

  lemma {:induction false} CreatedPair(h: QData, c: QData, i: nat, qmax: nat, cdevs: seq<Cdev>, c2h: bool)
    requires PairOk(false, false, h, c, i, qmax, cdevs)
    ensures var at := if c2h then i + qmax else i;
            var q, cdevs' := QData(at, |cdevs|), cdevs + [Created(c2h, i, at)];
            PairOk(!c2h, c2h, if c2h then h else q, if c2h then q else c, i, qmax, cdevs')
  {
  }

  lemma {:induction false} AddFails(m: Module, conf: Conf)
    requires Linked(m) && Add(m.dev, conf).rv < 0
    ensures QueueAdd(m, conf) == Result(m, Add(m.dev, conf).rv)
  {
  }

  /** The other direction is handed out exactly if its entry has a device. */
  lemma {:induction false} OtherDirection(m: Module, c2h: bool, i: nat)
    requires Good(m) && i < |m.dev.h2c|
    ensures PairAt(m, i)
    ensures var k := m.qdata[HandleOf(m.dev, !c2h, i)].xcdev;
            && (k >= 0 <==> Own(m.dev, !c2h)[i].enabled)
            && (DeviceOf(m, c2h, i) == if k >= 0 then k else |m.cdevs|)
  {
    hide Inv, CdevsOk;
  }

  lemma {:induction false} AddPairAt(m: Module, conf: Conf, i: nat)
    requires Good(m) && Add(m.dev, conf).rv == 0 && i == Add(m.dev, conf).qidx
    ensures i < |m.dev.h2c| && |QueueAdd(m, conf).m.dev.h2c| == |m.dev.h2c| && PairAt(QueueAdd(m, conf).m, i)
  {
    hide Inv, Add, QueueAdd, Created, Joined, CdevsOk, PairsOk, PairOk, DeviceOf;
    AddDoes(m, conf);
    OtherDirection(m, conf.c2h, i);
    if Own(m.dev, !conf.c2h)[i].enabled {
      JoinedPair(m.dev.h2c[i].enabled, m.dev.c2h[i].enabled, m.qdata[i], m.qdata[i + |m.dev.h2c|], i, |m.dev.h2c|, m.cdevs, conf.c2h);
    } else {
      CreatedPair(m.qdata[i], m.qdata[i + |m.dev.h2c|], i, |m.dev.h2c|, m.cdevs, conf.c2h);
    }
  }

  /** Where the device of a pair stands. */
  lemma {:induction false} DeviceIs(m: Module, c2h: bool, i: nat)
    requires Good(m) && i < |m.dev.h2c| && !Own(m.dev, c2h)[i].enabled
    ensures var k := DeviceOf(m, c2h, i);
            && m.qdata[HandleOf(m.dev, c2h, i)] == EMPTY
            && (k < |m.cdevs| ==> m.cdevs[k].minor == i && m.cdevs[k].destroyed == 0
                                  && m.qdata[HandleOf(m.dev, !c2h, i)].xcdev == k)
            && (k == |m.cdevs| ==> m.qdata[HandleOf(m.dev, !c2h, i)] == EMPTY)
            && k <= |m.cdevs|
  {
    hide Inv, CdevsOk;
    assert PairAt(m, i);
  }

  lemma {:induction false} AddTouches(m: Module, conf: Conf, i: nat)
    requires Good(m) && Add(m.dev, conf).rv == 0 && i == Add(m.dev, conf).qidx
    ensures i < |m.dev.h2c| && OnlyPair(m, QueueAdd(m, conf).m, i, DeviceOf(m, conf.c2h, i))
  {
    hide Inv, Add, QueueAdd, DeviceOf, PairsOk, CdevsOk;
    AddDoes(m, conf);
    DeviceIs(m, conf.c2h, i);
  }

  lemma {:induction false} AddUses(m: Module, conf: Conf, i: nat)
    requires Good(m) && Add(m.dev, conf).rv == 0 && i == Add(m.dev, conf).qidx
    ensures i < |m.dev.h2c|
    ensures var m', k := QueueAdd(m, conf).m, DeviceOf(m, conf.c2h, i);
            && k < |m'.cdevs| && CdevOk(m', k) && |m'.dev.h2c| == |m.dev.h2c|
            && (forall l :: 0 <= l < |m.cdevs| && l != k ==> (InUse(m', l, i) <==> InUse(m, l, i)))
  {
    hide Inv, Add, QueueAdd, DeviceOf, PairsOk, CdevsOk;
    AddDoes(m, conf);
    DeviceIs(m, conf.c2h, i);
  }

  /** MAIN RESULT on adding.  It succeeds exactly when the queue can be added, and the queue
      is then handed out as the allocator says.  If the other direction of the pair is
      handed out, its device is shared and none is created; otherwise a device of the pair
      is created.  No other entry of the table changes, and a failed call changes nothing. */
  lemma {:induction false} AddKeeps(m: Module, conf: Conf)
    requires Good(m)
    ensures var r, a := QueueAdd(m, conf), Add(m.dev, conf);
            && Good(r.m) && r.rv == a.rv && (r.rv == 0 <==> CanAdd(m.dev, conf))
            && (r.rv != 0 ==> r.m == m)
            && (r.rv == 0 ==>
                 && a.qidx < |m.dev.h2c| && r.m.dev == a.dev
                 && var at, other := HandleOf(m.dev, conf.c2h, a.qidx), HandleOf(m.dev, !conf.c2h, a.qidx);
                    && (forall s :: 0 <= s < |m.qdata| && s != at ==> r.m.qdata[s] == m.qdata[s])
                    && r.m.qdata[at].qhndl == at
                    && (if Own(m.dev, !conf.c2h)[a.qidx].enabled
                        then r.m.qdata[at].xcdev == m.qdata[other].xcdev && |r.m.cdevs| == |m.cdevs|
                        else r.m.qdata[at].xcdev == |m.cdevs| == |r.m.cdevs| - 1
                             && r.m.cdevs[|m.cdevs|] == if conf.c2h then Cdev(a.qidx, 2, 0, at, 0) else Cdev(a.qidx, 1, at, 0, 0)))
  {
    hide Inv, PairOk, Add, QueueAdd, SameModes, OnlyPair, DeviceOf, PairsOk, CdevsOk, InUse, CdevOk, CanAdd;
    AddIs(m.dev, conf);
    var r := Add(m.dev, conf);
    if r.rv == 0 {
      AddDoes(m, conf);
      AddPairAt(m, conf, r.qidx);
      AddTouches(m, conf, r.qidx);
      AddUses(m, conf, r.qidx);
      OtherDirection(m, conf.c2h, r.qidx);
      OtherDevice(m, conf.c2h, r.qidx);
      GoodFrame(m, QueueAdd(m, conf).m, r.qidx, DeviceOf(m, conf.c2h, r.qidx));
    } else {
      AddFails(m, conf);
    }
  }

  lemma {:induction false} OtherDevice(m: Module, c2h: bool, i: nat)
    requires Good(m) && i < |m.dev.h2c|
    ensures m.qdata[HandleOf(m.dev, !c2h, i)].xcdev < |m.cdevs|
  {
    hide Inv, PairsOk, CdevsOk;
  }

  /* ---- deleting ---- */

  lemma {:induction false} RemoveDoes(d: Dev, c2h: bool, i: nat)
    requires Inv(d) && i < |d.h2c| && Own(d, c2h)[i].enabled
    ensures var r := Remove(d, HandleOf(d, c2h, i));
            && r.rv == 0 && Inv(r.dev) && SameBut(d, r.dev, c2h, i) && !Own(r.dev, c2h)[i].enabled
  {
    RemoveKeeps(d, HandleOf(d, c2h, i));
    assert QueueOk(Own(d, c2h)[i], c2h, i);
  }

  /** `xpdev_queue_delete`, spelled out. */
  lemma {:induction false} DeleteDoes(m: Module, i: nat, c2h: bool)
    requires Good(m) && i < |m.dev.h2c| && Own(m.dev, c2h)[i].enabled
    ensures var at := HandleOf(m.dev, c2h, i);
            var k, m' := m.qdata[at].xcdev, QueueDelete(m, i, c2h).m;
            && 0 <= k < |m.cdevs| && QueueDelete(m, i, c2h).rv == 0
            && m'.dev == Remove(m.dev, at).dev
            && Inv(m'.dev) && SameBut(m.dev, m'.dev, c2h, i) && !Own(m'.dev, c2h)[i].enabled
            && m'.qdata == m.qdata[at := EMPTY] && m'.cdevs == m.cdevs[k := Left(m.cdevs[k], c2h)]
            && m.cdevs[k].minor == i && m.cdevs[k].destroyed == 0
  {
    hide Inv, CdevsOk, Remove;
    RemoveDoes(m.dev, c2h, i);
    assert PairAt(m, i);
  }

  lemma {:induction false} LeftPair(hOn: bool, cOn: bool, h: QData, c: QData, i: nat, qmax: nat, cdevs: seq<Cdev>, c2h: bool)
    requires PairOk(hOn, cOn, h, c, i, qmax, cdevs) && (if c2h then cOn else hOn)
    ensures var k := if c2h then c.xcdev else h.xcdev;
            && 0 <= k < |cdevs|
            && PairOk(hOn && c2h, cOn && !c2h, if c2h then h else EMPTY, if c2h then EMPTY else c, i, qmax,
                      cdevs[k := Left(cdevs[k], c2h)])
            && (Left(cdevs[k], c2h).destroyed == if hOn && cOn then 0 else 1)
            && (hOn && cOn ==> h.xcdev == c.xcdev) && (!hOn ==> h == EMPTY) && (!cOn ==> c == EMPTY)
  {
  }

  lemma {:induction false} DeletePairAt(m: Module, i: nat, c2h: bool)
    requires Good(m) && i < |m.dev.h2c| && Own(m.dev, c2h)[i].enabled
    ensures var m', k := QueueDelete(m, i, c2h).m, m.qdata[HandleOf(m.dev, c2h, i)].xcdev;
            && |m'.dev.h2c| == |m.dev.h2c| && PairAt(m', i)
            && 0 <= k < |m'.cdevs| && CdevOk(m', k)
            && (forall l :: 0 <= l < |m.cdevs| && l != k ==> (InUse(m', l, i) <==> InUse(m, l, i)))
  {
    hide Inv, QueueDelete, Left, CdevsOk;
    DeleteDoes(m, i, c2h);
    assert PairAt(m, i);
    LeftKeeps(m.cdevs[m.qdata[HandleOf(m.dev, c2h, i)].xcdev], c2h);
    LeftPair(m.dev.h2c[i].enabled, m.dev.c2h[i].enabled, m.qdata[i], m.qdata[i + |m.dev.h2c|], i, |m.dev.h2c|, m.cdevs, c2h);
  }

  lemma {:induction false} LeftKeeps(c: Cdev, c2h: bool)
    ensures Left(c, c2h).minor == c.minor
  {
  }

  lemma {:induction false} DeleteTouches(m: Module, i: nat, c2h: bool)
    requires Good(m) && i < |m.dev.h2c| && Own(m.dev, c2h)[i].enabled
    ensures m.qdata[HandleOf(m.dev, c2h, i)].xcdev >= 0
    ensures OnlyPair(m, QueueDelete(m, i, c2h).m, i, m.qdata[HandleOf(m.dev, c2h, i)].xcdev)
  {
    hide Inv, QueueDelete, Left, PairsOk, CdevsOk;
    DeleteDoes(m, i, c2h);
    LeftKeeps(m.cdevs[m.qdata[HandleOf(m.dev, c2h, i)].xcdev], c2h);
  }

  /** Deleting succeeds exactly for queues that are handed out; it takes the queue back and
      clears its entry and no other.  Otherwise nothing changes. */
  lemma {:induction false} DeleteKeeps(m: Module, i: nat, c2h: bool)
    requires Good(m)
    ensures var r := QueueDelete(m, i, c2h);
            && Good(r.m)
            && (r.rv == 0 <==> i < |m.dev.h2c| && Own(m.dev, c2h)[i].enabled)
            && (r.rv == 0 ==>
                 && r.m.dev == Remove(m.dev, HandleOf(m.dev, c2h, i)).dev && !Own(r.m.dev, c2h)[i].enabled
                 && r.m.qdata == m.qdata[HandleOf(m.dev, c2h, i) := EMPTY] && |r.m.cdevs| == |m.cdevs|)
            && (r.rv != 0 ==> r == Result(m, EINVAL))
  {
    hide Inv, PairOk, QueueDelete, OnlyPair, PairsOk, CdevsOk, InUse, CdevOk, Remove;
    if i < |m.dev.h2c| && Own(m.dev, c2h)[i].enabled {
      DeleteDoes(m, i, c2h);
      DeletePairAt(m, i, c2h);
      DeleteTouches(m, i, c2h);
      GoodFrame(m, QueueDelete(m, i, c2h).m, i, m.qdata[HandleOf(m.dev, c2h, i)].xcdev);
    } else {
      DeleteFails(m, i, c2h);
    }
  }

  lemma {:induction false} DeleteFails(m: Module, i: nat, c2h: bool)
    requires Good(m) && !(i < |m.dev.h2c| && Own(m.dev, c2h)[i].enabled)
    ensures QueueDelete(m, i, c2h) == Result(m, EINVAL)
  {
    hide Inv, CdevsOk;
    assert i < |m.dev.h2c| ==> PairAt(m, i);
  }

  /** With more queues than handles below the invalid one, deleting can leave a queue
      behind: the queue stays handed out if and only if its handle is the invalid one. */
  lemma {:induction false} DeleteLeaksIff(m: Module, i: nat, c2h: bool)
    requires Linked(m) && i < |m.dev.h2c| && Own(m.dev, c2h)[i].enabled && Own(m.dev, c2h)[i].c2h == c2h
    requires m.qdata[HandleOf(m.dev, c2h, i)].qhndl == HandleOf(m.dev, c2h, i)
    requires m.qdata[HandleOf(m.dev, c2h, i)] != EMPTY
    ensures Own(QueueDelete(m, i, c2h).m.dev, c2h)[i].enabled <==> HandleOf(m.dev, c2h, i) == IDX_INVALID
  {
  }

  /* ---- cleaning up ---- */

  /** Number of entries that refer to device `k`. */
  function Refs(qdata: seq<QData>, qmax: nat, k: nat, i: nat): nat
    requires |qdata| == 2 * qmax && i < qmax
  {
    (if qdata[i].xcdev == k then 1 else 0) + (if qdata[i + qmax].xcdev == k then 1 else 0)
  }

  /** A device before and during the cleanup. */
  predicate Marked(c: Cdev, refs: nat)
  {
    && (refs == 2 ==> c.dirInit == 3) && (refs == 1 ==> c.dirInit == 1 || c.dirInit == 2)
    && c.destroyed == if refs == 0 then 1 else 0
  }

  /** The cleanup has reached entry `s`. */
  predicate Cleaning(m: Module, s: nat)
  {
    && Linked(m) && s <= |m.qdata|
    && (forall t :: 0 <= t < s ==> m.qdata[t] == EMPTY)
    && (forall t :: 0 <= t < |m.qdata| && m.qdata[t].xcdev >= 0 ==>
          m.cdevs[m.qdata[t].xcdev].minor == if t < |m.dev.h2c| then t else t - |m.dev.h2c|)
    && (forall k :: 0 <= k < |m.cdevs| ==>
          m.cdevs[k].minor < |m.dev.h2c| && Marked(m.cdevs[k], Refs(m.qdata, |m.dev.h2c|, k, m.cdevs[k].minor)))
  }

  lemma {:induction false} StartCleaning(m: Module)
    requires Good(m)
    ensures Cleaning(m, 0)
  {
    hide Inv;
    var qmax := |m.dev.h2c|;
    forall t | 0 <= t < |m.qdata| && m.qdata[t].xcdev >= 0
      ensures m.cdevs[m.qdata[t].xcdev].minor == if t < qmax then t else t - qmax
    {
      assert PairAt(m, if t < qmax then t else t - qmax);
    }
    forall k | 0 <= k < |m.cdevs|
      ensures m.cdevs[k].minor < qmax && Marked(m.cdevs[k], Refs(m.qdata, qmax, k, m.cdevs[k].minor))
    {
      assert CdevOk(m, k);
      assert PairAt(m, m.cdevs[k].minor);
    }
  }

  lemma {:induction false} CleanedMarked(c: Cdev, refs: nat)
    requires Marked(c, refs) && 0 < refs <= 2
    ensures Marked(Cleaned(c), refs - 1) && Cleaned(c).minor == c.minor
  {
  }

  lemma {:induction false} RefsBounds(qdata: seq<QData>, qmax: nat, k: nat, i: nat)
    requires |qdata| == 2 * qmax && i < qmax
    ensures 0 <= Refs(qdata, qmax, k, i) <= 2
  {
  }

  /** Clearing entry `s` takes one reference from the device it refers to. */
  lemma {:induction false} RefsStep(m: Module, s: nat, l: nat)
    requires Cleaning(m, s) && s < |m.qdata| && l < |m.cdevs|
    ensures var qmax, i := |m.dev.h2c|, m.cdevs[l].minor;
            i < qmax && Refs(m.qdata[s := EMPTY], qmax, l, i) ==
                        Refs(m.qdata, qmax, l, i) - if m.qdata[s].xcdev == l then 1 else 0
  {
    hide Marked;
  }

  lemma {:induction false} CleaningStep(m: Module, s: nat)
    requires Cleaning(m, s) && s < |m.qdata|
    ensures var k := m.qdata[s].xcdev;
            Cleaning(Module(m.dev, m.qdata[s := EMPTY], if k >= 0 then m.cdevs[k := Cleaned(m.cdevs[k])] else m.cdevs), s + 1)
  {
    hide Marked, Cleaned, Refs;
    var k, qmax := m.qdata[s].xcdev, |m.dev.h2c|;
    var cdevs' := if k >= 0 then m.cdevs[k := Cleaned(m.cdevs[k])] else m.cdevs;
    forall l | 0 <= l < |m.cdevs|
      ensures cdevs'[l].minor == m.cdevs[l].minor < qmax
      ensures Marked(cdevs'[l], Refs(m.qdata[s := EMPTY], qmax, l, m.cdevs[l].minor))
    {
      RefsStep(m, s, l);
      if l == k {
        RefsBounds(m.qdata[s := EMPTY], qmax, l, m.cdevs[l].minor);
        RefsBounds(m.qdata, qmax, l, m.cdevs[l].minor);
        CleanedMarked(m.cdevs[k], Refs(m.qdata, qmax, k, m.cdevs[k].minor));
      }
    }
  }

  lemma {:induction false} CleanupEnds(m: Module, s: nat)
    requires Cleaning(m, s)
    ensures Cleaning(Cleanup(m, s), |m.qdata|)
    decreases |m.qdata| - s
  {
    hide Cleaning, Cleaned;
    CleaningFacts(m, s);
    if s < |m.qdata| {
      CleaningStep(m, s);
      var k := m.qdata[s].xcdev;
      CleanupEnds(Module(m.dev, m.qdata[s := EMPTY], if k >= 0 then m.cdevs[k := Cleaned(m.cdevs[k])] else m.cdevs), s + 1);
    }
  }

  lemma {:induction false} CleaningFacts(m: Module, s: nat)
    requires Cleaning(m, s)
    ensures Linked(m) && s <= |m.qdata|
  {
  }

  /* ---- runs ---- */

  datatype Step =
    | AddQueue(conf: Conf)
    | DeleteQueue(qidx: nat, c2h: bool)
    | StartQueue(id: nat, alloc: int, prog: int)
    | StopQueue(id: nat)

  function Apply(m: Module, st: Step): (m': Module)
    requires Linked(m)
    ensures Linked(m')
  {
    match st
    case AddQueue(conf) => QueueAdd(m, conf).m
    case DeleteQueue(qidx, c2h) => QueueDelete(m, qidx, c2h).m
    case StartQueue(id, alloc, prog) => m.(dev := Start(m.dev, id, alloc, prog).dev)
    case StopQueue(id) => m.(dev := Stop(m.dev, id).dev)
  }

  function Exec(qmax: nat, stEn: bool, mmEn: bool, steps: seq<Step>): (m: Module)
    requires 2 * qmax <= IDX_INVALID
    ensures Linked(m)
  {
    if steps == [] then Module(Fresh(qmax, stEn, mmEn), seq(2 * qmax, _ => EMPTY), [])
    else Apply(Exec(qmax, stEn, mmEn, steps[..|steps| - 1]), steps[|steps| - 1])
  }

  /** Starting and stopping queues does not concern the character devices. */
  lemma {:induction false} SameHandedOut(m: Module, d: Dev)
    requires Good(m) && Inv(d) && Paired(d) && |d.h2c| == |m.dev.h2c|
    requires forall i :: 0 <= i < |d.h2c| ==> d.h2c[i].enabled == m.dev.h2c[i].enabled && d.c2h[i].enabled == m.dev.c2h[i].enabled
    ensures Good(m.(dev := d))
  {
    hide Inv, PairOk;
    var m' := m.(dev := d);
    forall i | 0 <= i < |d.h2c| ensures PairAt(m', i) {
      assert PairAt(m, i);
    }
    forall k | 0 <= k < |m.cdevs| ensures CdevOk(m', k) {
      assert CdevOk(m, k);
    }
  }

  lemma {:induction false} StartStepKeeps(m: Module, id: nat, alloc: int, prog: int)
    requires Good(m)
    ensures Good(m.(dev := Start(m.dev, id, alloc, prog).dev))
  {
    hide PairsOk, CdevsOk, SideOk, SameModes;
    StartKeeps(m.dev, id, alloc, prog);
    SameHandedOut(m, Start(m.dev, id, alloc, prog).dev);
  }

  lemma {:induction false} StopStepKeeps(m: Module, id: nat)
    requires Good(m)
    ensures Good(m.(dev := Stop(m.dev, id).dev))
  {
    hide PairsOk, CdevsOk, SideOk, SameModes;
    StopKeeps(m.dev, id);
    SameHandedOut(m, Stop(m.dev, id).dev);
  }

  lemma {:induction false} StepKeeps(m: Module, st: Step)
    requires Good(m)
    ensures Good(Apply(m, st))
  {
    hide Good, QueueAdd, QueueDelete, Start, Stop;
    match st {
      case AddQueue(conf) => AddKeeps(m, conf);
      case DeleteQueue(qidx, c2h) => DeleteKeeps(m, qidx, c2h);
      case StartQueue(id, alloc, prog) => StartStepKeeps(m, id, alloc, prog);
      case StopQueue(id) => StopStepKeeps(m, id);
    }
  }

  lemma {:induction false} RunIsGood(qmax: nat, stEn: bool, mmEn: bool, steps: seq<Step>)
    requires 2 * qmax <= IDX_INVALID
    ensures Good(Exec(qmax, stEn, mmEn, steps))
  {
    hide Good, Apply;
    if |steps| == 0 {
      FreshIsGood(qmax, stEn, mmEn);
    } else {
      RunIsGood(qmax, stEn, mmEn, steps[..|steps| - 1]);
      StepKeeps(Exec(qmax, stEn, mmEn, steps[..|steps| - 1]), steps[|steps| - 1]);
    }
  }

  lemma {:induction false} FreshIsGood(qmax: nat, stEn: bool, mmEn: bool)
    requires 2 * qmax <= IDX_INVALID
    ensures Good(Module(Fresh(qmax, stEn, mmEn), seq(2 * qmax, _ => EMPTY), []))
  {
    FreshOk(qmax, stEn, mmEn);
  }

  /** MAIN RESULT.  After any run of adding, starting, stopping and deleting queues, a
      character device has been destroyed, and then once, if and only if no queue that is
      handed out refers to it; and the final cleanup destroys every remaining device, so
      that in the end each device ever created is destroyed exactly once and no entry
      refers to any. */
  lemma {:induction false} EachDeviceDestroyedOnce(qmax: nat, stEn: bool, mmEn: bool, steps: seq<Step>, k: nat)
    requires 2 * qmax <= IDX_INVALID && k < |Exec(qmax, stEn, mmEn, steps).cdevs|
    ensures var m := Exec(qmax, stEn, mmEn, steps);
            var c, end := m.cdevs[k], Cleanup(m, 0);
            && c.minor < |m.dev.h2c|
            && c.destroyed == (if InUse(m, k, c.minor) then 0 else 1)
            && (forall i :: 0 <= i < |m.dev.h2c| && InUse(m, k, i) ==> i == c.minor)
            && (forall c2h: bool ::
                  m.qdata[HandleOf(m.dev, c2h, c.minor)].xcdev == k ==> Own(m.dev, c2h)[c.minor].enabled)
            && end.cdevs[k].destroyed == 1 && end.dev == m.dev
            && (forall s :: 0 <= s < |end.qdata| ==> end.qdata[s] == EMPTY)
  {
    hide Inv, Exec, Cleanup;
    var m := Exec(qmax, stEn, mmEn, steps);
    RunIsGood(qmax, stEn, mmEn, steps);
    assert CdevOk(m, k) && PairAt(m, m.cdevs[k].minor);
    forall i | 0 <= i < |m.dev.h2c| && InUse(m, k, i) ensures i == m.cdevs[k].minor {
      assert PairAt(m, i);
    }
    StartCleaning(m);
    CleanupEnds(m, 0);
  }
}
