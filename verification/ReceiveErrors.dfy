/** The completion loop and the read function on rings with any contents: which entries are
    taken over, which one halts the queue, and what a halted queue does. */
module ReceiveErrors {
  import opened RingIndex
  import opened PhaseRing
  import opened ReceiveSpec

  /** The entry `k` places ahead of the consumer, and the colour expected there. */
  function EntryAt(cr: CmplRing, k: nat): Entry<Cmpl>
    requires cr.cidx < |cr.mem| && k <= |cr.mem|
  {
    cr.mem[Incr(cr.cidx, k, |cr.mem|)]
  }

  function ColorAt(cr: CmplRing, k: nat): bool
  {
    if cr.cidx + k >= |cr.mem| then !cr.color else cr.color
  }

  /** The entry is new, reports no error, has a length, and takes a buffer, unless the queue
      has user data enabled. */
  predicate Good(cr: CmplRing, uddEn: bool, k: nat)
    requires cr.cidx < |cr.mem| && k <= |cr.mem|
  {
    var e := EntryAt(cr, k);
    e.color == ColorAt(cr, k) && !e.val.err && !e.val.format && (e.val.descUsed || uddEn)
  }

  /** Bytes and buffers of the next `n` packets. */
  function Lens(mem: seq<Entry<Cmpl>>, i: nat, n: nat): nat
    requires i < |mem|
    decreases n
  {
    if n == 0 then 0
    else (if mem[i].val.descUsed then mem[i].val.len else 0) + Lens(mem, if i + 1 == |mem| then 0 else i + 1, n - 1)
  }

  function Bufs(mem: seq<Entry<Cmpl>>, i: nat, n: nat, bufsz: nat): nat
    requires i < |mem| && bufsz > 0
    decreases n
  {
    if n == 0 then 0
    else (if mem[i].val.descUsed then BufsFor(mem[i].val.len, bufsz) else 0)
         + Bufs(mem, if i + 1 == |mem| then 0 else i + 1, n - 1, bufsz)
  }

  /** The loop stands `n` entries further. */
  predicate Took(rx: Rx, n: nat, rx': Rx)
    requires Shape(rx) && n <= |rx.cr.mem|
  {
    && rx'.cr.mem == rx.cr.mem && rx'.cr.cidx == Incr(rx.cr.cidx, n, |rx.cr.mem|) && rx'.cr.color == ColorAt(rx.cr, n)
    && rx'.pktDlen == rx.pktDlen + Lens(rx.cr.mem, rx.cr.cidx, n)
    && rx'.fl.avail == rx.fl.avail - Bufs(rx.cr.mem, rx.cr.cidx, n, rx.bufsz)
    && rx'.bufsz == rx.bufsz && rx'.uddEn == rx.uddEn && rx'.pend == rx.pend && rx'.done == rx.done
    && rx'.regPidx == rx.regPidx && rx'.regCidx == rx.regCidx && rx'.wrbPend == rx.wrbPend
    && rx'.fl.pidxPend == rx.fl.pidxPend && |rx'.fl.bufs| == |rx.fl.bufs|
  }

  lemma {:induction false} NextEntry(rx: Rx, k: nat)
    requires Shape(rx) && k < |rx.cr.mem|
    ensures var cr' := NextCmpl(rx.cr);
            && EntryAt(cr', k) == EntryAt(rx.cr, k + 1)
            && ColorAt(cr', k) == ColorAt(rx.cr, k + 1)
            && cr'.mem == rx.cr.mem && Incr(cr'.cidx, k, |rx.cr.mem|) == Incr(rx.cr.cidx, k + 1, |rx.cr.mem|)
  {
    hide FlShape, ReadShape;
  }

  /** One entry is taken over. */
  lemma {:induction false} TakesOne(rx: Rx, c: Cmpl)
    requires Shape(rx) && c == rx.cr.mem[rx.cr.cidx].val
    ensures BufsFor(c.len, rx.bufsz) <= |rx.fl.bufs|
    ensures var t := TakeCmpl(rx, c);
            && t.cr == NextCmpl(rx.cr) && t.err == rx.err && t.bufsz == rx.bufsz && t.uddEn == rx.uddEn
            && t.pktDlen == rx.pktDlen + (if c.descUsed then c.len else 0)
            && t.fl.avail == rx.fl.avail - (if c.descUsed then BufsFor(c.len, rx.bufsz) else 0)
            && t.done == rx.done && t.regPidx == rx.regPidx && t.regCidx == rx.regCidx && t.wrbPend == rx.wrbPend
  {
    hide FlShape, ReadShape, BufsFor, ClaimsUsed;
  }

  lemma {:induction false} TookMore(rx: Rx, c: Cmpl, n: nat, rx': Rx)
    requires Shape(rx) && n < |rx.cr.mem| && c == rx.cr.mem[rx.cr.cidx].val
    requires BufsFor(c.len, rx.bufsz) <= |rx.fl.bufs| && Took(TakeCmpl(rx, c), n, rx')
    ensures Took(rx, n + 1, rx')
  {
    hide FlShape, ReadShape, BufsFor, TakeCmpl;
    TakesOne(rx, c);
    NextEntry(rx, n);
  }

  /** One turn of the loop. */
  lemma {:induction false} CollectTurn(rx: Rx, budget: nat)
    requires Shape(rx) && budget > 0
    ensures var e := rx.cr.mem[rx.cr.cidx];
            && BufsFor(e.val.len, rx.bufsz) <= |rx.fl.bufs|
            && Collect(rx, budget) ==
               if e.val.err || e.val.format || (!e.val.descUsed && !rx.uddEn) then Collected(rx.(err := true), 0, true)
               else if e.color != rx.cr.color then Collected(rx, 0, false)
               else var r := Collect(TakeCmpl(rx, e.val), budget - 1); r.(cnt := r.cnt + 1)
  {
    hide FlShape, ReadShape, BufsFor, TakeCmpl;
  }

  /** MAIN RESULT on the completion loop.  Whatever the ring holds, the loop takes over the
      longest run of good entries within its budget, bytes and buffers included.  It halts
      the queue if and only if the entry after them is within the budget and reports an
      error, has no length, or has no buffer on a queue without user data; otherwise it
      stops there only because the entry is old. */
  lemma {:induction false} CollectTakesGoodEntries(rx: Rx, budget: nat)
    requires Shape(rx) && budget <= |rx.cr.mem|
    ensures var r := Collect(rx, budget);
            && r.cnt <= budget && Took(rx, r.cnt, r.rx)
            && (forall k :: 0 <= k < r.cnt ==> Good(rx.cr, rx.uddEn, k))
            && (r.cnt < budget ==> !Good(rx.cr, rx.uddEn, r.cnt))
            && (r.rx.err <==> rx.err || r.halted)
            && (r.halted <==>
                  r.cnt < budget &&
                  var c := EntryAt(rx.cr, r.cnt).val; c.err || c.format || (!c.descUsed && !rx.uddEn))
    decreases budget
  {
    hide FlShape, ReadShape, BufsFor, TakeCmpl, NextCmpl, Collect, Took;
    ShapeRing(rx);
    if budget == 0 {
      CollectZero(rx);
    } else {
      CollectTurn(rx, budget);
      var e := rx.cr.mem[rx.cr.cidx];
      assert e == EntryAt(rx.cr, 0) && rx.cr.color == ColorAt(rx.cr, 0);
      if Good(rx.cr, rx.uddEn, 0) {
        var t := TakeCmpl(rx, e.val);
        TakesOne(rx, e.val);
        NextEntry(rx, 0);
        CollectTakesGoodEntries(t, budget - 1);
        var r := Collect(t, budget - 1);
        TookMore(rx, e.val, r.cnt, r.rx);
        NextEntry(rx, r.cnt);
        GoodMore(rx, t, r.cnt);
      } else {
        TookNone(rx, true);
        TookNone(rx, rx.err);
      }
    }
  }

  lemma {:induction false} GoodMore(rx: Rx, t: Rx, n: nat)
    requires Shape(rx) && Shape(t) && t.cr == NextCmpl(rx.cr) && t.uddEn == rx.uddEn && n < |rx.cr.mem| == |t.cr.mem|
    requires Good(rx.cr, rx.uddEn, 0) && forall k :: 0 <= k < n ==> Good(t.cr, t.uddEn, k)
    ensures forall k :: 0 <= k < n + 1 ==> Good(rx.cr, rx.uddEn, k)
  {
    hide Shape, EntryAt, ColorAt, NextCmpl;
    ShapeRing(rx);
    ShapeRing(t);
    forall k | 0 <= k < n + 1 ensures Good(rx.cr, rx.uddEn, k) {
      if k > 0 {
        NextEntry(rx, k - 1);
        assert Good(t.cr, t.uddEn, k - 1);
      }
    }
  }

  lemma {:induction false} ShapeRing(rx: Rx)
    requires Shape(rx)
    ensures rx.cr.cidx == rx.cr.cur < |rx.cr.mem|
  {
  }

  lemma {:induction false} CollectZero(rx: Rx)
    requires Shape(rx)
    ensures Collect(rx, 0) == Collected(rx, 0, false) && Took(rx, 0, rx)
  {
    hide FlShape, ReadShape;
  }

  lemma {:induction false} TookNone(rx: Rx, err: bool)
    requires Shape(rx)
    ensures Took(rx, 0, rx.(err := err))
  {
    hide FlShape, ReadShape;
  }

  /** MAIN RESULT on halting.  A service that meets a faulty entry among the reported ones
      marks the queue, serves no read, tells the hardware nothing and leaves the take-over
      position alone; and a halted queue stays as it is, however often it is served. */
  lemma {:induction false} HaltedQueueRests(rx: Rx, status: nat, budget: nat, k: nat)
    requires Shape(rx) && status < |rx.cr.mem| && !rx.err && rx.pend != []
    requires rx.cr.cidx < |rx.cr.mem| && k < Delta(status, rx.cr.cidx, |rx.cr.mem|) && (budget == 0 || k < budget)
    requires forall i :: 0 <= i < k ==> Good(rx.cr, rx.uddEn, i)
    requires var c := EntryAt(rx.cr, k).val; c.err || c.format || (!c.descUsed && !rx.uddEn)
    ensures var rx' := ServiceRx(rx, status, budget);
            && rx'.err && rx'.fl.pidx == rx.fl.pidx && rx'.fl.pidxPend == rx.fl.pidxPend
            && rx'.pend == rx.pend && rx'.done == rx.done && rx'.regPidx == rx.regPidx && rx'.regCidx == rx.regCidx
            && rx'.cr.cidx == Incr(rx.cr.cidx, k, |rx.cr.mem|) < |rx'.cr.mem|
            && (forall status': nat, budget': nat :: status' < |rx'.cr.mem| ==> ServiceRx(rx', status', budget') == rx')
  {
    hide FlShape, ReadShape, Collect, EntryAt, CrShape, Lens, Bufs, ColorAt;
    var a := Allowance(budget, Delta(status, rx.cr.cidx, |rx.cr.mem|));
    assert !Good(rx.cr, rx.uddEn, k);
    CollectTakesGoodEntries(rx, a);
    assert Collect(rx, a).cnt == k;
  }

  /* ---- taking a packet over a buffer in use ---- */

  /** The warning is given exactly when one of the buffers that the packet claims was still
      in use. */
  lemma {:induction false} WarnsExactly(rx: Rx, c: Cmpl)
    requires Shape(rx) && BufsFor(c.len, rx.bufsz) <= |rx.fl.bufs|
    ensures TakeCmpl(rx, c).warned <==>
            rx.warned || (c.descUsed && exists q: nat :: q < BufsFor(c.len, rx.bufsz) && rx.fl.bufs[Incr(rx.fl.pidx, q, |rx.fl.bufs|)].valid)
  {
    hide ReadShape, CrShape, BufsFor, Claim;
    var nb, n := BufsFor(c.len, rx.bufsz), |rx.fl.bufs|;
    if c.descUsed && ClaimsUsed(rx.fl, rx.bufsz, c.len) {
      var s :| 0 <= s < n && Delta(s, rx.fl.pidx, n) < nb && rx.fl.bufs[s].valid;
      assert Incr(rx.fl.pidx, Delta(s, rx.fl.pidx, n), n) == s;
    }
    forall q: nat | q < nb ensures Delta(Incr(rx.fl.pidx, q, n), rx.fl.pidx, n) == q {
    }
  }

  /* ---- a refused read ---- */

  /** A read is refused if and only if there is something to read and its target list is
      used up; nothing changes then. */
  lemma {:induction false} RefusedReadIff(rx: Rx, rd: Read)
    requires Shape(rx) && ReadShape(rd)
    ensures var r := ReadCore(rx, rd);
            && (r.rv < 0 <==> rx.fl.pidx != rx.fl.pidxPend && 0 < rd.sgIdx == |rd.sg|)
            && (r.rv < 0 ==> r == ReadResult(rx, rd, EINVAL))
  {
    hide CrShape, Copy, Bytes, Consume, LastEop;
    assert |Sources(rx.fl, rx.bufsz)| == 0 <==> rx.fl.pidx == rx.fl.pidxPend;
  }
}
