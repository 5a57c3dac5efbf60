/** Which bytes end up in which read request. */
module ReceiveReads {
  import opened RingIndex
  import opened ReceiveSpec
  import opened ReceiveCopy
  import opened ReceiveStream
  import opened ReceiveRings
  import opened ReceiveRuns
  import opened ReceiveHardware
  import opened ReceiveTheorems

  /** What the log says was put into read `id`. */
  function Of(log: seq<Move>, id: nat): seq<bv8>
  {
    if log == [] then []
    else Of(log[..|log| - 1], id) + (if log[|log| - 1].id == id then log[|log| - 1].bytes else [])
  }

  function Ids(rds: seq<Read>): multiset<nat>
  {
    multiset(seq(|rds|, i requires 0 <= i < |rds| => rds[i].id))
  }

  /** The target list of a read holds what the log says was put into it. */
  predicate Owns(rd: Read, log: seq<Move>)
  {
    ReadShape(rd) && Received(rd) == Of(log, rd.id)
  }

  predicate AllOwn(rds: seq<Read>, log: seq<Move>)
  {
    forall i :: 0 <= i < |rds| ==> Owns(rds[i], log)
  }

  predicate Full(rd: Read)
    requires ReadShape(rd)
  {
    RoomAt(rd.sg, rd.sgIdx, rd.sgOff) == 0
  }

  /** Every submitted read is on exactly one list. */
  ghost predicate Once(ids: multiset<nat>, n: nat)
  {
    forall id: nat :: ids[id] <= 1 && (id >= n ==> ids[id] == 0)
  }

  ghost predicate Books(log: seq<Move>, filled: seq<Read>, pend: seq<Read>, limbo: seq<Read>)
  {
    && AllOwn(filled, log) && AllOwn(pend, log) && AllOwn(limbo, log)
    && Once(Ids(filled) + Ids(pend) + Ids(limbo), |filled| + |pend| + |limbo|)
    && (forall i :: 0 <= i < |log| ==> log[i].id < |filled| + |pend| + |limbo|)
    && (forall i :: 0 <= i < |filled| ==> Full(filled[i]))
  }

  lemma {:induction false} IdsConcat(a: seq<Read>, b: seq<Read>)
    ensures Ids(a + b) == Ids(a) + Ids(b)
  {
    var x, y := seq(|a|, i requires 0 <= i < |a| => a[i].id), seq(|b|, i requires 0 <= i < |b| => b[i].id);
    assert seq(|a + b|, i requires 0 <= i < |a + b| => (a + b)[i].id) == x + y;
  }

  lemma {:induction false} OnceOf(a: multiset<nat>, b: multiset<nat>, c: multiset<nat>, n: nat, id: nat)
    requires Once(a + b + c, n)
    ensures a[id] + b[id] + c[id] <= 1
    ensures id >= n ==> a[id] == b[id] == c[id] == 0
  {
    assert (a + b + c)[id] == a[id] + b[id] + c[id];
  }

  /** One more read with the next number. */
  lemma {:induction false} OnceMore(a: multiset<nat>, n: nat)
    requires Once(a, n)
    ensures Once(a + multiset{n}, n + 1)
  {
    forall id: nat
      ensures (a + multiset{n})[id] <= 1 && (id >= n + 1 ==> (a + multiset{n})[id] == 0)
    {
      assert a[id] <= 1 && (id >= n ==> a[id] == 0);
    }
  }

  lemma {:induction false} IdsOne(rd: Read)
    ensures Ids([rd]) == multiset{rd.id}
  {
    assert seq(1, i requires 0 <= i < 1 => [rd][i].id) == [rd.id];
  }

  lemma {:induction false} IdsHas(rds: seq<Read>, i: nat)
    requires i < |rds|
    ensures Ids(rds)[rds[i].id] >= 1
  {
    var x := seq(|rds|, k requires 0 <= k < |rds| => rds[k].id);
    assert x[i] == rds[i].id && x[i] in x;
  }

  lemma {:induction false} OfStep(log: seq<Move>, m: Move, id: nat)
    ensures Of(log + [m], id) == Of(log, id) + (if m.id == id then m.bytes else [])
  {
    assert (log + [m])[..|log|] == log;
  }

  lemma {:induction false} OfNone(log: seq<Move>, id: nat)
    requires forall i :: 0 <= i < |log| ==> log[i].id < id
    ensures Of(log, id) == []
  {
    if log != [] {
      OfNone(log[..|log| - 1], id);
    }
  }

  /** Serving one read does not touch the others. */
  lemma {:induction false} OthersOwn(rds: seq<Read>, log: seq<Move>, m: Move)
    requires AllOwn(rds, log) && Ids(rds)[m.id] == 0
    ensures AllOwn(rds, log + [m])
  {
    hide Received, Of, Ids, ReadShape;
    forall i | 0 <= i < |rds| ensures Owns(rds[i], log + [m]) {
      IdsHas(rds, i);
      OfStep(log, m, rds[i].id);
    }
  }

  /** `rd` has become `rd'` by receiving the bytes of `m`. */
  predicate Served(rd: Read, rd': Read, m: Move)
    requires ReadShape(rd)
  {
    ReadShape(rd') && rd'.id == rd.id == m.id && Received(rd') == Received(rd) + m.bytes
  }

  lemma {:induction false} ServedOwns(rd: Read, rd': Read, log: seq<Move>, m: Move)
    requires Owns(rd, log) && Served(rd, rd', m)
    ensures Owns(rd', log + [m])
  {
    hide Received, Of, ReadShape;
    OfStep(log, m, rd.id);
  }

  lemma {:induction false} AllOwnConcat(a: seq<Read>, b: seq<Read>, log: seq<Move>)
    requires AllOwn(a, log) && AllOwn(b, log)
    ensures AllOwn(a + b, log)
  {
    hide Owns;
  }

  lemma {:induction false} AllOwnOne(rd: Read, log: seq<Move>)
    requires Owns(rd, log)
    ensures AllOwn([rd], log)
  {
    hide Owns;
  }

  /** The oldest waiting read receives something; it stays, or it is full and leaves. */
  lemma {:induction false} BooksServe(log: seq<Move>, filled: seq<Read>, pend: seq<Read>, limbo: seq<Read>, rd': Read, m: Move)
    requires Books(log, filled, pend, limbo) && pend != []
    requires ReadShape(pend[0]) && Served(pend[0], rd', m)
    ensures Books(log + [m], filled, [rd'] + pend[1..], limbo)
    ensures Full(rd') ==> Books(log + [m], filled + [rd'], pend[1..], limbo)
  {
    hide AllOwn, Full, Ids, ReadShape, Received, Of;
    var rest := pend[1..];
    HeadAndRest(pend, log);
    OnceOf(Ids(filled), Ids(pend), Ids(limbo), |filled| + |pend| + |limbo|, m.id);
    ServedOwns(pend[0], rd', log, m);
    IdsConcat([rd'], rest);
    IdsOne(rd');
    OthersOwn(filled, log, m);
    OthersOwn(rest, log, m);
    OthersOwn(limbo, log, m);
    AllOwnOne(rd', log + [m]);
    AllOwnConcat([rd'], rest, log + [m]);
    AllOwnConcat(filled, [rd'], log + [m]);
    IdsConcat(filled, [rd']);
    var after := Ids(filled) + Ids([rd'] + rest) + Ids(limbo);
    assert after == Ids(filled) + Ids(pend) + Ids(limbo) == Ids(filled + [rd']) + Ids(rest) + Ids(limbo);
  }

  lemma {:induction false} HeadAndRest(pend: seq<Read>, log: seq<Move>)
    requires pend != [] && AllOwn(pend, log)
    ensures Owns(pend[0], log) && AllOwn(pend[1..], log)
    ensures Ids(pend) == multiset{pend[0].id} + Ids(pend[1..])
  {
    hide Owns;
    IdsConcat([pend[0]], pend[1..]);
    IdsOne(pend[0]);
    assert pend == [pend[0]] + pend[1..];
  }

  /** A new read receives what there is. */
  lemma {:induction false} BooksSubmit(log: seq<Move>, filled: seq<Read>, pend: seq<Read>, limbo: seq<Read>,
                                       rd: Read, rd': Read, m: Move)
    requires Books(log, filled, pend, limbo) && rd.id == |filled| + |pend| + |limbo|
    requires ReadShape(rd) && Received(rd) == [] && Served(rd, rd', m)
    ensures Books(log + [m], filled, pend, limbo + [rd'])
    ensures Full(rd') ==> Books(log + [m], filled + [rd'], pend, limbo)
  {
    hide AllOwn, Full, Ids, ReadShape, Received, Of;
    OfNone(log, rd.id);
    OnceOf(Ids(filled), Ids(pend), Ids(limbo), rd.id, rd.id);
    OnceMore(Ids(filled) + Ids(pend) + Ids(limbo), rd.id);
    ServedOwns(rd, rd', log, m);
    IdsOne(rd');
    OthersOwn(filled, log, m);
    OthersOwn(pend, log, m);
    OthersOwn(limbo, log, m);
    AllOwnOne(rd', log + [m]);
    AllOwnConcat(limbo, [rd'], log + [m]);
    AllOwnConcat(filled, [rd'], log + [m]);
    IdsConcat(filled, [rd']);
    IdsConcat(limbo, [rd']);
    var after := Ids(filled) + Ids(pend) + Ids(limbo) + multiset{rd.id};
    assert after == Ids(filled) + Ids(pend) + Ids(limbo + [rd']) == Ids(filled + [rd']) + Ids(pend) + Ids(limbo);
  }

  /** A read joins the waiting ones. */
  lemma {:induction false} BooksJoin(log: seq<Move>, filled: seq<Read>, pend: seq<Read>, limbo: seq<Read>, k: nat)
    requires Books(log, filled, pend, limbo) && k < |limbo|
    ensures Books(log, filled, pend + [limbo[k]], limbo[..k] + limbo[k + 1..])
  {
    hide Full, Ids, Owns;
    IdsConcat(limbo[..k], [limbo[k]]);
    IdsConcat(limbo[..k] + [limbo[k]], limbo[k + 1..]);
    IdsConcat(limbo[..k], limbo[k + 1..]);
    IdsConcat(pend, [limbo[k]]);
    assert limbo == limbo[..k] + [limbo[k]] + limbo[k + 1..];
    var before, after := Ids(filled) + Ids(pend) + Ids(limbo),
                         Ids(filled) + Ids(pend + [limbo[k]]) + Ids(limbo[..k] + limbo[k + 1..]);
    assert before == after;
  }

  /* ---- the steps ---- */

  ghost predicate BooksOf(y: Sys)
  {
    Books(y.log, y.filled, y.rx.pend, y.limbo)
  }

  /** What one read function call does to the books. */
  lemma {:induction false} ReadServes(y: Sys, rd: Read)
    requires Shape(y.rx) && Sane(rd) && (rd.sgIdx == 0 || rd.sgIdx < |rd.sg|)
    ensures var r, y1, m := ReadCore(y.rx, rd), AfterRead(y, rd), Move(rd.id, NewBytes(rd, ReadCore(y.rx, rd).rd));
            && r.rv >= 0 && Served(rd, r.rd, m) && Sane(r.rd)
            && y1.log == y.log + [m] && y1.filled == y.filled && y1.limbo == y.limbo && y1.rx == r.rx
            && r.rx.pend == y.rx.pend
            && (r.rd.left == 0 ==> Full(r.rd))
            && r.rd.async == rd.async && r.rd.count == rd.count
  {
    hide FlShape, CrShape, Taken, Partial, Sources, Copy, NewBytes, Consume, LastEop, Bytes, Received, ReadShape, RoomAt;
    ReadIs(y.rx, rd);
    SaneShape(rd);
    ReadKeepsId(y.rx, rd);
    ReadCoreFields(y.rx, rd);
  }

  lemma {:induction false} ReadKeepsId(rx: Rx, rd: Read)
    requires Shape(rx) && ReadShape(rd)
    ensures var rd' := ReadCore(rx, rd).rd; rd'.id == rd.id && rd'.async == rd.async && rd'.count == rd.count
  {
    hide FlShape, CrShape, Sources, Copy, Bytes;
  }

  lemma {:induction false} SaneShape(rd: Read)
    requires Sane(rd)
    ensures ReadShape(rd)
  {
  }

  lemma {:induction false} ServeBooks(y: Sys, r0: nat)
    requires Core(y, r0) && BooksOf(y)
    ensures Shape(y.rx) && BooksOf(AfterServe(y))
    decreases |y.rx.pend|
  {
    hide RingsOk, BytesOk, Books, ReadCore, AfterRead, Sane, FlShape, CrShape, Full, Served, ReadShape;
    CoreFacts(y, r0);
    if y.rx.pend != [] {
      var rd := y.rx.pend[0];
      HeadIs(y, r0);
      ReadServes(y, rd);
      ReadKeeps(y, r0, rd);
      var r, y1 := ReadCore(y.rx, rd), AfterRead(y, rd);
      var m := Move(rd.id, NewBytes(rd, r.rd));
      BooksServe(y.log, y.filled, y.rx.pend, y.limbo, r.rd, m);
      if r.rd.left == 0 {
        var y2 := y1.(rx := Finish(r.rx, r.rd, 0), filled := y1.filled + [r.rd]);
        FinishKeeps(y1, r0, r.rd);
        ServeBooks(y2, r0);
      }
    }
  }

  lemma {:induction false} HeadIs(y: Sys, r0: nat)
    requires Core(y, r0) && y.rx.pend != []
    ensures var rd := y.rx.pend[0];
            Sane(rd) && ReadShape(rd) && rd.left > 0 && rd.sgIdx < |rd.sg|
  {
    hide RingsOk, BytesOk;
    StillRoom(y.rx.pend[0]);
  }

  lemma {:induction false} ServiceBooks(y: Sys, budget: nat)
    requires Inv(y) && BooksOf(y)
    ensures Shape(y.rx) && BooksOf(AfterService(y, budget))
  {
    hide RingsOk, BytesOk, ReadsOk, Books, Collect, ServeReads, AfterServe, ServiceRx, FlShape, CrShape, ReadShape, Slot, Delta;
    CoreFacts(y, y.read);
    WaitingIs(y, y.read);
    if y.rx.pend != [] && y.status != y.n {
      var slot, a := Slot(y.status, |y.rx.cr.mem|), Allowance(budget, y.status - y.n);
      AfterServiceIs(y, budget);
      CollectKeeps(y, y.read, a);
      ServeBooks(y.(rx := Collect(y.rx, a).rx, n := y.n + a), y.read);
      ServiceTakes(y, budget, slot, a);
    }
  }

  lemma {:induction false} SubmitBooks(y: Sys, rd: Read)
    requires Inv(y) && BooksOf(y) && Fresh(rd) && rd.id == |y.filled| + |y.rx.pend| + |y.limbo|
    ensures Shape(y.rx) && BooksOf(AfterSubmit(y, rd))
  {
    hide Inv, Core, Books, ReadCore, AfterRead, Sane, FlShape, CrShape, Full, Served, Sources, NewBytes, ReadNow, Handback;
    ReadNowIs(y, rd);
    SaneShape(rd);
    ReadServes(y, rd);
    HandbackDelta1(y);
    FreshEmpty(rd);
    var r := ReadCore(y.rx, rd);
    NothingPend(y, rd);
    BooksSubmit(y.log, y.filled, y.rx.pend, y.limbo, rd, r.rd, Move(rd.id, NewBytes(rd, r.rd)));
  }

  lemma {:induction false} FreshEmpty(rd: Read)
    requires Fresh(rd)
    ensures ReadShape(rd) && Received(rd) == [] && (rd.sgIdx == 0 || rd.sgIdx < |rd.sg|)
  {
    assert Filled(rd.sg, rd.mem, 0) == [];
  }

  lemma {:induction false} NothingPend(y: Sys, rd: Read)
    requires Shape(y.rx) && ReadShape(rd)
    ensures ReadNow(y.rx, rd).rx.pend == ReadCore(y.rx, rd).rx.pend
  {
    hide FlShape, CrShape, ReadCore, Sources, Refill, Taken;
  }

  lemma {:induction false} JoinBooks(y: Sys, k: nat)
    requires Inv(y) && BooksOf(y) && k < |y.limbo| && ReadShape(y.limbo[k])
    ensures Shape(y.rx) && BooksOf(AfterEnqueue(y, k))
  {
    hide Core, Books, FlShape, CrShape, ReadShape;
    CoreFacts(y, y.read);
    BooksJoin(y.log, y.filled, y.rx.pend, y.limbo, k);
  }

  lemma {:induction false} StepBooks(y: Sys, st: Step)
    requires Inv(y) && BooksOf(y)
    ensures BooksOf(Apply(y, st))
  {
    hide Inv, Books, AfterService, AfterSubmit, AfterEnqueue, Deliver, Fresh, RoomForPacket, Shape, ReadShape;
    Registers(y);
    if Enabled(y, st) {
      match st {
        case Packet(p) =>
        case Report(status) =>
        case Service(budget) => ServiceBooks(y, budget);
        case Submit(rd) => SubmitBooks(y, rd);
        case Join(k) => JoinBooks(y, k);
      }
    }
  }

  lemma {:induction false} RunBooks(pages: seq<seq<bv8>>, bufsz: nat, wsz: nat, uddEn: bool, steps: seq<Step>)
    requires Pages(pages, bufsz, wsz)
    ensures BooksOf(Exec(pages, bufsz, wsz, uddEn, steps))
  {
    hide Inv, Apply, Ids;
    if steps == [] {
      IdsNone();
    } else {
      RunBooks(pages, bufsz, wsz, uddEn, steps[..|steps| - 1]);
      StepBooks(Exec(pages, bufsz, wsz, uddEn, steps[..|steps| - 1]), steps[|steps| - 1]);
    }
  }

  lemma {:induction false} IdsNone()
    ensures Ids([]) == multiset{}
  {
  }

  /** MAIN RESULT on reads.  In every reachable state the target list of every complete,
      waiting or not yet waiting read holds exactly what was moved to that read, in order
      from its start, across however many calls; complete reads are full; and, unless a
      read has ended inside a buffer, all moves in the order of time are a prefix of the
      packet payloads. */
  lemma {:induction false} ReadsHoldTheStream(pages: seq<seq<bv8>>, bufsz: nat, wsz: nat, uddEn: bool, steps: seq<Step>, rd: Read)
    requires Pages(pages, bufsz, wsz)
    ensures var y := Exec(pages, bufsz, wsz, uddEn, steps);
            && (rd in y.filled + y.rx.pend + y.limbo ==> ReadShape(rd) && Received(rd) == Of(y.log, rd.id))
            && (rd in y.filled ==> RoomAt(rd.sg, rd.sgIdx, rd.sgOff) == 0)
            && (!y.inside ==> Delivered(y.log) <= Payload(y.pkts))
  {
    hide Exec, Payload, Delivered, ReadShape, Received, Of, Inv, Ids;
    RunBooks(pages, bufsz, wsz, uddEn, steps);
    StreamAndAccounts(Exec(pages, bufsz, wsz, uddEn, steps));
  }

  /* ---- the order of service ---- */

  /** `m` reads have left the list from its front, and their completions are reported in
      that order: without error, or, for a read with a callback that asked for anything,
      with EINVAL.  Of the rest only the first may have received more. */
  predicate ServedInOrder(before: Rx, after: Rx, m: nat)
  {
    && |before.pend| == m + |after.pend|
    && |after.done| == |before.done| + m && before.done <= after.done
    && (forall i :: 0 <= i < m ==>
          var rd, d := before.pend[i], after.done[|before.done| + i];
          d.id == rd.id && d.status == if !rd.async || rd.count == 0 then 0 else EINVAL)
    && (forall i :: 0 < i < |after.pend| ==> after.pend[i] == before.pend[m + i])
    && (after.pend != [] ==> SameRequest(before.pend[m], after.pend[0]))
  }

  predicate SameRequest(a: Read, b: Read)
  {
    a.id == b.id && a.async == b.async && a.count == b.count
  }

  lemma {:induction false} OneMore(before: Rx, middle: Rx, after: Rx, m: nat)
    requires before.pend != [] && middle.pend == before.pend[1..]
    requires var rd := before.pend[0];
             middle.done == before.done + [ReadDone(rd.id, if !rd.async || rd.count == 0 then 0 else EINVAL)]
    requires ServedInOrder(middle, after, m)
    ensures ServedInOrder(before, after, m + 1)
  {
    forall i | 0 <= i < m + 1
      ensures var rd, d := before.pend[i], after.done[|before.done| + i];
              d.id == rd.id && d.status == if !rd.async || rd.count == 0 then 0 else EINVAL
    {
      if i == 0 {
        assert after.done[|before.done|] == middle.done[|before.done|];
      } else {
        assert middle.pend[i - 1] == before.pend[i];
      }
    }
  }

  lemma {:induction false} NoneServed(before: Rx, after: Rx)
    requires after.done == before.done && |after.pend| == |before.pend|
    requires forall i :: 0 < i < |after.pend| ==> after.pend[i] == before.pend[i]
    requires after.pend != [] ==> SameRequest(before.pend[0], after.pend[0])
    ensures ServedInOrder(before, after, 0)
  {
  }

  /** Waiting reads are served first come, first served, each reported once, with the status
      that `ServedInOrder` spells out. */
  lemma {:induction false} FirstComeFirstServed(y: Sys, r0: nat) returns (m: nat)
    requires Core(y, r0)
    ensures Shape(y.rx) && ServedInOrder(y.rx, ServeReads(y.rx), m)
    decreases |y.rx.pend|
  {
    hide RingsOk, BytesOk, ReadCore, AfterRead, Sane, FlShape, CrShape, ReadShape, ServedInOrder, ServeReads;
    CoreFacts(y, r0);
    if y.rx.pend == [] {
      ServeEnd(y.rx);
      NoneServed(y.rx, y.rx);
      m := 0;
    } else {
      var rd := y.rx.pend[0];
      HeadIs(y, r0);
      ServeTurn(y.rx);
      ReadServes(y, rd);
      ReadKeeps(y, r0, rd);
      ReadCoreFields(y.rx, rd);
      var r, y1 := ReadCore(y.rx, rd), AfterRead(y, rd);
      if r.rd.left == 0 {
        var y2 := y1.(rx := Finish(r.rx, r.rd, 0), filled := y1.filled + [r.rd]);
        FinishKeeps(y1, r0, r.rd);
        m := FirstComeFirstServed(y2, r0);
        OneMore(y.rx, y2.rx, ServeReads(y.rx), m);
        m := m + 1;
      } else {
        NoneServed(y.rx, ServeReads(y.rx));
        m := 0;
      }
    }
  }

  /** What is reported for a read that waited: no error, or, if it has a callback and asked
      for anything, EINVAL. */
  predicate Reported(d: ReadDone, j: Joined)
  {
    d.id == j.id && d.status == if !j.async || j.count == 0 then 0 else EINVAL
  }

  predicate Awaits(rd: Read, j: Joined)
  {
    rd.id == j.id && rd.async == j.async && rd.count == j.count
  }

  /** Every read that ever joined the pending list, in the order of joining: first those
      that are reported complete, in the order of the reports, then those that wait. */
  predicate Queued(y: Sys)
  {
    && |y.joined| == |y.rx.done| + |y.rx.pend|
    && (forall i :: 0 <= i < |y.rx.done| ==> Reported(y.rx.done[i], y.joined[i]))
    && (forall i :: 0 <= i < |y.rx.pend| ==> Awaits(y.rx.pend[i], y.joined[|y.rx.done| + i]))
  }

  lemma {:induction false} ServedQueue(y: Sys, y': Sys, m: nat)
    requires Queued(y) && ServedInOrder(y.rx, y'.rx, m) && y'.joined == y.joined
    ensures Queued(y')
  {
    var n := |y.rx.done|;
    forall i | 0 <= i < |y'.rx.done| ensures Reported(y'.rx.done[i], y.joined[i]) {
      if i < n {
        assert y'.rx.done[i] == y.rx.done[i];
      } else {
        assert Awaits(y.rx.pend[i - n], y.joined[n + (i - n)]);
        assert y'.rx.done[n + (i - n)].id == y.rx.pend[i - n].id;
      }
    }
    forall i | 0 <= i < |y'.rx.pend| ensures Awaits(y'.rx.pend[i], y.joined[|y'.rx.done| + i]) {
      assert Awaits(y.rx.pend[m + i], y.joined[n + (m + i)]);
    }
  }

  lemma {:induction false} CollectDone(rx: Rx, budget: nat)
    requires Shape(rx)
    ensures Collect(rx, budget).rx.done == rx.done
    decreases budget
  {
    hide FlShape, BufsFor, Claim, ClaimsUsed;
    if budget > 0 && !BadCmpl(rx.cr.mem[rx.cr.cur].val, rx.uddEn) && rx.cr.mem[rx.cr.cur].color == rx.cr.color {
      CollectDone(TakeCmpl(rx, rx.cr.mem[rx.cr.cur].val), budget - 1);
    }
  }

  /** A service serves the reads as they stand when the completions are taken over. */
  lemma {:induction false} ServiceQueued(y: Sys, budget: nat)
    requires Inv(y) && Queued(y)
    ensures Shape(y.rx) && Queued(AfterService(y, budget))
  {
    hide RingsOk, BytesOk, ReadsOk, Collect, ServeReads, AfterServe, FlShape, CrShape, ReadShape, Slot, Delta,
         ServedInOrder, ServiceRx, Reported, Awaits;
    CoreFacts(y, y.read);
    WaitingIs(y, y.read);
    if y.rx.pend != [] && y.status != y.n {
      var slot, a := Slot(y.status, |y.rx.cr.mem|), Allowance(budget, y.status - y.n);
      AfterServiceIs(y, budget);
      CollectKeeps(y, y.read, a);
      CollectDone(y.rx, a);
      var y1 := y.(rx := Collect(y.rx, a).rx, n := y.n + a);
      var m := FirstComeFirstServed(y1, y.read);
      ServedQueue(y1, y1.(rx := ServeReads(y1.rx)), m);
      AfterServeJoined(y1);
      ServiceIs(y.rx, slot, budget, a);
    }
  }

  lemma {:induction false} AfterServeJoined(y: Sys)
    requires Shape(y.rx)
    ensures AfterServe(y).joined == y.joined
    decreases |y.rx.pend|
  {
    hide FlShape, CrShape, ReadShape, Copy, Sources, Bytes, Consume, LastEop, NewBytes, Partial, Taken;
    if y.rx.pend != [] && y.rx.pend[0].left != 0 {
      var rd := y.rx.pend[0];
      var r, y1 := ReadCore(y.rx, rd), AfterRead(y, rd);
      if r.rv >= 0 && r.rd.left == 0 {
        AfterServeJoined(y1.(rx := Finish(r.rx, r.rd, 0), filled := y1.filled + [r.rd]));
      }
    }
  }

  lemma {:induction false} SubmitQueued(y: Sys, rd: Read)
    requires Shape(y.rx) && ReadShape(rd) && Queued(y)
    ensures Queued(AfterSubmit(y, rd))
  {
    hide FlShape, CrShape, Sources, Refill, Taken, Partial, NewBytes, Copy, Consume, LastEop, Bytes, Reported, Awaits;
  }

  lemma {:induction false} JoinQueued(y: Sys, k: nat)
    requires Shape(y.rx) && k < |y.limbo| && ReadShape(y.limbo[k]) && Queued(y)
    ensures Queued(AfterEnqueue(y, k))
  {
    hide FlShape, CrShape, ReadShape, Reported;
  }

  lemma {:induction false} StepQueued(y: Sys, st: Step)
    requires Inv(y) && Queued(y)
    ensures Queued(Apply(y, st))
  {
    hide Inv, AfterService, AfterSubmit, AfterEnqueue, Deliver, RoomForPacket, Shape, ReadShape, Reported, Awaits;
    Registers(y);
    if Enabled(y, st) {
      match st {
        case Packet(p) =>
        case Report(status) =>
        case Service(budget) => ServiceQueued(y, budget);
        case Submit(rd) => SubmitQueued(y, rd);
        case Join(k) => JoinQueued(y, k);
      }
    }
  }

  lemma {:induction false} RunQueued(pages: seq<seq<bv8>>, bufsz: nat, wsz: nat, uddEn: bool, steps: seq<Step>)
    requires Pages(pages, bufsz, wsz)
    ensures Queued(Exec(pages, bufsz, wsz, uddEn, steps))
  {
    hide Inv, Apply;
    if |steps| > 0 {
      RunQueued(pages, bufsz, wsz, uddEn, steps[..|steps| - 1]);
      StepQueued(Exec(pages, bufsz, wsz, uddEn, steps[..|steps| - 1]), steps[|steps| - 1]);
    }
  }

  /** MAIN RESULT on the order of service.  In every reachable state the reads that had to
      wait are reported complete in exactly the order in which they joined the waiting
      reads, and the reads that still wait are those that joined last.  A read is reported
      without error, unless it has a callback and asked for anything: then with EINVAL,
      although it was filled. */
  lemma {:induction false} ReadsCompleteInOrder(pages: seq<seq<bv8>>, bufsz: nat, wsz: nat, uddEn: bool, steps: seq<Step>)
    requires Pages(pages, bufsz, wsz)
    ensures var y := Exec(pages, bufsz, wsz, uddEn, steps);
            && |y.joined| == |y.rx.done| + |y.rx.pend|
            && (forall i :: 0 <= i < |y.rx.done| ==>
                  && y.rx.done[i].id == y.joined[i].id
                  && (!y.joined[i].async || y.joined[i].count == 0 ==> y.rx.done[i].status == 0)
                  && (y.joined[i].async && y.joined[i].count != 0 ==> y.rx.done[i].status == EINVAL))
            && (forall i :: 0 <= i < |y.rx.pend| ==> y.rx.pend[i].id == y.joined[|y.rx.done| + i].id)
  {
    hide Inv, Exec;
    RunQueued(pages, bufsz, wsz, uddEn, steps);
    var y := Exec(pages, bufsz, wsz, uddEn, steps);
    forall i | 0 <= i < |y.rx.done|
      ensures y.rx.done[i].id == y.joined[i].id
      ensures !y.joined[i].async || y.joined[i].count == 0 ==> y.rx.done[i].status == 0
      ensures y.joined[i].async && y.joined[i].count != 0 ==> y.rx.done[i].status == EINVAL
    {
      assert Reported(y.rx.done[i], y.joined[i]);
    }
    forall i | 0 <= i < |y.rx.pend| ensures y.rx.pend[i].id == y.joined[|y.rx.done| + i].id {
      assert Awaits(y.rx.pend[i], y.joined[|y.rx.done| + i]);
    }
  }
}
