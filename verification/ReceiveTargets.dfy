/** What reading leaves alone: the request itself, and every byte of its pages outside the
    windows of its target list. */
module ReceiveTargets {
  import opened RingIndex
  import opened ReceiveSpec
  import opened ReceiveCopy
  import opened ReceiveRuns
  import opened ReceiveHardware
  import opened ReceiveTheorems
  import opened ReceiveReads

  /** The pages differ inside the windows at most. */
  predicate Spared(sg: seq<Window>, mem: seq<seq<bv8>>, mem': seq<seq<bv8>>)
  {
    && |mem| == |mem'| == |sg|
    && forall j :: 0 <= j < |sg| ==> PageSpared(sg[j], mem[j], mem'[j])
  }

  predicate PageSpared(w: Window, page: seq<bv8>, page': seq<bv8>)
  {
    && |page'| == |page|
    && forall o :: 0 <= o < |page| && !(w.offset <= o < w.offset + w.len) ==> page'[o] == page[o]
  }

  lemma {:induction false} PieceSpares(src: seq<seq<bv8>>, sg: seq<Window>, c: Cursor)
    requires CursorOk(src, sg, c) && c.i < |src| && c.j < |sg|
    ensures Spared(sg, c.mem, CopyPiece(src, sg, c).mem)
  {
  }

  lemma {:induction false} SparedTwice(sg: seq<Window>, a: seq<seq<bv8>>, b: seq<seq<bv8>>, c: seq<seq<bv8>>)
    requires Spared(sg, a, b) && Spared(sg, b, c)
    ensures Spared(sg, a, c)
  {
    forall j | 0 <= j < |sg| ensures PageSpared(sg[j], a[j], c[j]) {
      assert PageSpared(sg[j], a[j], b[j]) && PageSpared(sg[j], b[j], c[j]);
    }
  }

  /** The copy loops write inside the windows only. */
  lemma {:induction false} CopySpares(src: seq<seq<bv8>>, sg: seq<Window>, c: Cursor)
    requires CursorOk(src, sg, c)
    ensures Spared(sg, c.mem, Copy(src, sg, c).mem)
    decreases |src| - c.i, (if c.i < |src| then |src[c.i]| - c.foff else 0) + (|sg| - c.j)
  {
    hide Spared, CopyPiece;
    if c.i < |src| && c.foff == |src[c.i]| && (c.foff > 0 || c.j < |sg|) {
      CopySpares(src, sg, c.(i := c.i + 1, foff := 0));
    } else if c.i < |src| && c.j < |sg| {
      PieceFrame(src, sg, c);
      PieceSpares(src, sg, c);
      CopySpares(src, sg, CopyPiece(src, sg, c));
      SparedTwice(sg, c.mem, CopyPiece(src, sg, c).mem, Copy(src, sg, c).mem);
    } else {
      SparedSame(sg, c.mem);
    }
  }

  lemma {:induction false} PieceFrame(src: seq<seq<bv8>>, sg: seq<Window>, c: Cursor)
    requires CursorOk(src, sg, c) && c.i < |src| && c.j < |sg| && !(c.foff == |src[c.i]| && (c.foff > 0 || c.j < |sg|))
    ensures var c' := CopyPiece(src, sg, c);
            && CursorOk(src, sg, c') && c'.i == c.i
            && |src[c.i]| - c'.foff + (|sg| - c'.j) < |src[c.i]| - c.foff + (|sg| - c.j)
            && Copy(src, sg, c) == Copy(src, sg, c')
  {
    hide Patch;
  }

  lemma {:induction false} SparedSame(sg: seq<Window>, mem: seq<seq<bv8>>)
    requires |mem| == |sg|
    ensures Spared(sg, mem, mem)
  {
  }

  /** The request is the same, with more bytes in its windows. */
  predicate Grew(rd: Read, rd': Read)
  {
    && rd'.id == rd.id && rd'.async == rd.async && rd'.sg == rd.sg && rd'.count == rd.count
    && Spared(rd.sg, rd.mem, rd'.mem)
  }

  lemma {:induction false} ReadGrows(rx: Rx, rd: Read)
    requires Shape(rx) && ReadShape(rd)
    ensures Grew(rd, ReadCore(rx, rd).rd) && ReadNow(rx, rd).rd == ReadCore(rx, rd).rd
  {
    hide Copy, Bytes, Consume, LastEop, Spared, FlShape, CrShape, Sources;
    SparedSame(rd.sg, rd.mem);
    var src := Sources(rx.fl, rx.bufsz);
    if src != [] && !(rd.sgIdx > 0 && rd.sgIdx >= |rd.sg|) {
      CopySpares(src, rd.sg, Cursor(0, 0, rd.sgIdx, rd.sgOff, rd.mem));
    }
  }

  lemma {:induction false} GrewTwice(a: Read, b: Read, c: Read)
    requires Grew(a, b) && Grew(b, c)
    ensures Grew(a, c)
  {
    hide Spared;
    SparedTwice(a.sg, a.mem, b.mem, c.mem);
  }

  /* ---- runs ---- */

  /** The read was submitted by some step, and is still that request. */
  predicate Submitted(rd: Read, steps: seq<Step>)
  {
    exists i :: 0 <= i < |steps| && steps[i].Submit? && Grew(steps[i].rd, rd)
  }

  predicate AllSubmitted(rds: seq<Read>, steps: seq<Step>)
  {
    forall i :: 0 <= i < |rds| ==> Submitted(rds[i], steps)
  }

  predicate Known(y: Sys, steps: seq<Step>)
  {
    AllSubmitted(y.filled, steps) && AllSubmitted(y.rx.pend, steps) && AllSubmitted(y.limbo, steps)
  }

  lemma {:induction false} SubmittedGrows(rd: Read, rd': Read, steps: seq<Step>)
    requires Submitted(rd, steps) && Grew(rd, rd')
    ensures Submitted(rd', steps)
  {
    hide Grew;
    var i :| 0 <= i < |steps| && steps[i].Submit? && Grew(steps[i].rd, rd);
    GrewTwice(steps[i].rd, rd, rd');
  }

  lemma {:induction false} SubmittedLater(rds: seq<Read>, steps: seq<Step>, st: Step)
    requires AllSubmitted(rds, steps)
    ensures AllSubmitted(rds, steps + [st])
  {
    hide Grew;
    forall k | 0 <= k < |rds| ensures Submitted(rds[k], steps + [st]) {
      assert Submitted(rds[k], steps);
      var i :| 0 <= i < |steps| && steps[i].Submit? && Grew(steps[i].rd, rds[k]);
      assert (steps + [st])[i] == steps[i];
    }
  }

  lemma {:induction false} ServeKnown(y: Sys, r0: nat, steps: seq<Step>)
    requires Core(y, r0) && Known(y, steps)
    ensures Shape(y.rx) && Known(AfterServe(y), steps)
    decreases |y.rx.pend|
  {
    hide RingsOk, BytesOk, ReadCore, AfterRead, Sane, FlShape, CrShape, ReadShape, Submitted, Grew, Served, Full;
    CoreFacts(y, r0);
    if y.rx.pend != [] {
      var rd := y.rx.pend[0];
      HeadIs(y, r0);
      ReadServes(y, rd);
      ReadKeeps(y, r0, rd);
      ReadGrows(y.rx, rd);
      var r, y1 := ReadCore(y.rx, rd), AfterRead(y, rd);
      SubmittedGrows(rd, r.rd, steps);
      if r.rd.left == 0 {
        FinishKeeps(y1, r0, r.rd);
        ServeKnown(y1.(rx := Finish(r.rx, r.rd, 0), filled := y1.filled + [r.rd]), r0, steps);
      }
    }
  }

  lemma {:induction false} ServiceKnown(y: Sys, budget: nat, steps: seq<Step>)
    requires Inv(y) && Known(y, steps)
    ensures Shape(y.rx) && Known(AfterService(y, budget), steps)
  {
    hide RingsOk, BytesOk, ReadsOk, Submitted, Collect, ServeReads, AfterServe, ServiceRx, FlShape, CrShape, ReadShape, Slot, Delta;
    CoreFacts(y, y.read);
    WaitingIs(y, y.read);
    if y.rx.pend != [] && y.status != y.n {
      var slot, a := Slot(y.status, |y.rx.cr.mem|), Allowance(budget, y.status - y.n);
      AfterServiceIs(y, budget);
      CollectKeeps(y, y.read, a);
      ServeKnown(y.(rx := Collect(y.rx, a).rx, n := y.n + a), y.read, steps);
      ServiceTakes(y, budget, slot, a);
    }
  }

  lemma {:induction false} SubmitKnown(y: Sys, rd: Read, steps: seq<Step>)
    requires Inv(y) && Fresh(rd) && Known(y, steps) && Submit(rd) in steps
    ensures Shape(y.rx) && Known(AfterSubmit(y, rd), steps)
  {
    hide Inv, Core, ReadCore, AfterRead, Sane, FlShape, CrShape, ReadShape, Served, Sources, NewBytes, ReadNow, Handback, Grew;
    ReadNowIs(y, rd);
    SaneShape(rd);
    FreshEmpty(rd);
    ReadServes(y, rd);
    ReadGrows(y.rx, rd);
    HandbackDelta1(y);
    NothingPend(y, rd);
    var i :| 0 <= i < |steps| && steps[i] == Submit(rd);
    assert Submitted(ReadCore(y.rx, rd).rd, steps);
  }

  lemma {:induction false} StepKnown(y: Sys, st: Step, steps: seq<Step>)
    requires Inv(y) && Known(y, steps) && st in steps
    ensures Known(Apply(y, st), steps)
  {
    hide Inv, AfterService, AfterSubmit, RoomForPacket, Shape, ReadShape, Submitted, Fresh;
    Registers(y);
    if Enabled(y, st) {
      match st {
        case Packet(p) =>
        case Report(status) =>
        case Service(budget) => ServiceKnown(y, budget, steps);
        case Submit(rd) => SubmitKnown(y, rd, steps);
        case Join(k) =>
      }
    }
  }

  lemma {:induction false} RunKnown(pages: seq<seq<bv8>>, bufsz: nat, wsz: nat, uddEn: bool, steps: seq<Step>)
    requires Pages(pages, bufsz, wsz)
    ensures Known(Exec(pages, bufsz, wsz, uddEn, steps), steps)
  {
    hide Inv, Apply, Submitted;
    if |steps| > 0 {
      var before, st := steps[..|steps| - 1], steps[|steps| - 1];
      var y := Exec(pages, bufsz, wsz, uddEn, before);
      RunKnown(pages, bufsz, wsz, uddEn, before);
      assert before + [st] == steps;
      SubmittedLater(y.filled, before, st);
      SubmittedLater(y.rx.pend, before, st);
      SubmittedLater(y.limbo, before, st);
      StepKnown(y, st, steps);
    }
  }

  /** MAIN RESULT on what reading leaves alone.  In every reachable state every read, complete
      or not, is one that some step submitted, with the same number, list and count; and the
      bytes of its pages outside the windows of the list are as they were submitted. */
  lemma {:induction false} ReadsKeepTheirPages(pages: seq<seq<bv8>>, bufsz: nat, wsz: nat, uddEn: bool, steps: seq<Step>, rd: Read)
    requires Pages(pages, bufsz, wsz)
    ensures var y := Exec(pages, bufsz, wsz, uddEn, steps);
            rd in y.filled + y.rx.pend + y.limbo ==>
              exists i :: 0 <= i < |steps| && steps[i].Submit? &&
                var was := steps[i].rd;
                && was.id == rd.id && was.async == rd.async && was.sg == rd.sg && was.count == rd.count
                && |was.mem| == |rd.mem| == |rd.sg|
                && forall j :: 0 <= j < |rd.sg| ==> PageSpared(rd.sg[j], was.mem[j], rd.mem[j])
  {
    hide Inv, Exec, PageSpared;
    RunKnown(pages, bufsz, wsz, uddEn, steps);
    var y := Exec(pages, bufsz, wsz, uddEn, steps);
    if rd in y.filled + y.rx.pend + y.limbo {
      assert Submitted(rd, steps);
    }
  }
}
