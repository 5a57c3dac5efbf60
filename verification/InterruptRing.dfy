/** The interrupt aggregation ring (libqdma/qdma_intr.c): the second use of `PhaseRing`. */
module InterruptRing {
  import opened RingIndex
  import opened PhaseRing

  /** One ring entry: which queue raised the interrupt, or that it reports an error. */
  datatype Event = Event(qid: nat, c2h: bool, error: bool)

  /** The ring and its consumer state, the queues scheduled for service so far, the number
      of runs of the error handler, and the consumer index last written to the hardware. */
  datatype Intr = Intr(mem: seq<Entry<Event>>, cidx: nat, color: bool,
                       work: seq<Event>, errors: nat, reg: nat)

  predicate Fits(s: Intr)
  {
    s.cidx < |s.mem|
  }

  /** Is there an entry that looks new? */
  predicate Pending(s: Intr)
    requires Fits(s)
  {
    s.mem[s.cidx].color == s.color
  }

  /** One turn of the loop of `data_intr_aggregate`. */
  function Turn(s: Intr): (s': Intr)
    requires Fits(s)
    ensures Fits(s') && s'.mem == s.mem
  {
    var e := s.mem[s.cidx].val;
    var t := if e.error then s.(errors := s.errors + 1) else s.(work := s.work + [e]);
    if s.cidx + 1 == |s.mem| then t.(cidx := 0, color := !s.color) else t.(cidx := s.cidx + 1)
  }

  /** At most `limit` turns of the loop. */
  function Turns(s: Intr, limit: nat): (s': Intr)
    requires Fits(s)
    ensures Fits(s') && s'.mem == s.mem
    decreases limit
  {
    if limit == 0 || !Pending(s) then s else Turns(Turn(s), limit - 1)
  }

  /** `data_intr_aggregate`, uninterrupted. */
  function Aggregate(s: Intr): (s': Intr)
    requires Fits(s)
    ensures Fits(s')
  {
    var t := Turns(s, |s.mem|);
    if Pending(s) then t.(reg := t.cidx) else t
  }

  /** `intr_ring_setup`: `(rngsz + 1) * 512` zeroed entries. */
  function Setup(rngsz: nat): (s: Intr)
    ensures Fits(s)
  {
    Intr(seq((rngsz + 1) * 512, _ => Entry(false, Event(0, false, false))), 0, true, [], 0, 0)
  }

  /* ---- the loop always stops ---- */

  /** Where `d` turns lead: the index wraps, and the colour flips with it. */
  predicate TurnedTo(s: Intr, d: nat, t: Intr)
    requires Fits(s) && d <= |s.mem|
  {
    && t.mem == s.mem
    && t.cidx == Incr(s.cidx, d, |s.mem|)
    && t.color == (if s.cidx + d >= |s.mem| then !s.color else s.color)
  }

  /** Whatever the ring holds, the loop stops within one lap: an entry that was taken has
      the old colour, and cannot look new in the next lap. */
  lemma {:induction false} StopsWithinALap(s: Intr, d: nat, t: Intr)
    requires Fits(s) && d <= |s.mem| && Fits(t) && TurnedTo(s, d, t)
    requires d > 0 ==> Pending(s)
    ensures !Pending(Turns(t, |s.mem| - d))
    decreases |s.mem| - d
  {
    if d < |s.mem| && Pending(t) {
      StopsWithinALap(s, d + 1, Turn(t));
    }
  }

  /** MAIN RESULT: the loop of `data_intr_aggregate` ends, for any ring contents, after at
      most one lap, at an entry that does not look new. */
  lemma {:induction false} AggregateStops(s: Intr)
    requires Fits(s)
    ensures !Pending(Turns(s, |s.mem|))
  {
    StopsWithinALap(s, 0, s);
  }

  /* ---- runs ---- */

  /** The ring, all entries the hardware has written, how many were handled, and how many
      the hardware knows to be handled. */
  datatype Sys = Sys(s: Intr, log: seq<Event>, n: nat, told: nat)

  function Works(log: seq<Event>): seq<Event>
  {
    if log == [] then []
    else Works(log[..|log| - 1]) + (if log[|log| - 1].error then [] else [log[|log| - 1]])
  }

  function Errors(log: seq<Event>): nat
  {
    if log == [] then 0 else Errors(log[..|log| - 1]) + (if log[|log| - 1].error then 1 else 0)
  }

  /** Every entry up to `n` is handled exactly once, in order; the consumer state stands
      for `n`; and the hardware has not lapped what it was told. */
  ghost predicate Inv(y: Sys)
  {
    && Holds(y.s.mem, y.log)
    && y.told <= y.n <= |y.log| < y.told + |y.s.mem|
    && y.s.cidx == Slot(y.n, |y.s.mem|) && y.s.color == Phase(y.n, |y.s.mem|)
    && y.s.reg == Slot(y.told, |y.s.mem|)
    && y.s.work == Works(y.log[..y.n]) && y.s.errors == Errors(y.log[..y.n])
  }

  /** The steps interleave freely, so the hardware may write while the handler runs. */
  datatype Step =
    | HardwareWrites(e: Event)
    | HandlerTurn
    | HandlerEnds
    | HandlerRuns

  /** The hardware goes by the index it was told last. */
  predicate Room(y: Sys)
    requires y.s.reg < |y.s.mem|
  {
    Delta(Slot(|y.log|, |y.s.mem|), y.s.reg, |y.s.mem|) + 1 < |y.s.mem|
  }

  lemma {:induction false} RoomIs(y: Sys)
    requires Inv(y)
    ensures Room(y) <==> |y.log| + 1 < y.told + |y.s.mem|
  {
    SlotDelta(|y.log|, y.told, |y.s.mem|);
  }

  lemma {:induction false} WriteKeeps(y: Sys, e: Event)
    requires Inv(y) && Room(y)
    ensures Inv(y.(s := y.s.(mem := Write(y.s.mem, y.log, e)), log := y.log + [e]))
  {
    hide Holds, Works, Errors;
    RoomIs(y);
    WriteHolds(y.s.mem, y.log, e);
    assert (y.log + [e])[..y.n] == y.log[..y.n];
  }

  /** The colour test is exact. */
  lemma {:induction false} PendingIs(y: Sys)
    requires Inv(y)
    ensures Fits(y.s)
    ensures Pending(y.s) <==> y.n < |y.log|
    ensures y.n < |y.log| ==> y.s.mem[y.s.cidx].val == y.log[y.n]
  {
    ColorTestExact(y.s.mem, y.log, y.n);
  }

  lemma {:induction false} TurnKeeps(y: Sys)
    requires Inv(y) && y.n < |y.log|
    ensures Fits(y.s) && Inv(y.(s := Turn(y.s), n := y.n + 1))
  {
    hide Holds;
    PendingIs(y);
    PhaseAdvance(y.n, |y.s.mem|);
    assert y.log[..y.n + 1][..y.n] == y.log[..y.n];
  }

  lemma {:induction false} TurnsKeep(y: Sys, limit: nat)
    requires Inv(y) && |y.log| - y.n <= limit
    ensures Fits(y.s) && Inv(y.(s := Turns(y.s, limit), n := |y.log|))
    decreases limit
  {
    hide Inv, Turn;
    InvCounts(y);
    PendingIs(y);
    if y.n < |y.log| {
      TurnKeeps(y);
      var y1 := y.(s := Turn(y.s), n := y.n + 1);
      TurnsKeep(y1, limit - 1);
      assert y1.(s := Turns(y1.s, limit - 1), n := |y1.log|) == y.(s := Turns(y.s, limit), n := |y.log|);
    } else {
      assert y.(s := Turns(y.s, limit), n := |y.log|) == y;
    }
  }

  lemma {:induction false} InvCounts(y: Sys)
    requires Inv(y)
    ensures Fits(y.s) && y.s.reg < |y.s.mem| && y.n <= |y.log| < y.n + |y.s.mem|
  {
  }

  lemma {:induction false} EndKeeps(y: Sys)
    requires Inv(y)
    ensures Inv(y.(s := y.s.(reg := y.s.cidx), told := y.n))
  {
  }

  /** The state after one step; the hardware waits for room. */
  ghost function Apply(y: Sys, st: Step): (y': Sys)
    requires Inv(y)
    ensures Inv(y')
  {
    hide Inv, Turn, Turns, Room;
    InvCounts(y);
    PendingIs(y);
    match st
    case HardwareWrites(e) =>
      if Room(y) then WriteKeeps(y, e); y.(s := y.s.(mem := Write(y.s.mem, y.log, e)), log := y.log + [e])
      else y
    case HandlerTurn =>
      if Pending(y.s) then TurnKeeps(y); y.(s := Turn(y.s), n := y.n + 1) else y
    case HandlerEnds => EndKeeps(y); y.(s := y.s.(reg := y.s.cidx), told := y.n)
    case HandlerRuns =>
      RunKeeps(y);
      y.(s := Aggregate(y.s), n := |y.log|, told := if Pending(y.s) then |y.log| else y.told)
  }

  lemma {:induction false} RunKeeps(y: Sys)
    requires Inv(y)
    ensures Fits(y.s)
    ensures Inv(y.(s := Aggregate(y.s), n := |y.log|, told := if Pending(y.s) then |y.log| else y.told))
  {
    hide Inv, Turns, Holds;
    InvCounts(y);
    PendingIs(y);
    TurnsKeep(y, |y.s.mem|);
    var y1 := y.(s := Turns(y.s, |y.s.mem|), n := |y.log|);
    EndKeeps(y1);
  }

  lemma {:induction false} SetupInv(rngsz: nat)
    ensures Inv(Sys(Setup(rngsz), [], 0, 0))
  {
    var empty: seq<Event> := [];
    assert empty[..0] == [];
  }

  /** The state after a run; every run keeps the invariant. */
  ghost function Exec(rngsz: nat, steps: seq<Step>): (y: Sys)
    ensures Inv(y)
  {
    hide Inv, Apply, Setup;
    if steps == [] then SetupInv(rngsz); Sys(Setup(rngsz), [], 0, 0)
    else Apply(Exec(rngsz, steps[..|steps| - 1]), steps[|steps| - 1])
  }

  /** The ring keeps its size: 512 entries, or a multiple. */
  lemma {:induction false} RingSize(rngsz: nat, steps: seq<Step>)
    ensures |Exec(rngsz, steps).s.mem| == 512 * (rngsz + 1)
  {
    hide Inv, Turn;
    if |steps| > 0 {
      RingSize(rngsz, steps[..|steps| - 1]);
      InvCounts(Exec(rngsz, steps[..|steps| - 1]));
    }
  }

  /** MAIN RESULT.  In every reachable state, whatever the interleaving of hardware and
      handler over any number of laps: exactly the first `n` entries have been handled,
      once each and in order; index and colour stand for `n`; and there looks to be a new
      entry if and only if there is one.  A handler run then handles all of them, and
      reports the hardware's own position. */
  lemma {:induction false} EveryInterruptOnce(rngsz: nat, steps: seq<Step>)
    ensures var y := Exec(rngsz, steps);
            && Fits(y.s) && |y.s.mem| == 512 * (rngsz + 1) && y.n <= |y.log|
            && y.s.work == Works(y.log[..y.n]) && y.s.errors == Errors(y.log[..y.n])
            && y.s.cidx == Slot(y.n, |y.s.mem|) && y.s.color == Phase(y.n, |y.s.mem|)
            && (Pending(y.s) <==> y.n < |y.log|)
            && var s' := Aggregate(y.s);
               && s'.work == Works(y.log) && s'.errors == Errors(y.log)
               && s'.cidx == Slot(|y.log|, |y.s.mem|)
               && (y.n < |y.log| ==> s'.reg == s'.cidx)
  {
    hide Exec, Holds, Works, Errors, Turns;
    var y := Exec(rngsz, steps);
    RingSize(rngsz, steps);
    PendingIs(y);
    RunKeeps(y);
    assert y.log[..|y.log|] == y.log;
  }

  /* ---- the handler with the driver's mutable state ---- */

  /** `struct intr_coal_conf`; there is one such ring per function. */
  class CoalEntry {
    const ring: array<Entry<Event>>
    var cidx: nat
    var color: bool
    var scheduled: seq<Event>
    var errors: nat
    var cidxReg: nat

    ghost function View(): Intr
      reads this, ring
    {
      Intr(ring[..], cidx, color, scheduled, errors, cidxReg)
    }

    /** `intr_ring_setup` */
    constructor (rngsz: nat)
      ensures View() == Setup(rngsz) && fresh(ring)
    {
      ring := new Entry<Event>[(rngsz + 1) * 512](_ => Entry(false, Event(0, false, false)));
      cidx, color, scheduled, errors, cidxReg := 0, true, [], 0, 0;
      new;
      assert ring[..] == Setup(rngsz).mem;
    }

    /** `data_intr_aggregate`.  If the device has no queues attached (`found` is false) the
        handler gives up at the first entry and consumes nothing. */
    method DataIntrAggregate(found: bool)
      requires Fits(View())
      modifies this
      ensures View() == if found then Aggregate(old(View())) else old(View())
    {
      hide Turn, Turns;
      ghost var start := View();
      ghost var turns := 0;
      var counter := cidx;
      var entry := ring[counter];
      var any := false;
      LapBegins(start);
      while entry.color == color
        invariant Fits(View()) && counter == cidx && entry == ring[counter]
        invariant View().mem == start.mem && cidxReg == start.reg
        invariant turns <= |start.mem| && TurnedTo(start, turns, View())
        invariant turns > 0 ==> Pending(start)
        invariant Turns(start, |start.mem|) == Turns(View(), |start.mem| - turns)
        invariant any <==> turns > 0
        invariant !found ==> turns == 0 && View() == start
        decreases |start.mem| - turns
      {
        if !found {
          return;
        }
        any := true;
        TurnsStep(View(), |start.mem| - turns);
        NotAFullLap(start, turns, View());
        if entry.val.error {
          errors := errors + 1;
        } else {
          scheduled := scheduled + [entry.val];
        }
        cidx := cidx + 1;
        if cidx == ring.Length {
          counter := 0;
          color := !color;
          cidx := 0;
        } else {
          counter := counter + 1;
        }
        entry := ring[counter];
        turns := turns + 1;
      }
      TurnsStep(View(), |start.mem| - turns);
      if any {
        cidxReg := cidx;
      }
    }
  }

  lemma {:induction false} LapBegins(s: Intr)
    requires Fits(s)
    ensures TurnedTo(s, 0, s)
  {
  }

  lemma {:induction false} TurnsStep(s: Intr, limit: nat)
    requires Fits(s)
    ensures Turns(s, limit) == if limit == 0 || !Pending(s) then s else Turns(Turn(s), limit - 1)
    ensures Turn(s) == (var e := s.mem[s.cidx].val;
                        var t := if e.error then s.(errors := s.errors + 1) else s.(work := s.work + [e]);
                        if s.cidx + 1 == |s.mem| then t.(cidx := 0, color := !s.color) else t.(cidx := s.cidx + 1))
  {
  }

  /** After a full lap no entry looks new. */
  lemma {:induction false} NotAFullLap(s: Intr, d: nat, t: Intr)
    requires Fits(s) && d <= |s.mem| && Fits(t) && TurnedTo(s, d, t) && Pending(t)
    requires d > 0 ==> Pending(s)
    ensures d < |s.mem|
  {
  }
}
