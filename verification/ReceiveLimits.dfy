/** Where the receive path falls short, and exactly when. */
module ReceiveLimits {
  import opened RingIndex
  import opened PhaseRing
  import opened ReceiveSpec
  import opened ReceiveCopy
  import opened ReceiveStream
  import opened ReceiveRings
  import opened ReceiveRuns
  import opened ReceiveHardware
  import opened ReceiveTheorems

  /* ---- a buffer that was read in part ---- */

  /** What the copy loop sees of the unread chunks `cs`, of whose first one `off` bytes are
      read: the first chunk is shortened at its end, not at its start. */
  function SourcesOf(cs: seq<Chunk>, off: nat): (src: seq<seq<bv8>>)
    requires cs != [] && off <= |cs[0].bytes|
    ensures |src| == |cs|
  {
    [cs[0].bytes[..|cs[0].bytes| - off]] + seq(|cs| - 1, q requires 0 <= q < |cs| - 1 => cs[q + 1].bytes)
  }

  /** What a read of `n` bytes is given. */
  function Got(cs: seq<Chunk>, off: nat, n: nat): seq<bv8>
    requires cs != [] && off <= |cs[0].bytes| && n <= |Bytes(SourcesOf(cs, off))|
  {
    Bytes(SourcesOf(cs, off))[..n]
  }

  /** What it should be given: the stream from where the last read ended. */
  function Due(cs: seq<Chunk>, off: nat, n: nat): seq<bv8>
    requires off + n <= |Flat(cs)|
  {
    Flat(cs)[off..off + n]
  }

  /** The same packets and lengths with other contents. */
  predicate Alike(cs: seq<Chunk>, cs': seq<Chunk>)
  {
    |cs'| == |cs| && forall q :: 0 <= q < |cs| ==> |cs'[q].bytes| == |cs[q].bytes|
  }

  lemma {:induction false} SourcesOfMatch(cs: seq<Chunk>, off: nat)
    requires cs != [] && off <= |cs[0].bytes|
    ensures SourcesMatch(SourcesOf(cs, off), cs, 0, off)
    ensures |Bytes(SourcesOf(cs, off))| == |Flat(cs)| - off
    ensures off == 0 ==> Bytes(SourcesOf(cs, off)) == Flat(cs)
  {
    var src := SourcesOf(cs, off);
    TakenBytes(cs, src, 0, off, |src|);
    assert src[..|src|] == src && cs[..|cs|] == cs && cs[..0] == [];
  }

  /** The first chunk comes first. */
  lemma {:induction false} Heads(cs: seq<Chunk>, off: nat, k: nat)
    requires cs != [] && off <= |cs[0].bytes| && k < |cs[0].bytes|
    ensures k < |Flat(cs)| && Flat(cs)[k] == cs[0].bytes[k]
    ensures k < |cs[0].bytes| - off ==> k < |Bytes(SourcesOf(cs, off))| && Bytes(SourcesOf(cs, off))[k] == cs[0].bytes[k]
  {
    FlatPrefix(cs, 1);
    assert cs[..1] == [cs[0]];
    FlatOne(cs[0]);
    var src := SourcesOf(cs, off);
    BytesStep(src, 0);
    assert Bytes(src[..0]) == [];
  }

  lemma {:induction false} AlikeLength(cs: seq<Chunk>, cs': seq<Chunk>)
    requires Alike(cs, cs')
    ensures |Flat(cs')| == |Flat(cs)|
  {
    if cs != [] {
      AlikeLength(cs[..|cs| - 1], cs'[..|cs'| - 1]);
    }
  }

  /** Contents that show the difference. */
  function Telling(cs: seq<Chunk>): (r: seq<Chunk>)
    requires cs != [] && cs[0].bytes != []
    ensures Alike(cs, r)
  {
    var c := cs[0];
    [c.(bytes := [0] + seq(|c.bytes| - 1, _ => 1))] + cs[1..]
  }

  /** MAIN RESULT on partly read buffers: a read of `n` bytes is right for all contents of
      the packets if and only if it starts at the beginning of a buffer or asks for
      nothing.  (The copy loop ignores the offset of a partly read buffer.) */
  lemma {:induction false} RightForAllContentsIff(cs: seq<Chunk>, off: nat, n: nat)
    requires cs != [] && off < |cs[0].bytes| && off + n <= |Flat(cs)|
    ensures |Bytes(SourcesOf(cs, off))| == |Flat(cs)| - off
    ensures (forall cs' :: Alike(cs, cs') ==> RightFor(cs', off, n)) <==> off == 0 || n == 0
  {
    hide Bytes, Flat, SourcesOf;
    SourcesOfMatch(cs, off);
    if off == 0 || n == 0 {
      forall cs' | Alike(cs, cs') ensures RightFor(cs', off, n) {
        SourcesOfMatch(cs', off);
        AlikeLength(cs, cs');
      }
    } else {
      var t := Telling(cs);
      AlikeLength(cs, t);
      SourcesOfMatch(t, off);
      Heads(t, off, 0);
      Heads(t, off, off);
      assert Got(t, off, n)[0] == 0 && Due(t, off, n)[0] == 1;
      assert Alike(cs, t) && !RightFor(t, off, n);
    }
  }

  predicate RightFor(cs: seq<Chunk>, off: nat, n: nat)
  {
    cs != [] && off <= |cs[0].bytes| && off + n <= |Flat(cs)| && n <= |Bytes(SourcesOf(cs, off))| &&
    Got(cs, off, n) == Due(cs, off, n)
  }

  /** In every reachable state, and at any moment of a service, a read is given `Got` of
      the unread chunks. */
  lemma {:induction false} NextReadGets(y: Sys, r0: nat, rd: Read)
    requires Core(y, r0) && Sane(rd) && (rd.sgIdx == 0 || rd.sgIdx < |rd.sg|)
    requires y.rx.bufsz > 0 && y.n <= |y.pkts| && y.read < Taken0(y)
    ensures Shape(y.rx) && Taken0(y) <= |Stream(y)| && ReadCore(y.rx, rd).rv >= 0 && ReadShape(ReadCore(y.rx, rd).rd)
    ensures var cs, n := Stream(y)[y.read..Taken0(y)], ReadCore(y.rx, rd).rv;
            && y.off <= |cs[0].bytes| && n <= |Bytes(SourcesOf(cs, y.off))|
            && NewBytes(rd, ReadCore(y.rx, rd).rd) == Got(cs, y.off, n)
            && Sources(y.rx.fl, y.rx.bufsz) == SourcesOf(cs, y.off)
  {
    hide Chunks, Base, Released, CrOk, FlShape, CrShape, Flat, Sources, Bytes, UnreadFrom, CleanFrom, LoadedFrom,
         Delivered, ReadCore, NewBytes, SourcesOf, RoomAt;
    RingsFacts(y, r0);
    SourcesAre(y.rx.fl, y.rx.bufsz, Stream(y), |y.rx.cr.mem|, r0, y.read, y.off, Taken0(y));
    ReadIs(y.rx, rd);
    var cs := Stream(y)[y.read..Taken0(y)];
    var src := Sources(y.rx.fl, y.rx.bufsz);
    SourcesOfMatch(cs, y.off);
    forall q | 0 <= q < |src| ensures src[q] == SourcesOf(cs, y.off)[q] {
      assert SourceMatches(src[q], Stream(y)[y.read + q].bytes, if q == 0 then y.off else 0);
      assert SourceMatches(SourcesOf(cs, y.off)[q], cs[0 + q].bytes, if q == 0 then y.off else 0);
    }
    assert src == SourcesOf(cs, y.off);
  }

  /* ---- a read that waits beside unread data ---- */

  /** A waiting read waits for the hardware only. */
  predicate Drained(y: Sys)
  {
    y.rx.pend != [] ==> y.rx.bufsz > 0 && y.n <= |y.pkts| && y.read == Taken0(y)
  }

  lemma {:induction false} DrainedPacket(y: Sys, p: seq<bv8>)
    requires Inv(y) && Shape(y.rx)
    ensures Drained(AfterPacket(y, p)) <==> Drained(y)
  {
    hide Chunks, Base, Released, CrOk, FlShape, CrShape, Accounts, Deliver, PktChunks, CmplLog, UnreadFrom, CleanFrom, LoadedFrom;
    StreamGrows(y, p);
  }

  lemma {:induction false} NothingToRead(y: Sys)
    requires Inv(y) && y.rx.bufsz > 0 && y.n <= |y.pkts| && y.read == Taken0(y)
    ensures Shape(y.rx) && Sources(y.rx.fl, y.rx.bufsz) == []
  {
    RingsFacts(y, y.read);
    SourcesAre(y.rx.fl, y.rx.bufsz, Stream(y), |y.rx.cr.mem|, y.read, y.read, y.off, Taken0(y));
  }

  lemma {:induction false} DrainedSubmit(y: Sys, rd: Read)
    requires Inv(y) && Fresh(rd) && Shape(y.rx) && ReadShape(rd) && rd.sgIdx == 0 && Drained(y)
    ensures Drained(AfterSubmit(y, rd))
  {
    hide Inv, Chunks, FlShape, CrShape, Sources, ReadCore, NewBytes, Fresh, ReadShape, Core, Taken, Partial;
    ReadNowIs(y, rd);
    if y.rx.pend != [] {
      InvCore(y);
      NothingToRead(y);
      FreshSane(rd);
      ReadNothing(y, rd);
    } else {
      ReadCoreFields(y.rx, rd);
      HandbackAt(y);
    }
  }

  lemma {:induction false} FreshSane(rd: Read)
    requires Fresh(rd)
    ensures Sane(rd) && ReadShape(rd) && rd.sgIdx == 0
  {
  }

  lemma {:induction false} HandbackAt(y: Sys)
    requires Inv(y)
    ensures y.rx.fl.pidxPend < |y.rx.fl.bufs|
  {
  }

  lemma {:induction false} DrainedService(y: Sys, budget: nat)
    requires Inv(y) && Shape(y.rx) && Drained(y)
    ensures Drained(AfterService(y, budget))
  {
    hide Chunks, FlShape, CrShape, ServiceRx, AfterServe, Collect, FlOk, CrOk, Accounts, ReadsOk, Slot, Delta;
    ServiceKeeps(y, budget);
    WaitingIs(y, y.read);
  }

  /** MAIN RESULT on waiting: a read waits beside unread data if and only if it joined the
      waiting reads at a moment when there was unread data, taken over between the two
      halves of its submission.  Every other step keeps waiting reads waiting for the
      hardware only. */
  lemma {:induction false} WaitsBesideDataIff(y: Sys, st: Step)
    requires Inv(y) && Drained(y)
    ensures Shape(y.rx) && y.n <= |y.pkts|
    ensures !Drained(Apply(y, st)) <==> st.Join? && st.k < |y.limbo| && y.read != Taken0(y)
  {
    hide Inv, AfterPacket, AfterService, AfterSubmit, Taken0, Fresh, RoomForPacket, FlShape, CrShape;
    Registers(y);
    RingCounts(y);
    if Enabled(y, st) {
      match st {
        case Packet(p) => DrainedPacket(y, p);
        case Report(status) => SameTaken(y, y.(status := status));
        case Service(budget) => DrainedService(y, budget);
        case Submit(rd) => FreshSane(rd); DrainedSubmit(y, rd);
        case Join(k) => SameTaken(y, AfterEnqueue(y, k));
      }
    }
  }

  lemma {:induction false} RingCounts(y: Sys)
    requires Inv(y)
    ensures y.n <= |y.pkts|
  {
  }

  lemma {:induction false} SameTaken(y: Sys, y': Sys)
    requires y.rx.bufsz > 0 && y.n <= |y.pkts|
    requires y'.rx.bufsz == y.rx.bufsz && y'.n == y.n && y'.pkts == y.pkts
    ensures Taken0(y') == Taken0(y)
  {
  }

  /** The joining, if any, finds everything read. */
  predicate JoinsDrained(y: Sys, st: Step)
    requires y.rx.bufsz > 0 && y.n <= |y.pkts|
  {
    st.Join? && st.k < |y.limbo| ==> y.read == Taken0(y)
  }

  lemma {:induction false} ExecCounts(pages: seq<seq<bv8>>, bufsz: nat, wsz: nat, uddEn: bool, steps: seq<Step>)
    requires Pages(pages, bufsz, wsz)
    ensures var y := Exec(pages, bufsz, wsz, uddEn, steps);
            y.rx.bufsz > 0 && y.n <= |y.pkts|
  {
    hide Exec, FlOk, CrOk, Accounts, FlShape, CrShape, Chunks, Base, Released;
  }

  /** Waiting reads wait for the hardware only, from the start of a run to its end. */
  ghost predicate AlwaysDrained(pages: seq<seq<bv8>>, bufsz: nat, wsz: nat, uddEn: bool, steps: seq<Step>)
    requires Pages(pages, bufsz, wsz)
  {
    forall i :: 0 <= i <= |steps| ==> Drained(Exec(pages, bufsz, wsz, uddEn, steps[..i]))
  }

  ghost predicate AlwaysJoinsDrained(pages: seq<seq<bv8>>, bufsz: nat, wsz: nat, uddEn: bool, steps: seq<Step>)
    requires Pages(pages, bufsz, wsz)
  {
    forall i :: 0 <= i < |steps| ==>
      (ExecCounts(pages, bufsz, wsz, uddEn, steps[..i]);
       JoinsDrained(Exec(pages, bufsz, wsz, uddEn, steps[..i]), steps[i]))
  }

  /** MAIN RESULT on waiting, over runs: no read ever waits beside unread data if and only
      if every read that joins the waiting ones finds everything taken over already read. */
  lemma {:induction false} DrainedThroughoutIff(pages: seq<seq<bv8>>, bufsz: nat, wsz: nat, uddEn: bool, steps: seq<Step>)
    requires Pages(pages, bufsz, wsz)
    ensures AlwaysDrained(pages, bufsz, wsz, uddEn, steps) <==> AlwaysJoinsDrained(pages, bufsz, wsz, uddEn, steps)
  {
    hide Exec, Inv, Apply, Taken0, Drained;
    if |steps| == 0 {
      assert steps[..0] == steps;
      DrainedAtStart(pages, bufsz, wsz, uddEn);
    } else {
      var last := |steps| - 1;
      var y := Exec(pages, bufsz, wsz, uddEn, steps[..last]);
      assert forall i :: 0 <= i <= last ==> steps[..last][..i] == steps[..i];
      assert steps[..|steps|] == steps;
      DrainedThroughoutIff(pages, bufsz, wsz, uddEn, steps[..last]);
      OneStep(pages, bufsz, wsz, uddEn, steps, last);
      ExecCounts(pages, bufsz, wsz, uddEn, steps[..last]);
      if Drained(y) {
        WaitsBesideDataIff(y, steps[last]);
      }
    }
  }

  lemma {:induction false} DrainedAtStart(pages: seq<seq<bv8>>, bufsz: nat, wsz: nat, uddEn: bool)
    requires Pages(pages, bufsz, wsz)
    ensures Drained(Exec(pages, bufsz, wsz, uddEn, []))
  {
    hide Inv, Apply;
  }

  /* ---- concrete runs ---- */

  /** A read of one byte. */
  function OneByte(id: nat): Read
  {
    Read(id, false, [Window(0, 1)], [[0]], 1, 1, 0, 0)
  }

  lemma {:induction false} OneByteFresh(id: nat)
    ensures Fresh(OneByte(id)) && ReadShape(OneByte(id)) && OneByte(id).left == 1
  {
    assert RoomAt([Window(0, 1)], 0, 0) == 1 + Room([Window(0, 1)], 1) == 1;
  }

  /** A read of one byte takes the first byte of the first unread buffer, whatever its
      offset; and it ends inside the buffer if more than one byte is left there. */
  lemma {:induction false} TakesFirst(y: Sys, r0: nat, id: nat)
    requires Core(y, r0) && y.rx.bufsz > 0 && y.n <= |y.pkts| && y.read < Taken0(y) <= |Stream(y)|
    requires y.off < |Stream(y)[y.read].bytes|
    ensures Shape(y.rx) && ReadShape(OneByte(id)) && ReadCore(y.rx, OneByte(id)).rd.left == 0
    ensures ReadCore(y.rx, OneByte(id)).rv == 1
    ensures NewBytes(OneByte(id), ReadCore(y.rx, OneByte(id)).rd) == [Stream(y)[y.read].bytes[0]]
    ensures |Stream(y)[y.read].bytes| - y.off > 1 ==> Taken(y.rx, OneByte(id)) == 0 && Partial(y.rx, OneByte(id)) == 1
  {
    hide Core, Chunks, Flat, Sources, Bytes, ReadCore, NewBytes, SourcesOf, Taken, Partial, RoomAt;
    var rd := OneByte(id);
    OneByteFresh(id);
    NextReadGets(y, r0, rd);
    ReadIs(y.rx, rd);
    var cs := Stream(y)[y.read..Taken0(y)];
    var src := SourcesOf(cs, y.off);
    FirstSource(cs, y.off);
    BytesOne(src);
    BytesMore(src, Taken(y.rx, rd));
    BytesMore(src, |src|);
    assert src[..|src|] == src;
  }

  lemma {:induction false} FirstSource(cs: seq<Chunk>, off: nat)
    requires cs != [] && off <= |cs[0].bytes|
    ensures SourcesOf(cs, off)[0] == cs[0].bytes[..|cs[0].bytes| - off]
  {
  }

  lemma {:induction false} BytesOne(src: seq<seq<bv8>>)
    requires src != []
    ensures Bytes(src[..1]) == src[0] && Bytes(src[..0]) == []
  {
    BytesStep(src, 0);
  }

  lemma {:induction false} BytesMore(src: seq<seq<bv8>>, i: nat)
    requires src != [] && i <= |src|
    ensures i > 0 ==> src[0] <= Bytes(src[..i])
    decreases i
  {
    if i > 1 {
      BytesMore(src, i - 1);
      BytesStep(src, i - 1);
    } else {
      BytesOne(src);
    }
  }

  /** Nothing has arrived yet; `pend` wait, and `limbo` are about to. */
  ghost predicate Idle(y: Sys, bufsz: nat, pend: seq<Read>, limbo: seq<Read>)
  {
    && Inv(y) && y.rx.bufsz == bufsz > 0 && |y.rx.fl.bufs| >= 2 && |y.rx.cr.mem| >= 2
    && y.pkts == [] && y.n == y.read == y.off == y.status == 0 && Delivered(y.log) == []
    && y.rx.pend == pend && y.limbo == limbo && y.filled == []
  }

  lemma {:induction false} IdleFacts(y: Sys, bufsz: nat, pend: seq<Read>, limbo: seq<Read>)
    requires Idle(y, bufsz, pend, limbo)
    ensures Shape(y.rx) && |Stream(y)| == 0 && Taken0(y) == 0 && Rel(y) == 0
  {
    hide Inv, FlShape, CrShape;
    Registers(y);
  }

  lemma {:induction false} IdleStart(pages: seq<seq<bv8>>, bufsz: nat, wsz: nat, uddEn: bool)
    requires Pages(pages, bufsz, wsz) && |pages| >= 2 && wsz >= 2
    ensures Idle(Exec(pages, bufsz, wsz, uddEn, []), bufsz, [], [])
  {
    hide Inv, Apply;
  }

  lemma {:induction false} IdleSubmit(y: Sys, bufsz: nat, pend: seq<Read>, limbo: seq<Read>)
    requires Idle(y, bufsz, pend, limbo)
    ensures var rd := OneByte(|pend| + |limbo|);
            Idle(Apply(y, Submit(rd)), bufsz, pend, limbo + [rd])
  {
    hide Inv, Core, FlShape, CrShape, Sources, ReadCore, Fresh, ReadShape, Delivered, NewBytes;
    var rd := OneByte(|pend| + |limbo|);
    IdleFacts(y, bufsz, pend, limbo);
    OneByteFresh(rd.id);
    FreshSane(rd);
    Registers(y);
    NothingToRead(y);
    ReadNothing(y, rd);
    ReadNowIs(y, rd);
    NoNewBytes(rd);
    DeliveredStep(y.log, Move(rd.id, []));
  }

  lemma {:induction false} NoNewBytes(rd: Read)
    requires ReadShape(rd)
    ensures NewBytes(rd, rd) == []
  {
  }

  lemma {:induction false} IdleJoin(y: Sys, bufsz: nat, pend: seq<Read>, limbo: seq<Read>)
    requires Idle(y, bufsz, pend, limbo) && limbo != []
    ensures Idle(Apply(y, Join(0)), bufsz, pend + [limbo[0]], limbo[1..])
  {
    hide Inv, FlShape, CrShape, ReadShape, Delivered;
    Registers(y);
    assert limbo[..0] + limbo[1..] == limbo[1..];
  }

  /** One packet has arrived, and one byte of it has been read. */
  ghost predicate Begun(y: Sys, p: seq<bv8>, limbo: seq<Read>)
    requires |p| > 0
  {
    && Inv(y) && y.rx.bufsz >= |p| && y.pkts == [p] && y.n == y.status == 1 && y.read == 0 && y.off == 1
    && Delivered(y.log) == [p[0]] && y.rx.pend == [] && y.limbo == limbo && |y.filled| == 1
  }

  lemma {:induction false} OnePacket(p: seq<bv8>, bufsz: nat)
    requires 0 < |p| <= bufsz
    ensures Chunks([p], bufsz) == [Chunk(p, true, true, 0)]
    ensures Base([p], bufsz, 0) == 0 && Base([p], bufsz, 1) == 1
    ensures BufsFor(|p|, bufsz) == 1 && Payload([p]) == p
  {
    assert [p][..0] == [] && [p][..1] == [p];
    BufsForStep(|p|, bufsz);
    assert Payload([p][..0]) == [] && Chunks([p][..0], bufsz) == [];
  }

  lemma {:induction false} IdlePacket(y: Sys, p: seq<bv8>, limbo: seq<Read>)
    requires 0 < |p| && y.rx.bufsz >= |p| && Idle(y, y.rx.bufsz, [OneByte(0)], limbo)
    ensures Shape(y.rx) && Apply(y, Packet(p)) == AfterPacket(y, p)
  {
    hide Inv, RoomForPacket, AfterPacket, Chunks, Base, Released, Shape, BufsFor;
    Registers(y);
    IdleFacts(y, y.rx.bufsz, [OneByte(0)], limbo);
    OnePacket(p, y.rx.bufsz);
    RoomIs(y, |p|);
  }

  /** The packet has arrived and is reported. */
  ghost predicate Arrived(y: Sys, p: seq<bv8>, limbo: seq<Read>)
  {
    && Inv(y) && y.rx.bufsz >= |p| && y.pkts == [p] && y.n == y.read == y.off == 0 && y.status == 1
    && Delivered(y.log) == [] && y.rx.pend == [OneByte(0)] && y.limbo == limbo && y.filled == []
  }

  lemma {:induction false} Arrives(y: Sys, p: seq<bv8>, limbo: seq<Read>)
    requires 0 < |p| && y.rx.bufsz >= |p| && Idle(y, y.rx.bufsz, [OneByte(0)], limbo)
    ensures Arrived(Apply(Apply(y, Packet(p)), Report(1)), p, limbo)
  {
    hide Inv, FlShape, CrShape, PktChunks, CmplLog, Deliver, Delivered, Chunks;
    IdlePacket(y, p, limbo);
    Registers(Apply(y, Packet(p)));
  }

  lemma {:induction false} ServeOne(y: Sys, p: seq<bv8>, limbo: seq<Read>)
    requires |p| > 1 && Arrived(y, p, limbo)
    ensures Begun(Apply(y, Service(0)), p, limbo)
  {
    hide Inv, Core, FlShape, CrShape, Collect, ServiceRx, AfterServe, Slot, Delta, Chunks, Delivered, Shape, Base;
    Registers(y);
    InvCore(y);
    CoreFacts(y, y.read);
    InvRings(y);
    WaitingIs(y, y.read);
    OnePacket(p, y.rx.bufsz);
    CollectKeeps(y, y.read, 1);
    ServiceTakes(y, 0, Slot(y.status, |y.rx.cr.mem|), 1);
    ServiceMiddle(y, y.read, 1);
    AfterServiceIs(y, 0);
    var y1 := y.(rx := Collect(y.rx, 1).rx, n := y.n + 1);
    CollectSizes(y.rx, 1);
    ServeTheOne(y1, y.read, p);
  }

  lemma {:induction false} InvRings(y: Sys)
    requires Inv(y)
    ensures RingsOk(y, y.read) && y.rx.regPidx == Slot(y.read + |y.rx.fl.bufs| - 1, |y.rx.fl.bufs|)
  {
    hide RingsOk;
    CoreFacts(y, y.read);
  }

  lemma {:induction false} ServeTheOne(y: Sys, r0: nat, p: seq<bv8>)
    requires Core(y, r0) && |p| > 1 && y.rx.bufsz >= |p| && y.pkts == [p] && y.n == 1 && y.read == y.off == 0
    requires Delivered(y.log) == [] && y.rx.pend == [OneByte(0)] && y.filled == []
    ensures Shape(y.rx)
    ensures var y' := AfterServe(y);
            && y'.pkts == y.pkts && y'.n == 1 && y'.status == y.status && y'.read == 0 && y'.off == 1 && y'.limbo == y.limbo
            && Delivered(y'.log) == [p[0]] && y'.rx.pend == [] && |y'.filled| == 1
  {
    hide Core, FlShape, CrShape, ReadCore, NewBytes, Taken, Partial, Delivered, Chunks, Base;
    CoreFacts(y, r0);
    OnePacket(p, y.rx.bufsz);
    TakesFirst(y, r0, 0);
    var rd := OneByte(0);
    var r := ReadCore(y.rx, rd);
    ReadCoreFields(y.rx, rd);
    DeliveredStep(y.log, Move(0, [p[0]]));
    var y2 := AfterRead(y, rd).(rx := Finish(r.rx, r.rd, 0), filled := y.filled + [r.rd]);
    assert y2.rx.pend == [];
    assert AfterServe(y2) == y2;
    assert AfterServe(y) == y2;
  }

  /** A packet arrives for a waiting read of one byte, and a second one follows. */
  function SplitRun(p: seq<bv8>): seq<Step>
  {
    [Submit(OneByte(0)), Join(0), Packet(p), Report(1), Service(0), Submit(OneByte(1))]
  }

  lemma {:induction false} AgainTheFirst(y: Sys, p: seq<bv8>)
    requires |p| > 1 && Begun(y, p, [])
    ensures var y' := Apply(y, Submit(OneByte(1)));
            y'.pkts == [p] && Delivered(y'.log) == [p[0], p[0]]
  {
    hide Inv, Core, FlShape, CrShape, ReadCore, ReadNow, NewBytes, Taken, Partial, Delivered, Chunks, Base, Fresh, ReadShape;
    var rd := OneByte(1);
    OneByteFresh(1);
    Registers(y);
    InvCore(y);
    CoreFacts(y, y.read);
    OnePacket(p, y.rx.bufsz);
    TakesFirst(y, y.read, 1);
    ReadNowIs(y, rd);
    DeliveredStep(y.log, Move(1, [p[0]]));
  }

  lemma {:induction false} SplitRunBegins(y: Sys, bufsz: nat, p: seq<bv8>)
    requires Idle(y, bufsz, [], []) && 1 < |p| <= bufsz
    ensures Inv(y)
    ensures Begun(Apply(Apply(Apply(Apply(Apply(y, Submit(OneByte(0))), Join(0)), Packet(p)), Report(1)), Service(0)), p, [])
  {
    hide Inv, Arrived, Begun, Apply, OneByte;
    var y1 := Apply(y, Submit(OneByte(0)));
    IdleSubmit(y, bufsz, [], []);
    assert [] + [OneByte(0)] == [OneByte(0)] && [OneByte(0)][1..] == [];
    IdleJoin(y1, bufsz, [], [OneByte(0)]);
    var y2 := Apply(y1, Join(0));
    Arrives(y2, p, []);
    ServeOne(Apply(Apply(y2, Packet(p)), Report(1)), p, []);
  }

  lemma {:induction false} SameTwice(p: seq<bv8>, d: seq<bv8>)
    requires |p| > 1 && d == [p[0], p[0]]
    ensures d <= p <==> p[0] == p[1]
  {
    assert d[1] == p[0];
  }

  /** A run in which reading goes wrong: of a packet of two bytes or more that fits one
      buffer, two reads of one byte each both get the first byte.  So what is delivered is
      a prefix of the payload only if the first two bytes happen to agree. */
  lemma {:induction false} SecondReadRepeatsTheFirst(pages: seq<seq<bv8>>, bufsz: nat, wsz: nat, uddEn: bool, p: seq<bv8>)
    requires Pages(pages, bufsz, wsz) && |pages| >= 2 && wsz >= 2 && 1 < |p| <= bufsz
    ensures var y := Exec(pages, bufsz, wsz, uddEn, SplitRun(p));
            && Payload(y.pkts) == p && Delivered(y.log) == [p[0], p[0]]
            && (Delivered(y.log) <= Payload(y.pkts) <==> p[0] == p[1])
  {
    hide Exec, Idle, Inv, Begun, Delivered, Apply, OneByte, Payload, Chunks, Base, BufsFor;
    var y := Exec(pages, bufsz, wsz, uddEn, []);
    IdleStart(pages, bufsz, wsz, uddEn);
    RunOfSix(pages, bufsz, wsz, uddEn, SplitRun(p));
    SplitRunBegins(y, bufsz, p);
    AgainTheFirst(Apply(Apply(Apply(Apply(Apply(y, Submit(OneByte(0))), Join(0)), Packet(p)), Report(1)), Service(0)), p);
    OnePacket(p, bufsz);
    SameTwice(p, [p[0], p[0]]);
  }

  lemma {:induction false} RunOfSix(pages: seq<seq<bv8>>, bufsz: nat, wsz: nat, uddEn: bool, s: seq<Step>)
    requires Pages(pages, bufsz, wsz) && |s| >= 6
    ensures Exec(pages, bufsz, wsz, uddEn, s[..6]) ==
            Apply(Apply(Apply(Apply(Apply(Apply(Exec(pages, bufsz, wsz, uddEn, []), s[0]), s[1]), s[2]), s[3]), s[4]), s[5])
    ensures |s| == 6 ==> s[..6] == s
  {
    hide Exec, Apply, Inv;
    assert s[..0] == [];
    OneStep(pages, bufsz, wsz, uddEn, s, 0);
    OneStep(pages, bufsz, wsz, uddEn, s, 1);
    OneStep(pages, bufsz, wsz, uddEn, s, 2);
    OneStep(pages, bufsz, wsz, uddEn, s, 3);
    OneStep(pages, bufsz, wsz, uddEn, s, 4);
    OneStep(pages, bufsz, wsz, uddEn, s, 5);
  }

  /** A packet arrives and is served between the two halves of the second submission. */
  function LateRun(p: seq<bv8>): seq<Step>
  {
    [Submit(OneByte(0)), Submit(OneByte(1)), Join(0), Packet(p), Report(1), Service(0), Join(0)]
  }

  /** Without completions to take over, a service does nothing. */
  lemma {:induction false} ServiceIsIdle(y: Sys, budget: nat)
    requires Inv(y) && y.status == y.n
    ensures Apply(y, Service(budget)) == y
  {
    hide Core, FlShape, CrShape, ReadShape, RingsOk, Slot, Delta;
    Registers(y);
    InvRings(y);
    WaitingIs(y, y.read);
  }

  lemma {:induction false} JoinsLate(y: Sys, p: seq<bv8>, budget: nat)
    requires |p| > 1 && Begun(y, p, [OneByte(1)])
    ensures var y' := Apply(y, Join(0));
            && y'.rx.pend == [OneByte(1)] && y'.rx.pktDlen == |p| - 1 && !Drained(y')
            && Apply(y', Service(budget)) == y'
  {
    hide Inv, FlShape, CrShape, Delivered, Chunks, Base, ReadShape, Payload;
    Registers(y);
    OnePacket(p, y.rx.bufsz);
    var y' := Apply(y, Join(0));
    ServiceIsIdle(y', budget);
    StreamAndAccounts(y');
    assert y'.pkts[..1] == [p];
  }

  lemma {:induction false} LateRunBegins(y: Sys, bufsz: nat, p: seq<bv8>)
    requires Idle(y, bufsz, [], []) && 1 < |p| <= bufsz
    ensures Inv(y)
    ensures Begun(Apply(Apply(Apply(Apply(Apply(Apply(y, Submit(OneByte(0))), Submit(OneByte(1))), Join(0)),
                                    Packet(p)), Report(1)), Service(0)), p, [OneByte(1)])
  {
    hide Inv, Arrived, Begun, Apply, OneByte;
    var a, b := OneByte(0), OneByte(1);
    var y1 := Apply(y, Submit(a));
    assert [] + [a] == [a] && [a] + [b] == [a, b] && [a, b][1..] == [b];
    IdleSubmit(y, bufsz, [], []);
    var y2 := Apply(y1, Submit(b));
    IdleSubmit(y1, bufsz, [], [a]);
    var y3 := Apply(y2, Join(0));
    IdleJoin(y2, bufsz, [], [a, b]);
    Arrives(y3, p, [b]);
    ServeOne(Apply(Apply(y3, Packet(p)), Report(1)), p, [b]);
  }

  /** A run in which a read waits although a byte for it has arrived and been taken over,
      and however often the queue is served, nothing changes until the next packet. */
  lemma {:induction false} WaitsBesideUnreadData(pages: seq<seq<bv8>>, bufsz: nat, wsz: nat, uddEn: bool, p: seq<bv8>, budget: nat)
    requires Pages(pages, bufsz, wsz) && |pages| >= 2 && wsz >= 2 && 1 < |p| <= bufsz
    ensures var y := Exec(pages, bufsz, wsz, uddEn, LateRun(p));
            && y.rx.pend == [OneByte(1)] && y.rx.pktDlen == |p| - 1 > 0 && !Drained(y)
            && Apply(y, Service(budget)) == y
  {
    hide Exec, Idle, Inv, Begun, Apply, OneByte, Drained;
    var s := LateRun(p);
    var y := Exec(pages, bufsz, wsz, uddEn, []);
    IdleStart(pages, bufsz, wsz, uddEn);
    RunOfSix(pages, bufsz, wsz, uddEn, s);
    OneStep(pages, bufsz, wsz, uddEn, s, 6);
    assert s[..7] == s;
    LateRunBegins(y, bufsz, p);
    JoinsLate(Apply(Apply(Apply(Apply(Apply(Apply(y, Submit(OneByte(0))), Submit(OneByte(1))), Join(0)),
                                    Packet(p)), Report(1)), Service(0)), p, budget);
  }
}
