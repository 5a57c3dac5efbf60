/** The bit layouts shared with the hardware: queue contexts (libqdma/qdma_context.c),
    descriptor lengths, and completion entries (libqdma/qdma_regs.h). */
module QueueContext {

  import Sgl = ScatterGather
  import Tiling = TransmitTiling

  const EINVAL: int := -22

  /** The field of `word` at the given shift and mask. */
  function Field(word: bv32, shift: nat, mask: bv32): bv32
    requires shift < 32
  {
    (word >> shift) & mask
  }

  /* ---- completion ring context ---- */

  /** What goes into the completion context of a queue. */
  datatype Wrb = Wrb(statEn: bv32, intEn: bv32, trigMode: bv32, fncId: bv32, counterIdx: bv32,
                     timerIdx: bv32, rngSz: bv32, descSize: bv32, bus: bv64)

  /** The widths the layout gives to the fields, and the alignment of the ring. */
  predicate WrbInRange(f: Wrb)
  {
    && f.statEn <= 1 && f.intEn <= 1 && f.trigMode <= 0x7 && f.fncId <= 0xFF && f.counterIdx <= 0xF
    && f.timerIdx <= 0xF && f.rngSz <= 0xF && f.descSize <= 0x3
    && f.bus & 0x3F == 0
  }

  function High(bus: bv64): bv64
  {
    (bus >> 16) >> 16
  }

  function Low(bus: bv64): bv64
  {
    bus & 0xFFFF_FFFF
  }

  /** The ring address in units of 64 bytes. */
  function Bus64(bus: bv64): bv64
  {
    (High(bus) << 26) | (Low(bus) >> 6)
  }

  /** Conversion to an unsigned 32-bit word drops the upper half. */
  function Word(x: bv64): bv32
  {
    (x & 0xFFFF_FFFF) as bv32
  }

  /** The first word of the context, from its fields. */
  function Pack0(statEn: bv32, intEn: bv32, trigMode: bv32, fncId: bv32, counterIdx: bv32, timerIdx: bv32,
                 rngSz: bv32, addr: bv32): bv32
  {
    (statEn << 0) | (intEn << 1) | (trigMode << 2) | ((fncId & 0xFF) << 5)
    | (timerIdx << 17) | (counterIdx << 13) | (1 << 23) | (rngSz << 24) | ((addr & 0xF) << 28)
  }

  /** The third word of the context. */
  function Pack2(addr: bv32, descSize: bv32): bv32
  {
    ((addr & 0x3F_FFFF) << 0) | (descSize << 22)
  }

  /** The address in three parts of 4, 32 and 22 bits. */
  function AddrLow(bus: bv64): bv32 { Word(Bus64(bus) & 0xF) }
  function AddrMid(bus: bv64): bv32 { Word((Bus64(bus) >> 4) & 0xFFFF_FFFF) }
  function AddrHigh(bus: bv64): bv32 { Word((Bus64(bus) >> 36) & 0x3F_FFFF) }

  /** The words `make_wrb_context` stores. */
  function WrbWord0(f: Wrb): bv32
  {
    Pack0(f.statEn, f.intEn, f.trigMode, f.fncId, f.counterIdx, f.timerIdx, f.rngSz, AddrLow(f.bus))
  }

  function WrbWord1(f: Wrb): bv32 { AddrMid(f.bus) }

  function WrbWord2(f: Wrb): bv32 { Pack2(AddrHigh(f.bus), f.descSize) }

  const WRB_WORD3: bv32 := 1 << 24

  /** The address put together again from its three parts. */
  function JoinAddr(low: bv32, mid: bv32, high: bv32): bv64
  {
    ((low as bv64) | ((mid as bv64) << 4) | ((high as bv64) << 36)) << 6
  }

  /** Reading the words by the declared layout. */
  function DecodeWrb(w0: bv32, w1: bv32, w2: bv32): Wrb
  {
    Wrb(Field(w0, 0, 1), Field(w0, 1, 1), Field(w0, 2, 0x7), Field(w0, 5, 0xFF), Field(w0, 13, 0xF),
        Field(w0, 17, 0xF), Field(w0, 24, 0xF), Field(w2, 22, 0x3),
        JoinAddr(Field(w0, 28, 0xF), w1, Field(w2, 0, 0x3F_FFFF)))
  }

  lemma {:induction false} UnpackLow(a: bv32, b: bv32, c: bv32, d: bv32, e: bv32, g: bv32, h: bv32, x: bv32)
    requires a <= 1 && b <= 1 && c <= 0x7 && d <= 0xFF && e <= 0xF && g <= 0xF && h <= 0xF
    ensures var w := Pack0(a, b, c, d, e, g, h, x);
            && Field(w, 0, 1) == a && Field(w, 1, 1) == b && Field(w, 2, 0x7) == c && Field(w, 5, 0xFF) == d
  {
  }

  lemma {:induction false} UnpackHigh(a: bv32, b: bv32, c: bv32, d: bv32, e: bv32, g: bv32, h: bv32, x: bv32)
    requires a <= 1 && b <= 1 && c <= 0x7 && d <= 0xFF && e <= 0xF && g <= 0xF && h <= 0xF
    ensures var w := Pack0(a, b, c, d, e, g, h, x);
            && Field(w, 13, 0xF) == e && Field(w, 17, 0xF) == g && Field(w, 21, 0x3) == 0 && Field(w, 23, 1) == 1
            && Field(w, 24, 0xF) == h && Field(w, 28, 0xF) == Field(x, 0, 0xF)
  {
  }

  lemma {:induction false} UnpackWord2(x: bv32, d: bv32)
    requires d <= 0x3
    ensures var w := Pack2(x, d);
            Field(w, 0, 0x3F_FFFF) == Field(x, 0, 0x3F_FFFF) && Field(w, 22, 0x3) == d && Field(w, 24, 0xFF) == 0
  {
  }

  /** The 58 significant bits of an address survive the split. */
  lemma {:induction false} AddressSplit(bus: bv64)
    requires bus & 0x3F == 0
    ensures JoinAddr(Field(AddrLow(bus), 0, 0xF), AddrMid(bus), Field(AddrHigh(bus), 0, 0x3F_FFFF)) == bus
  {
  }

  lemma {:induction false} WrbForward(f: Wrb)
    requires WrbInRange(f)
    ensures DecodeWrb(WrbWord0(f), WrbWord1(f), WrbWord2(f)) == f
    ensures Field(WrbWord0(f), 23, 1) == 1 && Field(WrbWord0(f), 21, 0x3) == 0 && Field(WrbWord2(f), 24, 0xFF) == 0
  {
    hide Pack0, Pack2, Field, AddrLow, AddrMid, AddrHigh, JoinAddr;
    UnpackLow(f.statEn, f.intEn, f.trigMode, f.fncId, f.counterIdx, f.timerIdx, f.rngSz, AddrLow(f.bus));
    UnpackHigh(f.statEn, f.intEn, f.trigMode, f.fncId, f.counterIdx, f.timerIdx, f.rngSz, AddrLow(f.bus));
    UnpackWord2(AddrHigh(f.bus), f.descSize);
    AddressSplit(f.bus);
  }

  /** MAIN RESULT: decoding recovers every field and the whole address if and only if the
      inputs are in range; the completion colour starts at 1, and the fields the driver
      leaves alone are zero. */
  lemma {:induction false} WrbRoundTrip(f: Wrb)
    ensures DecodeWrb(WrbWord0(f), WrbWord1(f), WrbWord2(f)) == f <==> WrbInRange(f)
    ensures WrbInRange(f) ==>
              && Field(WrbWord0(f), 23, 1) == 1 && Field(WrbWord0(f), 21, 0x3) == 0
              && Field(WrbWord2(f), 24, 0xFF) == 0
    ensures Field(WRB_WORD3, 24, 1) == 1 && Field(WRB_WORD3, 0, 0xFF) == 0 && Field(WRB_WORD3, 8, 0xFFFF) == 0
  {
    hide Field, DecodeWrb, WrbWord0, WrbWord1, WrbWord2, WrbInRange;
    if WrbInRange(f) {
      WrbForward(f);
    } else {
      Bounded(WrbWord0(f), WrbWord1(f), WrbWord2(f));
    }
    Word3();
  }

  /** Whatever the words hold, the decoded fields are in range. */
  lemma {:induction false} Bounded(w0: bv32, w1: bv32, w2: bv32)
    ensures WrbInRange(DecodeWrb(w0, w1, w2))
  {
  }

  lemma {:induction false} Word3()
    ensures Field(WRB_WORD3, 24, 1) == 1 && Field(WRB_WORD3, 0, 0xFF) == 0 && Field(WRB_WORD3, 8, 0xFFFF) == 0
  {
  }

  /** `make_wrb_context`: the caller's words are cleared and then filled in. */
  method MakeWrbContext(f: Wrb, data: array<bv32>) returns (rv: int)
    modifies data
    ensures data.Length < 4 ==> rv == EINVAL && data[..] == old(data[..])
    ensures data.Length >= 4 ==>
              && rv == 0 && data[3] == WRB_WORD3
              && data[0] == WrbWord0(f) && data[1] == WrbWord1(f) && data[2] == WrbWord2(f)
              && (WrbInRange(f) ==> DecodeWrb(data[0], data[1], data[2]) == f)
              && (forall k :: 4 <= k < data.Length ==> data[k] == 0)
  {
    hide WrbWord0, WrbWord1, WrbWord2, DecodeWrb;
    if data.Length < 4 {
      return EINVAL;
    }
    Clear(data);
    WrbRoundTrip(f);
    data[0] := WrbWord0(f);
    data[1] := WrbWord1(f);
    data[2] := WrbWord2(f);
    data[3] := WRB_WORD3;
    rv := 0;
  }

  /** `memset` to zero. */
  method Clear(data: array<bv32>)
    modifies data
    ensures forall k :: 0 <= k < data.Length ==> data[k] == 0
  {
    for i := 0 to data.Length
      invariant forall k :: 0 <= k < i ==> data[k] == 0
    {
      data[i] := 0;
    }
  }

  /* ---- descriptor ring context ---- */

  /** What goes into the software context of a queue. */
  datatype Sw = Sw(st: bool, c2h: bool, rngSz: bv32, accEn: bv32, pendChk: bv32, funcId: bv32, bypass: bv32,
                   wbkEn: bv32, irqEn: bv32, fetchCredit: bv32, channel: bv32, bus: bv64)

  /** The fields as the hardware reads them. */
  datatype SwFields = SwFields(qen: bv32, fcrdEn: bv32, wbiChk: bv32, accEn: bv32, funcId: bv32, rngSz: bv32,
                               dscSz: bv32, byp: bv32, mmChn: bv32, wbkEn: bv32, irqEn: bv32, bus: bv64)

  /** Only a streaming C2H queue has a credit bit, only a memory-mapped one a channel. */
  predicate SwInRange(f: Sw)
  {
    && f.rngSz <= 0xF && f.accEn <= 1 && f.pendChk <= 1 && f.funcId <= 0xFF && f.bypass <= 1 && f.wbkEn <= 1 && f.irqEn <= 1
    && (f.st && f.c2h ==> f.fetchCredit <= 1) && (!f.st ==> f.channel <= 1)
  }

  /** Descriptor size: 32 bytes memory-mapped, 8 streaming C2H, 16 streaming H2C. */
  function DscSz(st: bool, c2h: bool): bv32
  {
    if !st then 2 else if c2h then 0 else 1
  }

  function Intended(f: Sw): SwFields
  {
    SwFields(1, if f.st && f.c2h then f.fetchCredit else 0, f.pendChk, f.accEn, f.funcId, f.rngSz,
             DscSz(f.st, f.c2h), f.bypass, if f.st then 0 else f.channel, f.wbkEn, f.irqEn, f.bus)
  }

  /** The control word of `make_sw_context`, before and after the part that depends on the
      kind of queue. */
  function SwCommon(rngSz: bv32, accEn: bv32, pendChk: bv32, funcId: bv32, bypass: bv32, wbkEn: bv32, irqEn: bv32): bv32
  {
    (1 << 0) | (rngSz << 12) | (accEn << 3) | (pendChk << 2) | (funcId << 4) | (bypass << 18) | (wbkEn << 20) | (irqEn << 21)
  }

  function SwWord1(f: Sw): bv32
  {
    SwCommon(f.rngSz, f.accEn, f.pendChk, f.funcId, f.bypass, f.wbkEn, f.irqEn) | SwKind(f)
  }

  function DecodeSw(w1: bv32, w2: bv32, w3: bv32): SwFields
  {
    SwFields(Field(w1, 0, 1), Field(w1, 1, 1), Field(w1, 2, 1), Field(w1, 3, 1), Field(w1, 4, 0xFF), Field(w1, 12, 0xF),
             Field(w1, 16, 0x3), Field(w1, 18, 1), Field(w1, 19, 1), Field(w1, 20, 1), Field(w1, 21, 1),
             JoinBus(w3, w2))
  }

  function JoinBus(high: bv32, low: bv32): bv64
  {
    ((high as bv64) << 32) | (low as bv64)
  }

  /** The control word with all three kind-dependent fields. */
  function SwPack(r: bv32, a: bv32, p: bv32, u: bv32, b: bv32, w: bv32, q: bv32, c: bv32, d: bv32, m: bv32): bv32
  {
    SwCommon(r, a, p, u, b, w, q) | KindPack(c, d, m)
  }

  function KindPack(c: bv32, d: bv32, m: bv32): bv32
  {
    (c << 1) | (d << 16) | (m << 19)
  }

  lemma {:induction false} SwUnpackLow(r: bv32, a: bv32, p: bv32, u: bv32, b: bv32, w: bv32, q: bv32, c: bv32, d: bv32, m: bv32)
    requires r <= 0xF && a <= 1 && p <= 1 && u <= 0xFF && b <= 1 && w <= 1 && q <= 1 && c <= 1 && d <= 0x3 && m <= 1
    ensures var x := SwPack(r, a, p, u, b, w, q, c, d, m);
            Field(x, 0, 1) == 1 && Field(x, 1, 1) == c && Field(x, 2, 1) == p && Field(x, 3, 1) == a
  {
  }

  lemma {:induction false} SwUnpackMiddle(r: bv32, a: bv32, p: bv32, u: bv32, b: bv32, w: bv32, q: bv32, c: bv32, d: bv32, m: bv32)
    requires r <= 0xF && a <= 1 && p <= 1 && u <= 0xFF && b <= 1 && w <= 1 && q <= 1 && c <= 1 && d <= 0x3 && m <= 1
    ensures var x := SwPack(r, a, p, u, b, w, q, c, d, m);
            Field(x, 4, 0xFF) == u && Field(x, 12, 0xF) == r
  {
  }

  lemma {:induction false} SwUnpackHigh(r: bv32, a: bv32, p: bv32, u: bv32, b: bv32, w: bv32, q: bv32, c: bv32, d: bv32, m: bv32)
    requires r <= 0xF && a <= 1 && p <= 1 && u <= 0xFF && b <= 1 && w <= 1 && q <= 1 && c <= 1 && d <= 0x3 && m <= 1
    ensures var x := SwPack(r, a, p, u, b, w, q, c, d, m);
            && Field(x, 16, 0x3) == d && Field(x, 18, 1) == b && Field(x, 19, 1) == m
            && Field(x, 20, 1) == w && Field(x, 21, 1) == q
  {
  }

  lemma {:induction false} NoCredit(d: bv32, m: bv32)
    ensures KindPack(0, d, m) == MmKind(d, m)
  {
  }

  lemma {:induction false} NoChannel(c: bv32, d: bv32)
    ensures KindPack(c, d, 0) == StC2hKind(c, d)
    ensures KindPack(0, d, 0) == StH2cKind(d)
  {
  }

  /** The kind-dependent part, in one form. */
  function SwKind(f: Sw): bv32
  {
    if !f.st then MmKind(DscSz(f.st, f.c2h), f.channel)
    else if f.c2h then StC2hKind(f.fetchCredit, DscSz(f.st, f.c2h))
    else StH2cKind(DscSz(f.st, f.c2h))
  }

  function MmKind(d: bv32, m: bv32): bv32
  {
    (d << 16) | (m << 19)
  }

  function StC2hKind(c: bv32, d: bv32): bv32
  {
    (c << 1) | (d << 16)
  }

  function StH2cKind(d: bv32): bv32
  {
    d << 16
  }

  lemma {:induction false} KindIs(f: Sw)
    ensures SwKind(f) == KindPack(if f.st && f.c2h then f.fetchCredit else 0, DscSz(f.st, f.c2h), if f.st then 0 else f.channel)
  {
    hide KindPack, DscSz, MmKind, StC2hKind, StH2cKind;
    NoCredit(DscSz(f.st, f.c2h), f.channel);
    NoChannel(f.fetchCredit, DscSz(f.st, f.c2h));
  }

  lemma {:induction false} SwKindIs(f: Sw)
    ensures var c: bv32, m: bv32 := if f.st && f.c2h then f.fetchCredit else 0, if f.st then 0 else f.channel;
            SwWord1(f) == SwPack(f.rngSz, f.accEn, f.pendChk, f.funcId, f.bypass, f.wbkEn, f.irqEn, c, DscSz(f.st, f.c2h), m)
  {
    hide SwCommon, SwKind, KindPack;
    KindIs(f);
  }

  lemma {:induction false} SwAddress(bus: bv64)
    ensures JoinBus(Word(High(bus)), Word(Low(bus))) == bus
  {
  }

  lemma {:induction false} SwForward(f: Sw)
    requires SwInRange(f)
    ensures DecodeSw(SwWord1(f), Word(Low(f.bus)), Word(High(f.bus))) == Intended(f)
  {
    hide SwPack, SwWord1, Field, Word, High, Low, JoinBus;
    var c, m := if f.st && f.c2h then f.fetchCredit else 0, if f.st then 0 else f.channel;
    SwAddress(f.bus);
    SwKindIs(f);
    SwUnpackLow(f.rngSz, f.accEn, f.pendChk, f.funcId, f.bypass, f.wbkEn, f.irqEn, c, DscSz(f.st, f.c2h), m);
    SwUnpackMiddle(f.rngSz, f.accEn, f.pendChk, f.funcId, f.bypass, f.wbkEn, f.irqEn, c, DscSz(f.st, f.c2h), m);
    SwUnpackHigh(f.rngSz, f.accEn, f.pendChk, f.funcId, f.bypass, f.wbkEn, f.irqEn, c, DscSz(f.st, f.c2h), m);
  }

  /** MAIN RESULT: the hardware reads what was intended, for each kind of queue and with
      the whole ring address, if and only if the inputs are in range. */
  lemma {:induction false} SwRoundTrip(f: Sw)
    ensures DecodeSw(SwWord1(f), Word(Low(f.bus)), Word(High(f.bus))) == Intended(f) <==> SwInRange(f)
  {
    hide SwWord1, DecodeSw, Word, High, Low;
    if SwInRange(f) {
      SwForward(f);
    } else {
      SwBounded(SwWord1(f), Word(Low(f.bus)), Word(High(f.bus)));
    }
  }

  /** The size the hardware reads is that of the descriptors: 32 bytes memory-mapped, 8
      streaming C2H, 16 streaming H2C. */
  lemma {:induction false} HardwareReadsSizes(f: Sw)
    requires SwInRange(f)
    ensures var size := (8 as bv32) << DecodeSw(SwWord1(f), Word(Low(f.bus)), Word(High(f.bus))).dscSz;
            size == if !f.st then 32 else if f.c2h then 8 else 16
  {
    hide SwWord1, DecodeSw, Word, High, Low;
    SwForward(f);
    Sizes(f.st, f.c2h);
  }

  lemma {:induction false} Sizes(st: bool, c2h: bool)
    ensures (8 as bv32) << DscSz(st, c2h) == if !st then 32 else if c2h then 8 else 16
  {
  }

  lemma {:induction false} SwBounded(w1: bv32, w2: bv32, w3: bv32)
    ensures var g := DecodeSw(w1, w2, w3);
            && g.fcrdEn <= 1 && g.wbiChk <= 1 && g.accEn <= 1 && g.funcId <= 0xFF && g.rngSz <= 0xF
            && g.byp <= 1 && g.mmChn <= 1 && g.wbkEn <= 1 && g.irqEn <= 1
  {
  }

  /** `make_sw_context` */
  method MakeSwContext(f: Sw, data: array<bv32>) returns (rv: int)
    modifies data
    ensures data.Length < 4 ==> rv == EINVAL && data[..] == old(data[..])
    ensures data.Length >= 4 ==>
              && rv == 0 && data[0] == 0
              && data[1] == SwWord1(f) && data[2] == Word(Low(f.bus)) && data[3] == Word(High(f.bus))
              && (SwInRange(f) ==> DecodeSw(data[1], data[2], data[3]) == Intended(f))
              && (forall k :: 4 <= k < data.Length ==> data[k] == 0)
  {
    hide SwCommon, SwKind, DecodeSw, Word, High, Low, SwInRange, Intended;
    if data.Length < 4 {
      return EINVAL;
    }
    Clear(data);
    SwRoundTrip(f);
    data[3] := Word(High(f.bus));
    data[2] := Word(Low(f.bus));
    data[1] := SwCommon(f.rngSz, f.accEn, f.pendChk, f.funcId, f.bypass, f.wbkEn, f.irqEn);
    data[1] := data[1] | SwKind(f);
    data[0] := 0;
    rv := 0;
  }

  /* ---- descriptor lengths ---- */

  /** `flag_len` of a memory-mapped descriptor: the length, the valid bit, and the flags. */
  function FlagLen(len: bv32, sop: bool, eop: bool): bv32
  {
    len | (1 << 28) | (if eop then 1 << 30 else 0) | (if sop then 1 << 29 else 0)
  }

  /** The same with the flags as bits. */
  function FlagBits(len: bv32, s: bv32, e: bv32): bv32
  {
    len | (1 << 28) | (e << 30) | (s << 29)
  }

  lemma {:induction false} FlagsApart(len: bv32, s: bv32, e: bv32)
    requires len <= 0xFFF_FFFF && s <= 1 && e <= 1
    ensures var w := FlagBits(len, s, e);
            Field(w, 0, 0xFFF_FFFF) == len && Field(w, 28, 1) == 1 && Field(w, 29, 1) == s && Field(w, 30, 1) == e && Field(w, 31, 1) == 0
  {
  }

  lemma {:induction false} LengthBounded(w: bv32)
    ensures Field(w, 0, 0xFFF_FFFF) <= 0xFFF_FFFF
  {
  }

  lemma {:induction false} FlagLenIs(len: bv32, sop: bool, eop: bool)
    ensures var s: bv32, e: bv32 := if sop then 1 else 0, if eop then 1 else 0;
            FlagLen(len, sop, eop) == FlagBits(len, s, e)
  {
  }

  /** Length and flags can be told apart if and only if the length has at most 28 bits,
      the bound `QDMA_DESC_BLEN_MAX` to which every descriptor is cut. */
  lemma {:induction false} FlagLenRoundTrip(len: bv32, sop: bool, eop: bool)
    ensures var w := FlagLen(len, sop, eop);
            (Field(w, 0, 0xFFF_FFFF) == len && Field(w, 28, 1) == 1 && Field(w, 29, 1) == (if sop then 1 else 0)
             && Field(w, 30, 1) == (if eop then 1 else 0) && Field(w, 31, 1) == 0)
            <==> len <= 0xFFF_FFFF
  {
    hide FlagLen, FlagBits, Field;
    FlagLenIs(len, sop, eop);
    LengthBounded(FlagLen(len, sop, eop));
    if len <= 0xFFF_FFFF {
      FlagsApart(len, if sop then 1 else 0, if eop then 1 else 0);
    }
  }

  /** Whatever the scatter list, the length of every descriptor cut from it, as a word, can be
      told apart from the flags; and the limit to which entries are cut is the largest of
      that kind. */
  lemma {:induction false} DescriptorLengthsFit(sgl: seq<Sgl.Sg>, k: nat, word: bv32, sop: bool, eop: bool)
    requires k < |Sgl.Cuts(Sgl.MM, sgl)| && word as nat == Sgl.Cuts(Sgl.MM, sgl)[k].len
    ensures var w := FlagLen(word, sop, eop);
            Field(w, 0, 0xFFF_FFFF) == word && Field(w, 29, 1) == (if sop then 1 else 0) && Field(w, 30, 1) == (if eop then 1 else 0)
    ensures forall v: bv32 :: v as nat == Sgl.MaxLen(Sgl.MM) + 1 ==> Field(FlagLen(v, sop, eop), 0, 0xFFF_FFFF) != v
  {
    hide FlagLen, Field, Sgl.Cuts;
    var e := Tiling.CutInEntry(Sgl.MM, sgl, k);
    ShortWord(word);
    FlagLenRoundTrip(word, sop, eop);
    forall v: bv32 | v as nat == Sgl.MaxLen(Sgl.MM) + 1 ensures Field(FlagLen(v, sop, eop), 0, 0xFFF_FFFF) != v {
      LongWord(v);
      LengthBounded(FlagLen(v, sop, eop));
    }
  }

  lemma {:induction false} ShortWord(word: bv32)
    requires word as nat <= 0xFFF_FFFF
    ensures word <= 0xFFF_FFFF
  {
  }

  lemma {:induction false} LongWord(word: bv32)
    requires word as nat == 0x1000_0000
    ensures word == 0x1000_0000
  {
  }

  /* ---- completion entries ---- */

  datatype CmplInfo = CmplInfo(format: bool, color: bool, err: bool, descUsed: bool, len: bv64)

  /** `parse_cmpl_entry`, its reading of the first word. */
  function ParseEntry(w: bv64): CmplInfo
  {
    var format, used := w & 1 != 0, w & 8 != 0;
    CmplInfo(format, w & 2 != 0, w & 4 != 0, used, if !format && used then (w >> 4) & 0xFFFF else 0)
  }

  /** The word the hardware writes; `rest` is whatever follows the length. */
  function EntryWord(format: bool, color: bool, err: bool, used: bool, len: bv64, rest: bv64): bv64
  {
    (if format then 1 else 0) | (if color then 2 else 0) | (if err then 4 else 0) | (if used then 8 else 0)
    | (len << 4) | (rest << 20)
  }

  /** Whatever else the entry carries, the driver reads the flags and, for a packet, the
      length of 16 bits. */
  lemma {:induction false} EntryRoundTrip(format: bool, color: bool, err: bool, used: bool, len: bv64, rest: bv64)
    requires len <= 0xFFFF
    ensures ParseEntry(EntryWord(format, color, err, used, len, rest)) ==
            CmplInfo(format, color, err, used, if !format && used then len else 0)
  {
  }
}
