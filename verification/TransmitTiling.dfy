/** What all posting calls for one request emit together, whatever ring space each of them
    finds: libqdma/qdma_descq.c, `descq_mm_proc_request` and `descq_proc_st_h2c_request`. */
module TransmitTiling {
  import opened ScatterGather
  import opened TransmitSpec

  /** The card-side address of every emitted piece follows from the bytes posted so far. */
  datatype Piece = Piece(host: nat, card: nat, len: nat)

  function Pieces(b: seq<Cut>, card: nat): (ps: seq<Piece>)
    ensures |ps| == |b|
  {
    seq(|b|, c requires 0 <= c < |b| => Piece(b[c].addr, card + CutsLen(b[..c]), b[c].len))
  }

  /** The pieces emitted by successive calls; call `k` finds `spaces[k]` free slots.  The
      calls end when the request is posted in full or is refused. */
  function Emitted(kind: Kind, sgl: seq<Sg>, card: nat, count: nat, offset: nat, spaces: seq<nat>): seq<Piece>
    decreases |spaces|
  {
    if spaces == [] then []
    else match Decide(kind, sgl, offset, spaces[0])
      case NoSpace => Emitted(kind, sgl, card, count, offset, spaces[1..])
      case Fail(_) => []
      case Take(_, b) =>
        var offset' := (offset + CutsLen(b)) % U32;
        Pieces(b, card + offset) +
        (if offset' == count then [] else Emitted(kind, sgl, card, count, offset', spaces[1..]))
  }

  /** What should be emitted in the end: every entry cut up in order, laid out on the card
      without gap or overlap from `card` on. */
  function Intended(kind: Kind, sgl: seq<Sg>, card: nat): seq<Piece>
  {
    Pieces(Cuts(kind, sgl), card)
  }

  /* ---- the intended pieces do tile both sides ---- */

  lemma {:induction false} EntryCutsTile(kind: Kind, addr: nat, len: nat, k: nat)
    requires k < |EntryCuts(kind, addr, len)|
    ensures EntryCuts(kind, addr, len)[k].addr == addr + CutsLen(EntryCuts(kind, addr, len)[..k])
    ensures EntryCuts(kind, addr, len)[k].len <= MaxLen(kind)
    ensures len > 0 ==> EntryCuts(kind, addr, len)[k].len > 0
    decreases len
  {
    var cuts := EntryCuts(kind, addr, len);
    var n := Min(len, MaxLen(kind));
    if k > 0 {
      var rest := EntryCuts(kind, addr + n, len - n);
      EntryCutsTile(kind, addr + n, len - n, k - 1);
      assert cuts[..k] == [cuts[0]] + rest[..k - 1];
      CutsLenConcat([cuts[0]], rest[..k - 1]);
      assert [cuts[0]][..0] == [];
    }
  }

  lemma {:induction false} CutsLenConcat(a: seq<Cut>, b: seq<Cut>)
    ensures CutsLen(a + b) == CutsLen(a) + CutsLen(b)
  {
    if b == [] {
      assert a + b == a;
    } else {
      assert (a + b)[..|a + b| - 1] == a + b[..|b| - 1];
      CutsLenConcat(a, b[..|b| - 1]);
    }
  }

  lemma {:induction false} OneCutLen(c: Cut)
    ensures CutsLen([c]) == c.len && CutsLen([]) == 0
  {
    assert [c][..0] == [];
  }

  /** The first piece of an entry, and the rest of it. */
  lemma {:induction false} EntryFirstCut(kind: Kind, addr: nat, len: nat)
    ensures var n := Min(len, MaxLen(kind));
            && (len == 0 && kind.MM? ==> EntryCuts(kind, addr, len) == [])
            && (len == n && !(len == 0 && kind.MM?) ==> EntryCuts(kind, addr, len) == [Cut(addr, len)])
            && (len > n ==> n > 0 && EntryCuts(kind, addr, len) == [Cut(addr, n)] + EntryCuts(kind, addr + n, len - n))
  {
  }

  lemma {:induction false} EntryCutsLen(kind: Kind, addr: nat, len: nat)
    ensures CutsLen(EntryCuts(kind, addr, len)) == len
    decreases len
  {
    hide EntryCuts, CutsLen;
    var n := Min(len, MaxLen(kind));
    EntryFirstCut(kind, addr, len);
    OneCutLen(Cut(addr, n));
    if len > n {
      EntryCutsLen(kind, addr + n, len - n);
      CutsLenConcat([Cut(addr, n)], EntryCuts(kind, addr + n, len - n));
    }
  }

  /** The pieces of a whole list transfer exactly its bytes. */
  lemma {:induction false} IntendedLen(kind: Kind, sgl: seq<Sg>)
    ensures CutsLen(Cuts(kind, sgl)) == TotalLen(sgl)
  {
    if sgl != [] {
      EntryCutsLen(kind, sgl[0].addr, sgl[0].len);
      IntendedLen(kind, sgl[1..]);
      CutsLenConcat(EntryCuts(kind, sgl[0].addr, sgl[0].len), Cuts(kind, sgl[1..]));
    }
  }

  /** The piece transfers a stretch of entry `e`, and of the card range that belongs to the
      entry the same stretch. */
  predicate LiesIn(p: Piece, sgl: seq<Sg>, card: nat, e: nat)
    requires e < |sgl|
  {
    && card + TotalLen(sgl[..e]) <= p.card && p.card + p.len <= card + TotalLen(sgl[..e + 1])
    && p.host == sgl[e].addr + (p.card - card - TotalLen(sgl[..e]))
  }

  lemma {:induction false} CutInEntry(kind: Kind, sgl: seq<Sg>, k: nat) returns (e: nat)
    requires k < |Cuts(kind, sgl)|
    ensures e < |sgl| && LiesIn(Piece(Cuts(kind, sgl)[k].addr, CutsLen(Cuts(kind, sgl)[..k]), Cuts(kind, sgl)[k].len), sgl, 0, e)
    ensures Cuts(kind, sgl)[k].len <= MaxLen(kind)
    ensures sgl[e].len > 0 ==> Cuts(kind, sgl)[k].len > 0
    ensures kind.MM? ==> sgl[e].len > 0
  {
    hide EntryCuts, TotalLen, CutsLen;
    var first, rest := EntryCuts(kind, sgl[0].addr, sgl[0].len), Cuts(kind, sgl[1..]);
    assert Cuts(kind, sgl) == first + rest;
    TotalLenStep(sgl, 0);
    assert sgl[..0] == [];
    NoLen();
    if k < |first| {
      e := 0;
      EntryCutsTile(kind, sgl[0].addr, sgl[0].len, k);
      EntryCutsWithin(kind, sgl[0].addr, sgl[0].len, k);
      assert Cuts(kind, sgl)[..k] == first[..k];
    } else {
      var e' := CutInEntry(kind, sgl[1..], k - |first|);
      e := e' + 1;
      EntryCutsLen(kind, sgl[0].addr, sgl[0].len);
      assert Cuts(kind, sgl)[..k] == first + rest[..k - |first|];
      CutsLenConcat(first, rest[..k - |first|]);
      PrefixTail(sgl, e');
      PrefixTail(sgl, e);
    }
  }

  lemma {:induction false} NoLen()
    ensures TotalLen([]) == 0 && CutsLen([]) == 0
  {
  }

  lemma {:induction false} EntryCutsWithin(kind: Kind, addr: nat, len: nat, k: nat)
    requires k < |EntryCuts(kind, addr, len)|
    ensures CutsLen(EntryCuts(kind, addr, len)[..k]) + EntryCuts(kind, addr, len)[k].len <= len
    ensures kind.MM? ==> len > 0
  {
    hide CutsLen;
    var cuts := EntryCuts(kind, addr, len);
    EntryCutsLen(kind, addr, len);
    assert cuts == cuts[..k] + ([cuts[k]] + cuts[k + 1..]);
    CutsLenConcat(cuts[..k], [cuts[k]] + cuts[k + 1..]);
    CutsLenConcat([cuts[k]], cuts[k + 1..]);
    OneCutLen(cuts[k]);
  }

  /** MAIN RESULT on what is intended: consecutive pieces are adjacent on the card, from
      its first to its last byte; every piece transfers a stretch of one entry to or from
      the stretch of the card that belongs to it, so pieces of an entry are adjacent in
      memory as well; and no piece is longer than a descriptor or, unless its entry is,
      empty. */
  lemma {:induction false} IntendedTiles(kind: Kind, sgl: seq<Sg>, card: nat, k: nat)
    requires k < |Intended(kind, sgl, card)|
    ensures var ps := Intended(kind, sgl, card);
            && (k == 0 ==> ps[k].card == card)
            && (k + 1 < |ps| ==> ps[k + 1].card == ps[k].card + ps[k].len)
            && (k + 1 == |ps| ==> ps[k].card + ps[k].len == card + TotalLen(sgl))
            && ps[k].len <= MaxLen(kind)
            && (kind.MM? || NonEmpty(sgl) ==> ps[k].len > 0)
            && (exists e: nat :: e < |sgl| && LiesIn(ps[k], sgl, card, e))
  {
    hide Cuts, CutsLen, TotalLen;
    IntendedAdjacent(kind, sgl, card, k);
    var e := CutInEntry(kind, sgl, k);
    assert LiesIn(Intended(kind, sgl, card)[k], sgl, card, e);
  }

  /** Consecutive pieces are adjacent on the card. */
  lemma {:induction false} IntendedAdjacent(kind: Kind, sgl: seq<Sg>, card: nat, k: nat)
    requires k < |Intended(kind, sgl, card)|
    ensures k == 0 ==> Intended(kind, sgl, card)[k].card == card
    ensures k + 1 < |Intended(kind, sgl, card)| ==>
              Intended(kind, sgl, card)[k + 1].card
              == Intended(kind, sgl, card)[k].card + Intended(kind, sgl, card)[k].len
    ensures k + 1 == |Intended(kind, sgl, card)| ==>
              Intended(kind, sgl, card)[k].card + Intended(kind, sgl, card)[k].len == card + TotalLen(sgl)
  {
    var cuts := Cuts(kind, sgl);
    assert cuts[..k + 1][..k] == cuts[..k];
    if k + 1 == |cuts| {
      assert cuts[..k + 1] == cuts;
      IntendedLen(kind, sgl);
    }
  }

  /* ---- lists whose entries fit one descriptor each ---- */

  predicate Fits(kind: Kind, sgl: seq<Sg>)
  {
    forall k :: 0 <= k < |sgl| ==> 0 < sgl[k].len <= MaxLen(kind)
  }

  predicate NonEmpty(sgl: seq<Sg>)
  {
    forall k :: 0 <= k < |sgl| ==> sgl[k].len > 0
  }

  function Sum(ns: seq<nat>): nat
  {
    if ns == [] then 0 else ns[0] + Sum(ns[1..])
  }

  /** Taking a stretch of the cuts takes the same stretch of the pieces. */
  lemma {:induction false} PiecesSlice(cuts: seq<Cut>, card: nat, j: nat, k: nat)
    requires j <= k <= |cuts|
    ensures Pieces(cuts[j..k], card + CutsLen(cuts[..j])) == Pieces(cuts, card)[j..k]
  {
    forall c | 0 <= c < k - j
      ensures Pieces(cuts[j..k], card + CutsLen(cuts[..j]))[c] == Pieces(cuts, card)[j..k][c]
    {
      assert cuts[..j + c] == cuts[..j] + cuts[j..k][..c];
      CutsLenConcat(cuts[..j], cuts[j..k][..c]);
    }
  }

  /** When every entry takes one descriptor, cuts and entries correspond. */
  lemma {:induction false} CutsPrefixLen(kind: Kind, sgl: seq<Sg>, j: nat)
    requires Fits(kind, sgl) && j <= |sgl|
    ensures |Cuts(kind, sgl)| == |sgl|
    ensures CutsLen(Cuts(kind, sgl)[..j]) == TotalLen(sgl[..j])
  {
    CutsOnePerEntry(kind, sgl);
    CutsLenOnePerEntry(Cuts(kind, sgl)[..j], sgl[..j]);
  }

  lemma {:induction false} BatchIsSlice(kind: Kind, sgl: seq<Sg>, j: nat, space: nat)
    requires Fits(kind, sgl) && j <= |sgl|
    ensures |Cuts(kind, sgl)| == |sgl|
    ensures Batch(kind, sgl, j, space) == Cuts(kind, sgl)[j..j + Min(space, |sgl| - j)]
  {
    CutsOnePerEntry(kind, sgl);
    CutsOnePerEntry(kind, sgl[j..]);
  }

  /** The batch of a call that starts at entry boundary `j`, piece by piece. */
  lemma {:induction false} BatchPieces(kind: Kind, sgl: seq<Sg>, card: nat, j: nat, space: nat)
    requires Fits(kind, sgl) && j <= |sgl|
    ensures |Intended(kind, sgl, card)| == |sgl|
    ensures var b, m := Batch(kind, sgl, j, space), Min(space, |sgl| - j);
            && |b| == m
            && TotalLen(sgl[..j]) + CutsLen(b) == TotalLen(sgl[..j + m])
            && Pieces(b, card + TotalLen(sgl[..j])) == Intended(kind, sgl, card)[j..j + m]
  {
    hide Cuts, Batch, Pieces, CutsLen, TotalLen;
    var b, m, all := Batch(kind, sgl, j, space), Min(space, |sgl| - j), Cuts(kind, sgl);
    BatchIsSlice(kind, sgl, j, space);
    CutsPrefixLen(kind, sgl, j);
    CutsPrefixLen(kind, sgl, j + m);
    PiecesSlice(all, card, j, j + m);
    assert all[..j + m] == all[..j] + b;
    CutsLenConcat(all[..j], b);
  }

  lemma {:induction false} FullCount(sgl: seq<Sg>, j: nat)
    requires NonEmpty(sgl) && j <= |sgl|
    ensures TotalLen(sgl[..j]) <= TotalLen(sgl)
    ensures TotalLen(sgl[..j]) == TotalLen(sgl) <==> j == |sgl|
  {
    assert sgl[..|sgl|] == sgl;
    TotalLenMonotone(sgl, j, |sgl|);
    if j < |sgl| {
      TotalLenStrict(sgl, j, |sgl|);
    }
  }

  lemma {:induction false} ResumesAtBoundary(sgl: seq<Sg>, j: nat)
    requires NonEmpty(sgl) && j < |sgl| && TotalLen(sgl) < U32
    ensures ResumeAt(sgl, TotalLen(sgl[..j])) == From(j)
  {
    assert sgl[..0] == [];
    if j > 0 {
      TotalLenStrict(sgl, 0, j);
      LocateBoundary(sgl, j);
    }
  }

  /** One call that takes batch `b` from entry `i`. */
  lemma {:induction false} TakingCall(kind: Kind, sgl: seq<Sg>, card: nat, count: nat, offset: nat, spaces: seq<nat>,
                                      i: nat, b: seq<Cut>)
    requires spaces != [] && Decide(kind, sgl, offset, spaces[0]) == Take(i, b)
    ensures var offset' := (offset + CutsLen(b)) % U32;
            Emitted(kind, sgl, card, count, offset, spaces) ==
            Pieces(b, card + offset) +
            (if offset' == count then [] else Emitted(kind, sgl, card, count, offset', spaces[1..]))
  {
    hide Decide, Pieces, CutsLen;
  }

  lemma {:induction false} NoCall(kind: Kind, sgl: seq<Sg>, card: nat, count: nat, offset: nat, spaces: seq<nat>)
    ensures spaces == [] ==> Emitted(kind, sgl, card, count, offset, spaces) == []
    ensures spaces != [] && spaces[0] == 0 ==>
              Emitted(kind, sgl, card, count, offset, spaces) == Emitted(kind, sgl, card, count, offset, spaces[1..])
  {
  }

  /** One call that starts at entry boundary `j` of a list that fits. */
  lemma {:induction false} OneCall(kind: Kind, sgl: seq<Sg>, card: nat, j: nat, spaces: seq<nat>)
    requires Fits(kind, sgl) && TotalLen(sgl) < U32 && j < |sgl|
    requires spaces != [] && spaces[0] > 0
    ensures |Intended(kind, sgl, card)| == |sgl|
    ensures var m := Min(spaces[0], |sgl| - j);
            Emitted(kind, sgl, card, TotalLen(sgl), TotalLen(sgl[..j]), spaces)
            == Intended(kind, sgl, card)[j..j + m] +
               (if j + m == |sgl| then []
                else Emitted(kind, sgl, card, TotalLen(sgl), TotalLen(sgl[..j + m]), spaces[1..]))
  {
    hide Batch, Intended, TotalLen, ResumeAt, Pieces, CutsLen, Emitted;
    var m := Min(spaces[0], |sgl| - j);
    ResumesAtBoundary(sgl, j);
    BatchPieces(kind, sgl, card, j, spaces[0]);
    FullCount(sgl, j + m);
    TakingCall(kind, sgl, card, TotalLen(sgl), TotalLen(sgl[..j]), spaces, j, Batch(kind, sgl, j, spaces[0]));
  }

  lemma {:induction false} Stretch(want: seq<Piece>, j: nat, m: nat, k: nat)
    requires j + m + k <= |want|
    ensures want[j..j + m] + want[j + m..j + m + k] == want[j..j + m + k]
  {
  }

  /** Calls that start at entry boundary `j` emit the next intended pieces, as many as all
      the calls had room for. */
  lemma {:induction false} EmittedFromBoundary(kind: Kind, sgl: seq<Sg>, card: nat, j: nat, spaces: seq<nat>)
    requires Fits(kind, sgl) && TotalLen(sgl) < U32 && j < |sgl|
    ensures |Intended(kind, sgl, card)| == |sgl|
    ensures Emitted(kind, sgl, card, TotalLen(sgl), TotalLen(sgl[..j]), spaces)
            == Intended(kind, sgl, card)[j..j + Min(Sum(spaces), |sgl| - j)]
    decreases |spaces|
  {
    hide Emitted, Intended, TotalLen, Fits;
    BatchPieces(kind, sgl, card, j, 0);
    NoCall(kind, sgl, card, TotalLen(sgl), TotalLen(sgl[..j]), spaces);
    if spaces != [] {
      if spaces[0] == 0 {
        EmittedFromBoundary(kind, sgl, card, j, spaces[1..]);
      } else {
        OneCall(kind, sgl, card, j, spaces);
        var m := Min(spaces[0], |sgl| - j);
        if j + m < |sgl| {
          EmittedFromBoundary(kind, sgl, card, j + m, spaces[1..]);
          Stretch(Intended(kind, sgl, card), j, m, Min(Sum(spaces[1..]), |sgl| - j - m));
        }
      }
    }
  }

  /* ---- lists with an entry too long for one descriptor ---- */

  /** A call with one free slot at the start of entry `i`. */
  lemma {:induction false} OneSlotCall(kind: Kind, sgl: seq<Sg>, card: nat, offset: nat, i: nat, spaces: seq<nat>)
    requires NonEmpty(sgl) && i < |sgl| && ResumeAt(sgl, offset) == From(i)
    requires spaces != [] && spaces[0] == 1
    ensures var n := Min(sgl[i].len, MaxLen(kind));
            var offset' := (offset + n) % U32;
            Emitted(kind, sgl, card, TotalLen(sgl), offset, spaces)
            == [Piece(sgl[i].addr, card + offset, n)] +
               (if offset' == TotalLen(sgl) then []
                else Emitted(kind, sgl, card, TotalLen(sgl), offset', spaces[1..]))
  {
    hide Batch, TotalLen, ResumeAt, Emitted;
    FirstOfBatch(kind, sgl, i);
    var n := Min(sgl[i].len, MaxLen(kind));
    assert [Cut(sgl[i].addr, n)][..0] == [];
    assert Pieces([Cut(sgl[i].addr, n)], card + offset) == [Piece(sgl[i].addr, card + offset, n)];
    TakingCall(kind, sgl, card, TotalLen(sgl), offset, spaces, i, [Cut(sgl[i].addr, n)]);
  }

  /** Calls with one free slot each, as far as the first oversized entry `j`: the call
      after the first piece of that entry emits the same host range again. */
  lemma {:induction false} OversizedRepeats(kind: Kind, sgl: seq<Sg>, card: nat, i: nat, j: nat, spaces: seq<nat>)
    requires NonEmpty(sgl) && TotalLen(sgl) < U32
    requires i <= j < |sgl| && sgl[j].len > MaxLen(kind)
    requires forall k :: 0 <= k < j ==> sgl[k].len <= MaxLen(kind)
    requires |spaces| == j - i + 2 && forall k :: 0 <= k < |spaces| ==> spaces[k] == 1
    ensures var es := Emitted(kind, sgl, card, TotalLen(sgl), TotalLen(sgl[..i]), spaces);
            && |es| >= j - i + 2
            && es[j - i + 1].host == sgl[j].addr
    decreases j - i
  {
    hide Emitted, TotalLen, ResumeAt;
    ResumesAtBoundary(sgl, i);
    TotalLenStep(sgl, i);
    FullCount(sgl, i + 1);
    OneSlotCall(kind, sgl, card, TotalLen(sgl[..i]), i, spaces);
    if i < j {
      OversizedRepeats(kind, sgl, card, i + 1, j, spaces[1..]);
    } else {
      InsideEntry(kind, sgl, j);
      OneSlotCall(kind, sgl, card, TotalLen(sgl[..i]) + MaxLen(kind), j, spaces[1..]);
    }
  }

  /** A batch with one free slot holds the first cut of its entry. */
  lemma {:induction false} FirstOfBatch(kind: Kind, sgl: seq<Sg>, i: nat)
    requires NonEmpty(sgl) && i < |sgl|
    ensures var n := Min(sgl[i].len, MaxLen(kind));
            Batch(kind, sgl, i, 1) == [Cut(sgl[i].addr, n)] && CutsLen(Batch(kind, sgl, i, 1)) == n
  {
    var n := Min(sgl[i].len, MaxLen(kind));
    assert EntryCuts(kind, sgl[i].addr, sgl[i].len)[0] == Cut(sgl[i].addr, n);
    assert Batch(kind, sgl, i, 1) == [Cut(sgl[i].addr, n)];
    assert [Cut(sgl[i].addr, n)][..0] == [];
  }

  /** An offset inside entry `j` makes the next call start that entry over. */
  lemma {:induction false} InsideEntry(kind: Kind, sgl: seq<Sg>, j: nat)
    requires j < |sgl| && sgl[j].len > MaxLen(kind) && TotalLen(sgl) < U32
    ensures ResumeAt(sgl, TotalLen(sgl[..j]) + MaxLen(kind)) == From(j)
    ensures TotalLen(sgl[..j]) + MaxLen(kind) < TotalLen(sgl)
  {
    var offset := TotalLen(sgl[..j]) + MaxLen(kind);
    forall k | 0 <= k <= j ensures TotalLen(sgl[..k]) < offset {
      TotalLenMonotone(sgl, k, j);
    }
    TotalLenStep(sgl, j);
    TotalLenMonotone(sgl, j + 1, |sgl|);
    assert sgl[..|sgl|] == sgl;
    LocateSkips(sgl, offset, j);
  }

  lemma {:induction false} IntendedAtOversized(kind: Kind, sgl: seq<Sg>, card: nat, j: nat)
    requires NonEmpty(sgl) && j < |sgl| && sgl[j].len > MaxLen(kind)
    requires forall k :: 0 <= k < j ==> sgl[k].len <= MaxLen(kind)
    ensures |Intended(kind, sgl, card)| > j + 1
    ensures Intended(kind, sgl, card)[j + 1].host == sgl[j].addr + MaxLen(kind)
  {
    CutsOnePerEntry(kind, sgl[..j]);
    assert sgl == sgl[..j] + sgl[j..];
    CutsConcat(kind, sgl[..j], sgl[j..]);
    var cuts := EntryCuts(kind, sgl[j].addr, sgl[j].len);
    assert EntryCuts(kind, sgl[j].addr + MaxLen(kind), sgl[j].len - MaxLen(kind)) != [];
    assert cuts[1] == EntryCuts(kind, sgl[j].addr + MaxLen(kind), sgl[j].len - MaxLen(kind))[0];
    assert Cuts(kind, sgl)[j + 1] == Cuts(kind, sgl[j..])[1] == cuts[1];
  }

  lemma {:induction false} FirstOversized(kind: Kind, sgl: seq<Sg>, n: nat) returns (j: nat)
    requires n < |sgl| && sgl[n].len > MaxLen(kind)
    ensures j <= n && sgl[j].len > MaxLen(kind)
    ensures forall k :: 0 <= k < j ==> sgl[k].len <= MaxLen(kind)
  {
    j := 0;
    while sgl[j].len <= MaxLen(kind)
      invariant j <= n
      invariant forall k :: 0 <= k < j ==> sgl[k].len <= MaxLen(kind)
      decreases n - j
    {
      j := j + 1;
    }
  }

  /** MAIN RESULT.  For a request with non-empty entries, the calls tile the request for
      EVERY pattern of ring space if and only if every entry fits one descriptor.

      (A call that resumes inside an entry starts the entry over: the offset that
      `sgl_find_offset` reports is set to zero before it is used.) */
  lemma {:induction false} TilesForAllPatternsIffEntriesFit(kind: Kind, sgl: seq<Sg>, card: nat)
    requires NonEmpty(sgl) && sgl != [] && TotalLen(sgl) < U32
    ensures (forall spaces: seq<nat> ::
               Emitted(kind, sgl, card, TotalLen(sgl), 0, spaces) <= Intended(kind, sgl, card))
            <==> (forall k :: 0 <= k < |sgl| ==> sgl[k].len <= MaxLen(kind))
  {
    hide Emitted, Intended;
    assert sgl[..0] == [];
    if forall k :: 0 <= k < |sgl| ==> sgl[k].len <= MaxLen(kind) {
      forall spaces: seq<nat>
        ensures Emitted(kind, sgl, card, TotalLen(sgl), 0, spaces) <= Intended(kind, sgl, card)
      {
        EmittedFromBoundary(kind, sgl, card, 0, spaces);
      }
    } else {
      var n :| 0 <= n < |sgl| && sgl[n].len > MaxLen(kind);
      var j := FirstOversized(kind, sgl, n);
      var spaces := seq(j + 2, _ => 1);
      OversizedRepeats(kind, sgl, card, 0, j, spaces);
      IntendedAtOversized(kind, sgl, card, j);
      var es := Emitted(kind, sgl, card, TotalLen(sgl), 0, spaces);
      assert es[j + 1] != Intended(kind, sgl, card)[j + 1];
    }
  }

  /** With enough room in total, the calls emit the whole request. */
  lemma {:induction false} TilesCompletely(kind: Kind, sgl: seq<Sg>, card: nat, spaces: seq<nat>)
    requires Fits(kind, sgl) && sgl != [] && TotalLen(sgl) < U32 && Sum(spaces) >= |sgl|
    ensures Emitted(kind, sgl, card, TotalLen(sgl), 0, spaces) == Intended(kind, sgl, card)
  {
    assert sgl[..0] == [];
    EmittedFromBoundary(kind, sgl, card, 0, spaces);
  }
}
