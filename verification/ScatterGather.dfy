/** Scatter lists and how they are cut into descriptors (libqdma/qdma_descq.c). */
module ScatterGather {

  /** One DMA-mapped entry of a request's scatter list (`struct qdma_sw_sg`). */
  datatype Sg = Sg(addr: nat, len: nat)

  /** The queue kinds that post descriptors through the work list. */
  datatype Kind = MM | StH2c

  const DESC_BLEN_MAX: nat := 0xFFF_FFFF
  const PAGE_SIZE: nat := 4096
  const U32: nat := 0x1_0000_0000

  /** The largest length one descriptor carries. */
  function MaxLen(kind: Kind): (m: nat)
    ensures m > 0
  {
    match kind case MM => DESC_BLEN_MAX case StH2c => PAGE_SIZE
  }

  function Min(a: nat, b: nat): nat { if a <= b then a else b }

  function TotalLen(sgl: seq<Sg>): nat
  {
    if sgl == [] then 0 else sgl[0].len + TotalLen(sgl[1..])
  }

  lemma {:induction false} TotalLenConcat(a: seq<Sg>, b: seq<Sg>)
    ensures TotalLen(a + b) == TotalLen(a) + TotalLen(b)
  {
    if a == [] {
      assert a + b == b;
    } else {
      assert (a + b)[1..] == a[1..] + b;
      TotalLenConcat(a[1..], b);
    }
  }

  lemma {:induction false} TotalLenStep(sgl: seq<Sg>, j: nat)
    requires j < |sgl|
    ensures TotalLen(sgl[..j + 1]) == TotalLen(sgl[..j]) + sgl[j].len
  {
    assert sgl[..j + 1] == sgl[..j] + [sgl[j]];
    TotalLenConcat(sgl[..j], [sgl[j]]);
  }

  lemma {:induction false} TotalLenMonotone(sgl: seq<Sg>, i: nat, j: nat)
    requires i <= j <= |sgl|
    ensures TotalLen(sgl[..i]) <= TotalLen(sgl[..j]) <= TotalLen(sgl)
  {
    assert sgl[..j] == sgl[..i] + sgl[i..j];
    TotalLenConcat(sgl[..i], sgl[i..j]);
    assert sgl == sgl[..j] + sgl[j..];
    TotalLenConcat(sgl[..j], sgl[j..]);
  }

  /** With non-empty entries, prefix sums determine the prefix. */
  lemma {:induction false} TotalLenStrict(sgl: seq<Sg>, i: nat, j: nat)
    requires i < j <= |sgl|
    requires forall k :: 0 <= k < |sgl| ==> sgl[k].len > 0
    ensures TotalLen(sgl[..i]) < TotalLen(sgl[..j])
  {
    TotalLenStep(sgl, i);
    TotalLenMonotone(sgl, i + 1, j);
  }

  /* ---- finding the place where posting resumes ---- */

  datatype Place = At(idx: nat, sgOffset: nat) | OutOfRange

  /** What `sgl_find_offset` answers: the first entry at whose end or inside which the
      offset falls.  Inside an entry the code reports the bytes that REMAIN. */
  function Locate(sgl: seq<Sg>, offset: nat): Place
  {
    Scan(sgl, 0, offset)
  }

  /** The loop of `sgl_find_offset`, with `before` bytes summed up already; the sum is an
      `unsigned int`. */
  function Scan(sgl: seq<Sg>, before: nat, offset: nat): Place
  {
    if sgl == [] then OutOfRange
    else
      var len := (before + sgl[0].len) % U32;
      if len == offset then At(1, 0)
      else if len > offset then At(0, len - offset)
      else Shifted(Scan(sgl[1..], len, offset), 1)
  }

  /** The same place, counted from `i` entries earlier. */
  function Shifted(p: Place, i: nat): Place
  {
    match p
    case At(idx, r) => At(idx + i, r)
    case OutOfRange => OutOfRange
  }

  /** The scan passes the entries that end before the offset. */
  lemma {:induction false} ScanSkips(sgl: seq<Sg>, before: nat, offset: nat, i: nat)
    requires i < |sgl| && before + TotalLen(sgl[..i + 1]) < U32
    requires forall k :: 0 < k <= i ==> before + TotalLen(sgl[..k]) < offset
    ensures before + TotalLen(sgl[..i + 1]) == offset ==> Scan(sgl, before, offset) == At(i + 1, 0)
    ensures before + TotalLen(sgl[..i + 1]) > offset ==>
              Scan(sgl, before, offset) == At(i, before + TotalLen(sgl[..i + 1]) - offset)
  {
    hide TotalLen, Scan;
    PrefixTail(sgl, i);
    PrefixTail(sgl, 0);
    ScanFirst(sgl, before, offset);
    if i > 0 {
      assert before + TotalLen(sgl[..1]) < offset;
      forall k | 0 < k <= i - 1 ensures before + sgl[0].len + TotalLen(sgl[1..][..k]) < offset {
        PrefixTail(sgl, k);
      }
      ScanSkips(sgl[1..], before + sgl[0].len, offset, i - 1);
    }
  }

  lemma {:induction false} PrefixTail(sgl: seq<Sg>, k: nat)
    requires k < |sgl|
    ensures TotalLen(sgl[..k + 1]) == sgl[0].len + TotalLen(sgl[1..][..k])
    ensures k == 0 ==> TotalLen(sgl[1..][..k]) == 0
  {
    assert sgl[..k + 1][1..] == sgl[1..][..k];
  }

  lemma {:induction false} ScanFirst(sgl: seq<Sg>, before: nat, offset: nat)
    requires sgl != [] && before + sgl[0].len < U32
    ensures var len := before + sgl[0].len;
            Scan(sgl, before, offset) == if len == offset then At(1, 0)
                                         else if len > offset then At(0, len - offset)
                                         else Shifted(Scan(sgl[1..], len, offset), 1)
  {
    hide Shifted, TotalLen;
    assert (before + sgl[0].len) % U32 == before + sgl[0].len;
  }

  lemma {:induction false} LocateSkips(sgl: seq<Sg>, offset: nat, i: nat)
    requires i < |sgl| && TotalLen(sgl[..i + 1]) < U32
    requires forall k :: 0 < k <= i ==> TotalLen(sgl[..k]) < offset
    ensures TotalLen(sgl[..i + 1]) == offset ==> Locate(sgl, offset) == At(i + 1, 0)
    ensures TotalLen(sgl[..i + 1]) > offset ==>
              Locate(sgl, offset) == At(i, TotalLen(sgl[..i + 1]) - offset)
  {
    ScanSkips(sgl, 0, offset, i);
  }

  const EINVAL: int := -22
  const EIO: int := -5

  /** `sgl_find_offset`, loop and all.  A negative result is `-EINVAL`. */
  method FindOffset(sgl: seq<Sg>, offset: nat) returns (rv: int, sgOffset: nat)
    ensures rv >= 0 ==> Locate(sgl, offset) == At(rv, sgOffset)
    ensures rv < 0 <==> Locate(sgl, offset) == OutOfRange
    ensures rv < 0 ==> rv == EINVAL
  {
    var len: nat, i: nat := 0, 0;
    assert Shifted(Scan(sgl, 0, offset), 0) == Scan(sgl, 0, offset);
    while i < |sgl|
      invariant 0 <= i <= |sgl|
      invariant Locate(sgl, offset) == Shifted(Scan(sgl[i..], len, offset), i)
    {
      assert sgl[i..][1..] == sgl[i + 1..];
      len := (len + sgl[i].len) % U32;
      if len == offset {
        return i + 1, 0;
      } else if len > offset {
        return i, len - offset;
      }
      i := i + 1;
    }
    return EINVAL, 0;
  }

  /** Some entry ends, or the first one starts, at the offset. */
  predicate AtEntry(sgl: seq<Sg>, offset: nat)
  {
    exists j :: 0 <= j <= |sgl| && TotalLen(sgl[..j]) == offset
  }

  /** The first entry that ends at the offset or beyond it. */
  lemma {:induction false} FirstReaching(sgl: seq<Sg>, offset: nat) returns (i: nat)
    requires 0 < offset <= TotalLen(sgl)
    ensures i < |sgl| && TotalLen(sgl[..i]) < offset <= TotalLen(sgl[..i + 1])
    ensures forall k :: 0 <= k <= i ==> TotalLen(sgl[..k]) < offset
  {
    assert sgl[..0] == [] && sgl[..|sgl|] == sgl;
    i := 0;
    while TotalLen(sgl[..i + 1]) < offset
      invariant i < |sgl|
      invariant forall k :: 0 <= k <= i ==> TotalLen(sgl[..k]) < offset
      decreases |sgl| - i
    {
      i := i + 1;
    }
  }

  /** What the search reports for an offset within the list: no remainder if and only if
      the offset is at an entry boundary; the entry found then starts there. */
  lemma {:induction false} LocateWithin(sgl: seq<Sg>, offset: nat) returns (i: nat)
    requires 0 < offset <= TotalLen(sgl) < U32
    ensures i <= |sgl| && Locate(sgl, offset).At? && Locate(sgl, offset).idx == i
    ensures AtEntry(sgl, offset) <==> Locate(sgl, offset) == At(i, 0)
    ensures Locate(sgl, offset) == At(i, 0) ==> TotalLen(sgl[..i]) == offset
    ensures Locate(sgl, offset) != At(i, 0) ==> i < |sgl| && TotalLen(sgl[..i]) < offset < TotalLen(sgl[..i + 1])
                                                && Locate(sgl, offset).sgOffset == TotalLen(sgl[..i + 1]) - offset
  {
    var f := FirstReaching(sgl, offset);
    TotalLenMonotone(sgl, f, f + 1);
    LocateSkips(sgl, offset, f);
    if TotalLen(sgl[..f + 1]) == offset {
      i := f + 1;
    } else {
      i := f;
      forall j | 0 <= j <= |sgl| ensures TotalLen(sgl[..j]) != offset {
        if j > f {
          TotalLenMonotone(sgl, f + 1, j);
        }
      }
    }
  }

  /** Resuming at an entry boundary of a list of non-empty entries finds that entry. */
  lemma {:induction false} LocateBoundary(sgl: seq<Sg>, j: nat)
    requires 0 < j <= |sgl| && TotalLen(sgl) < U32
    requires forall k :: 0 <= k < |sgl| ==> sgl[k].len > 0
    ensures Locate(sgl, TotalLen(sgl[..j])) == At(j, 0)
  {
    forall k | 0 <= k < j
      ensures TotalLen(sgl[..k]) < TotalLen(sgl[..j])
    {
      TotalLenStrict(sgl, k, j);
    }
    TotalLenMonotone(sgl, j, |sgl|);
    LocateSkips(sgl, TotalLen(sgl[..j]), j - 1);
  }

  /** With 2^32 bytes or more the sum wraps, and the search can pass the entry that the offset
      lies in: byte 10 of this list is in its second entry, and the list's end is found. */
  lemma {:induction false} LocateWraps()
    ensures var sgl := [Sg(0, 5), Sg(0, 0xFFFF_FFFD), Sg(0, 8)];
            && TotalLen(sgl[..1]) <= 10 < TotalLen(sgl[..2])
            && Locate(sgl, 10) == At(3, 0)
  {
    var sgl := [Sg(0, 5), Sg(0, 0xFFFF_FFFD), Sg(0, 8)];
    assert sgl[..1] == [sgl[0]] && sgl[..1][1..] == [];
    assert sgl[..2] == [sgl[0], sgl[1]] && sgl[..2][1..] == [sgl[1]] && sgl[..2][1..][1..] == [];
    assert sgl[1..] == [sgl[1], sgl[2]] && sgl[1..][1..] == [sgl[2]] && sgl[1..][1..][1..] == [];
    ScanFirst(sgl, 0, 10);
    assert (5 + 0xFFFF_FFFD) % U32 == 2;
    assert Scan([sgl[2]], 2, 10) == At(1, 0);
    assert Scan([sgl[1], sgl[2]], 5, 10) == Shifted(Scan([sgl[2]], 2, 10), 1);
  }

  /* ---- cutting entries into descriptors ---- */

  datatype Cut = Cut(addr: nat, len: nat)

  /** All descriptors of one entry: full-length ones and a rest.  A memory-mapped queue
      emits nothing for an empty entry, a stream queue one empty descriptor. */
  function EntryCuts(kind: Kind, addr: nat, len: nat): seq<Cut>
    decreases len
  {
    if len == 0 && kind.MM? then []
    else
      var n := Min(len, MaxLen(kind));
      [Cut(addr, n)] + (if len == n then [] else EntryCuts(kind, addr + n, len - n))
  }

  function Cuts(kind: Kind, sgl: seq<Sg>): seq<Cut>
  {
    if sgl == [] then []
    else EntryCuts(kind, sgl[0].addr, sgl[0].len) + Cuts(kind, sgl[1..])
  }

  function CutsLen(cuts: seq<Cut>): nat
  {
    if cuts == [] then 0 else CutsLen(cuts[..|cuts| - 1]) + cuts[|cuts| - 1].len
  }

  /** Every entry goes into one descriptor of its own. */
  predicate OneCutEach(kind: Kind, sgl: seq<Sg>)
  {
    forall k :: 0 <= k < |sgl| ==> (sgl[k].len > 0 || kind.StH2c?) && sgl[k].len <= MaxLen(kind)
  }

  lemma {:induction false} CutsOnePerEntry(kind: Kind, sgl: seq<Sg>)
    requires OneCutEach(kind, sgl)
    ensures |Cuts(kind, sgl)| == |sgl|
    ensures forall k :: 0 <= k < |sgl| ==> Cuts(kind, sgl)[k] == Cut(sgl[k].addr, sgl[k].len)
  {
    if sgl != [] {
      assert EntryCuts(kind, sgl[0].addr, sgl[0].len) == [Cut(sgl[0].addr, sgl[0].len)];
      CutsOnePerEntry(kind, sgl[1..]);
    }
  }

  lemma {:induction false} CutsLenOnePerEntry(cuts: seq<Cut>, sgl: seq<Sg>)
    requires |cuts| == |sgl|
    requires forall k :: 0 <= k < |sgl| ==> cuts[k] == Cut(sgl[k].addr, sgl[k].len)
    ensures CutsLen(cuts) == TotalLen(sgl)
  {
    if cuts != [] {
      var n := |cuts| - 1;
      CutsLenOnePerEntry(cuts[..n], sgl[..n]);
      TotalLenStep(sgl, n);
      assert sgl[..n + 1] == sgl;
    }
  }

  lemma {:induction false} CutsConcat(kind: Kind, a: seq<Sg>, b: seq<Sg>)
    ensures Cuts(kind, a + b) == Cuts(kind, a) + Cuts(kind, b)
  {
    if a == [] {
      assert a + b == b;
    } else {
      assert (a + b)[1..] == a[1..] + b;
      CutsConcat(kind, a[1..], b);
    }
  }
}
