/** What the copy loops of `descq_st_c2h_read` do, seen from outside. */
module ReceiveCopy {
  import opened ReceiveSpec

  /* ---- source side ---- */

  lemma {:induction false} BytesConcat(a: seq<seq<bv8>>, b: seq<seq<bv8>>)
    ensures Bytes(a + b) == Bytes(a) + Bytes(b)
  {
    if b == [] {
      assert a + b == a;
    } else {
      assert (a + b)[..|a + b| - 1] == a + b[..|b| - 1];
      BytesConcat(a, b[..|b| - 1]);
    }
  }

  lemma {:induction false} BytesStep(src: seq<seq<bv8>>, i: nat)
    requires i < |src|
    ensures Bytes(src[..i + 1]) == Bytes(src[..i]) + src[i]
    ensures Bytes(src) == Bytes(src[..i]) + src[i] + Bytes(src[i + 1..])
  {
    assert src[..i + 1][..i] == src[..i];
    assert src == src[..i + 1] + src[i + 1..];
    BytesConcat(src[..i + 1], src[i + 1..]);
  }

  lemma {:induction false} BytesAll(src: seq<seq<bv8>>, i: nat)
    requires i <= |src|
    ensures Bytes(src) == Bytes(src[..i]) + Bytes(src[i..])
  {
    assert src == src[..i] + src[i..];
    BytesConcat(src[..i], src[i..]);
  }

  /** Bytes taken from the sources so far. */
  function Pos(src: seq<seq<bv8>>, c: Cursor): nat
    requires c.i <= |src|
  {
    |Bytes(src[..c.i])| + c.foff
  }

  /* ---- target side ---- */

  /** What the first `j` entries of the target list hold. */
  function Filled(sg: seq<Window>, mem: seq<seq<bv8>>, j: nat): seq<bv8>
    requires j <= |sg| == |mem|
    requires forall k :: 0 <= k < |sg| ==> sg[k].offset + sg[k].len <= |mem[k]|
  {
    if j == 0 then []
    else Filled(sg, mem, j - 1) + mem[j - 1][sg[j - 1].offset..sg[j - 1].offset + sg[j - 1].len]
  }

  /** What the target list holds up to the cursor. */
  function Gathered(sg: seq<Window>, mem: seq<seq<bv8>>, j: nat, toff: nat): seq<bv8>
    requires j <= |sg| == |mem|
    requires forall k :: 0 <= k < |sg| ==> sg[k].offset + sg[k].len <= |mem[k]|
    requires j < |sg| ==> toff <= sg[j].len
  {
    Filled(sg, mem, j) + (if j < |sg| then mem[j][sg[j].offset..sg[j].offset + toff] else [])
  }

  /** What a read request has received so far. */
  function Received(rd: Read): seq<bv8>
    requires ReadShape(rd)
  {
    Gathered(rd.sg, rd.mem, rd.sgIdx, rd.sgOff)
  }

  /** Room left in the target list from entry `j` on. */
  function Room(sg: seq<Window>, j: nat): nat
    requires j <= |sg|
    decreases |sg| - j
  {
    if j == |sg| then 0 else sg[j].len + Room(sg, j + 1)
  }

  /** Room left at the cursor. */
  function RoomAt(sg: seq<Window>, j: nat, toff: nat): nat
    requires j <= |sg| && (j < |sg| ==> toff <= sg[j].len)
  {
    if j == |sg| then 0 else Room(sg, j) - toff
  }

  lemma {:induction false} FilledFrame(sg: seq<Window>, mem: seq<seq<bv8>>, j: nat, k: nat, page: seq<bv8>)
    requires j <= k < |sg| == |mem|
    requires forall i :: 0 <= i < |sg| ==> sg[i].offset + sg[i].len <= |mem[i]|
    requires |page| == |mem[k]|
    ensures Filled(sg, mem[k := page], j) == Filled(sg, mem, j)
  {
    if j > 0 {
      FilledFrame(sg, mem, j - 1, k, page);
    }
  }

  /* ---- one piece ---- */

  /** The target list stays readable when a page is replaced by one of its size. */
  predicate PagesFit(sg: seq<Window>, mem: seq<seq<bv8>>)
  {
    |mem| == |sg| && forall k :: 0 <= k < |sg| ==> sg[k].offset + sg[k].len <= |mem[k]|
  }

  /** Being at the end of an entry is being at the start of the next. */
  lemma {:induction false} NextEntry(sg: seq<Window>, mem: seq<seq<bv8>>, j: nat)
    requires PagesFit(sg, mem) && j < |sg|
    ensures Gathered(sg, mem, j + 1, 0) == Gathered(sg, mem, j, sg[j].len)
    ensures RoomAt(sg, j + 1, 0) == RoomAt(sg, j, sg[j].len)
  {
    assert Room(sg, j) == sg[j].len + Room(sg, j + 1);
    if j + 1 < |sg| {
      assert mem[j + 1][sg[j + 1].offset..sg[j + 1].offset + 0] == [];
    }
  }

  lemma {:induction false} PatchExtends(page: seq<bv8>, o: nat, toff: nat, data: seq<bv8>)
    requires o + toff + |data| <= |page|
    ensures Patch(page, o + toff, data)[o..o + toff + |data|] == page[o..o + toff] + data
  {
  }

  lemma {:induction false} PatchGathers(sg: seq<Window>, mem: seq<seq<bv8>>, j: nat, toff: nat, data: seq<bv8>)
    requires PagesFit(sg, mem) && j < |sg| && toff + |data| <= sg[j].len
    ensures var mem' := mem[j := Patch(mem[j], sg[j].offset + toff, data)];
            && PagesFit(sg, mem')
            && Gathered(sg, mem', j, toff + |data|) == Gathered(sg, mem, j, toff) + data
  {
    var page := Patch(mem[j], sg[j].offset + toff, data);
    FilledFrame(sg, mem, j, j, page);
    PatchExtends(mem[j], sg[j].offset, toff, data);
  }

  lemma {:induction false} PieceGathers(src: seq<seq<bv8>>, sg: seq<Window>, c: Cursor)
    requires CursorOk(src, sg, c) && c.i < |src| && c.j < |sg|
    ensures var c' := CopyPiece(src, sg, c);
            && c'.i == c.i && c.foff <= c'.foff <= |src[c.i]|
            && Gathered(sg, c'.mem, c'.j, c'.toff) ==
               Gathered(sg, c.mem, c.j, c.toff) + src[c.i][c.foff..c'.foff]
            && RoomAt(sg, c'.j, c'.toff) == RoomAt(sg, c.j, c.toff) - (c'.foff - c.foff)
  {
    hide Gathered, Patch, Room;
    var n := Min(|src[c.i]| - c.foff, sg[c.j].len - c.toff);
    var data := src[c.i][c.foff..c.foff + n];
    PatchGathers(sg, c.mem, c.j, c.toff, data);
    if c.toff + n == sg[c.j].len {
      NextEntry(sg, c.mem[c.j := Patch(c.mem[c.j], sg[c.j].offset + c.toff, data)], c.j);
    }
  }

  /** The bytes of the current source buffer lie where `Pos` says. */
  lemma {:induction false} BytesWithin(src: seq<seq<bv8>>, i: nat, a: nat, b: nat)
    requires i < |src| && a <= b <= |src[i]|
    ensures |Bytes(src[..i])| + b <= |Bytes(src)|
    ensures Bytes(src)[|Bytes(src[..i])| + a..|Bytes(src[..i])| + b] == src[i][a..b]
  {
    BytesStep(src, i);
  }

  lemma {:induction false} SliceJoin(s: seq<bv8>, a: nat, b: nat, c: nat)
    requires a <= b <= c <= |s|
    ensures s[a..b] + s[b..c] == s[a..c]
  {
  }

  /* ---- the loops ---- */

  /** The loops stop only when the sources are used up or the target list is full, and
      never at the end of a buffer that they have taken from. */
  lemma {:induction false} CopyStops(src: seq<seq<bv8>>, sg: seq<Window>, c: Cursor)
    requires CursorOk(src, sg, c)
    ensures var c' := Copy(src, sg, c);
            && c.i <= c'.i
            && (c'.i == |src| || c'.j == |sg|)
            && (c'.i < |src| && c'.foff > 0 ==> c'.foff < |src[c'.i]|)
            && (c'.i == c.i ==> c.foff <= c'.foff)
    decreases |src| - c.i, (if c.i < |src| then |src[c.i]| - c.foff else 0) + (|sg| - c.j)
  {
    if c.i < |src| {
      if c.foff == |src[c.i]| && (c.foff > 0 || c.j < |sg|) {
        CopyStops(src, sg, c.(i := c.i + 1, foff := 0));
      } else if c.j < |sg| {
        hide Patch;
        CopyStops(src, sg, CopyPiece(src, sg, c));
      }
    }
  }

  /** The next bytes of the sources have been moved to the next places of the targets. */
  predicate Moved(src: seq<seq<bv8>>, sg: seq<Window>, c: Cursor, c': Cursor)
    requires CursorOk(src, sg, c) && CursorOk(src, sg, c')
  {
    && Pos(src, c) <= Pos(src, c') <= |Bytes(src)|
    && Gathered(sg, c'.mem, c'.j, c'.toff) ==
       Gathered(sg, c.mem, c.j, c.toff) + Bytes(src)[Pos(src, c)..Pos(src, c')]
    && RoomAt(sg, c'.j, c'.toff) == RoomAt(sg, c.j, c.toff) - (Pos(src, c') - Pos(src, c))
  }

  lemma {:induction false} MovedTransitive(src: seq<seq<bv8>>, sg: seq<Window>, a: Cursor, b: Cursor, c: Cursor)
    requires CursorOk(src, sg, a) && CursorOk(src, sg, b) && CursorOk(src, sg, c)
    requires Moved(src, sg, a, b) && Moved(src, sg, b, c)
    ensures Moved(src, sg, a, c)
  {
    hide Gathered, RoomAt, Bytes, Pos;
    SliceJoin(Bytes(src), Pos(src, a), Pos(src, b), Pos(src, c));
  }

  lemma {:induction false} MovedPiece(src: seq<seq<bv8>>, sg: seq<Window>, c: Cursor)
    requires CursorOk(src, sg, c) && c.i < |src| && c.j < |sg|
    ensures Moved(src, sg, c, CopyPiece(src, sg, c))
  {
    hide Gathered, RoomAt, Bytes;
    PieceGathers(src, sg, c);
    BytesWithin(src, c.i, c.foff, CopyPiece(src, sg, c).foff);
  }

  lemma {:induction false} MovedNothing(src: seq<seq<bv8>>, sg: seq<Window>, c: Cursor)
    requires CursorOk(src, sg, c)
    ensures Moved(src, sg, c, c)
  {
    if c.i < |src| {
      BytesWithin(src, c.i, 0, c.foff);
    } else {
      assert src[..c.i] == src;
    }
  }

  /** Stepping from the end of one buffer to the start of the next moves nothing. */
  lemma {:induction false} MovedBuffer(src: seq<seq<bv8>>, sg: seq<Window>, c: Cursor)
    requires CursorOk(src, sg, c) && c.i < |src| && c.foff == |src[c.i]|
    ensures CursorOk(src, sg, c.(i := c.i + 1, foff := 0))
    ensures Moved(src, sg, c, c.(i := c.i + 1, foff := 0))
  {
    BytesStep(src, c.i);
    MovedNothing(src, sg, c);
  }

  /** MAIN RESULT on the copy loops, for every mix of empty and partly used entries on both
      sides: they move the next bytes of the sources, in order and without gap, to the
      next places of the target list, and the room shrinks by what was moved. */
  lemma {:induction false} CopyMoves(src: seq<seq<bv8>>, sg: seq<Window>, c: Cursor)
    requires CursorOk(src, sg, c)
    ensures Moved(src, sg, c, Copy(src, sg, c))
    decreases |src| - c.i, (if c.i < |src| then |src[c.i]| - c.foff else 0) + (|sg| - c.j)
  {
    hide Moved;
    if c.i < |src| && c.foff == |src[c.i]| && (c.foff > 0 || c.j < |sg|) {
      var next := c.(i := c.i + 1, foff := 0);
      MovedBuffer(src, sg, c);
      CopyMoves(src, sg, next);
      MovedTransitive(src, sg, c, next, Copy(src, sg, next));
    } else if c.i < |src| && c.j < |sg| {
      var next := CopyPiece(src, sg, c);
      MovedPiece(src, sg, c);
      CopyMoves(src, sg, next);
      MovedTransitive(src, sg, c, next, Copy(src, sg, next));
    } else {
      MovedNothing(src, sg, c);
    }
  }
}
