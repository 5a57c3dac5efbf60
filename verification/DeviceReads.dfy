/** Reads of the character device (drv/cdev.c) as read requests of a receive queue. */
module DeviceReads {
  import opened ScatterGather
  import opened Segmentation
  import opened ReceiveCopy
  import opened ReceiveRuns
  import opened ReceiveHardware
  import opened ReceiveTheorems
  import opened ReceiveReads
  import Rx = ReceiveSpec

  /** The target list that drv/cdev.c builds for a read. */
  function Windows(s: seq<UserSg>): (w: seq<Rx.Window>)
    ensures |w| == |s|
  {
    seq(|s|, i requires 0 <= i < |s| => Rx.Window(s[i].offset, s[i].len))
  }

  lemma {:induction false} WindowsRoom(s: seq<UserSg>, j: nat)
    requires j <= |s|
    ensures Room(Windows(s), j) == UserLen(s[j..])
    decreases |s| - j
  {
    if j < |s| {
      WindowsRoom(s, j + 1);
      assert s[j..][1..] == s[j + 1..];
    }
  }

  /** A read of the character device satisfies what runs of the receive queue ask of a new
      read: its count is the room in its list, and every entry lies in its page. */
  lemma {:induction false} CdevReadIsFresh(id: nat, buf: nat, len: nat, pages: seq<nat>, mem: seq<seq<bv8>>)
    requires 0 < len < U32 && |pages| == PagesNr(buf, len)
    requires |mem| == |pages| && forall i :: 0 <= i < |mem| ==> |mem[i]| == PAGE_SIZE
    ensures Fresh(Rx.Read(id, false, Windows(Segments(buf, len, pages)), mem, len, len, 0, 0))
  {
    hide PagesNr;
    var s := Segments(buf, len, pages);
    SegmentsTile(buf, len, pages);
    WindowsRoom(s, 0);
    assert s[0..] == s;
    forall i | 0 <= i < |s| ensures s[i].offset + s[i].len <= PAGE_SIZE {
      TilesEntry(s, buf, i);
    }
  }

  /* ---- the user's buffer ---- */

  /** A target list without room holds what its entries hold. */
  lemma {:induction false} FullIsFilled(sg: seq<Rx.Window>, mem: seq<seq<bv8>>, j: nat, toff: nat)
    requires PagesFit(sg, mem) && j <= |sg| && (j < |sg| ==> toff <= sg[j].len)
    requires RoomAt(sg, j, toff) == 0
    ensures Gathered(sg, mem, j, toff) == Filled(sg, mem, |sg|)
    decreases |sg| - j
  {
    if j < |sg| {
      RoomSplit(sg, j);
      NextEntry(sg, mem, j);
      FullIsFilled(sg, mem, j + 1, 0);
    }
  }

  lemma {:induction false} RoomSplit(sg: seq<Rx.Window>, j: nat)
    requires j < |sg|
    ensures Room(sg, j) == sg[j].len + Room(sg, j + 1)
  {
  }

  /** The bytes of entry `e` among those of the list. */
  lemma {:induction false} FilledAt(s: seq<UserSg>, mem: seq<seq<bv8>>, n: nat, e: nat, d: nat)
    requires PagesFit(Windows(s), mem) && e < n <= |s| && d < s[e].len
    ensures |Filled(Windows(s), mem, n)| == UserLen(s[..n])
    ensures UserLen(s[..e]) + d < UserLen(s[..n])
    ensures Filled(Windows(s), mem, n)[UserLen(s[..e]) + d] == mem[e][s[e].offset + d]
    decreases n
  {
    hide UserLen;
    FilledLen(s, mem, n - 1);
    UserLenStep(s, n - 1);
    if e < n - 1 {
      FilledAt(s, mem, n - 1, e, d);
    }
  }

  lemma {:induction false} FilledLen(s: seq<UserSg>, mem: seq<seq<bv8>>, n: nat)
    requires PagesFit(Windows(s), mem) && n <= |s|
    ensures |Filled(Windows(s), mem, n)| == UserLen(s[..n])
  {
    hide UserLen;
    if n > 0 {
      FilledLen(s, mem, n - 1);
      UserLenStep(s, n - 1);
    } else {
      assert UserLen(s[..0]) == 0 by { NoUserLen(s); }
    }
  }

  lemma {:induction false} NoUserLen(s: seq<UserSg>)
    ensures UserLen(s[..0]) == 0
  {
  }

  lemma {:induction false} UserLenStep(s: seq<UserSg>, n: nat)
    requires n < |s|
    ensures UserLen(s[..n + 1]) == UserLen(s[..n]) + s[n].len
  {
    if n > 0 {
      UserLenStep(s[1..], n - 1);
      UserLenFirst(s, n);
      UserLenFirst(s, n - 1);
    } else {
      assert s[..1] == [s[0]] && s[..0] == [] && s[..1][1..] == [];
    }
  }

  /** Byte `k` of the `len` bytes in `moved` is at byte `k` of the buffer. */
  predicate ByteInPlace(mem: seq<seq<bv8>>, moved: seq<bv8>, buf: nat, len: nat, k: nat)
  {
    var e, o := (buf + k) / PAGE_SIZE - buf / PAGE_SIZE, (buf + k) % PAGE_SIZE;
    k < |moved| == len && 0 <= e < |mem| && o < |mem[e]| && mem[e][o] == moved[k]
  }

  /** The windows of the buffer put every byte in its place. */
  lemma {:induction false} WindowsInPlace(buf: nat, len: nat, user: seq<nat>, mem: seq<seq<bv8>>, k: nat)
    requires 0 < len < U32 && |user| == PagesNr(buf, len) && k < len
    requires PagesFit(Windows(Segments(buf, len, user)), mem)
    ensures ByteInPlace(mem, Filled(Windows(Segments(buf, len, user)), mem, |user|), buf, len, k)
  {
    hide Segments, PagesNr, UserLen, Filled;
    var s, e := Segments(buf, len, user), (buf + k) / PAGE_SIZE - buf / PAGE_SIZE;
    ByteInSegment(buf, len, user, k);
    SegmentsTile(buf, len, user);
    UserLenStep(s, e);
    FilledAt(s, mem, |s|, e, k - UserLen(s[..e]));
    assert s[..|s|] == s;
  }

  /** MAIN RESULT from end to end.  In every reachable state a complete read of the character
      device has put byte `k` of what was moved to it at byte `k` of the user's buffer: in
      the page that holds that byte, at the byte's own place. */
  lemma {:induction false} ReadFillsTheBuffer(pages: seq<seq<bv8>>, bufsz: nat, wsz: nat, uddEn: bool, steps: seq<Step>,
                                              rd: Rx.Read, buf: nat, len: nat, user: seq<nat>, k: nat)
    requires Pages(pages, bufsz, wsz) && 0 < len < U32 && |user| == PagesNr(buf, len) && k < len
    requires rd in Exec(pages, bufsz, wsz, uddEn, steps).filled && rd.sg == Windows(Segments(buf, len, user))
    ensures ByteInPlace(rd.mem, Of(Exec(pages, bufsz, wsz, uddEn, steps).log, rd.id), buf, len, k)
  {
    hide Exec, Segments, PagesNr, Of, Gathered, Filled, RoomAt, Delivered, ByteInPlace;
    ReadsHoldTheStream(pages, bufsz, wsz, uddEn, steps, rd);
    FullIsFilled(rd.sg, rd.mem, rd.sgIdx, rd.sgOff);
    WindowsInPlace(buf, len, user, rd.mem, k);
  }
}
