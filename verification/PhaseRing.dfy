/** A ring that one side writes and the other side reads, with no shared counter: the
    writer stores in every entry the colour of its lap, and the reader accepts an entry
    exactly when the stored colour is the colour it expects.

    The driver uses this protocol twice, for the completion ring of a receive queue and
    for the interrupt aggregation ring.
 */
module PhaseRing {
  import opened RingIndex

  datatype Entry<T> = Entry(color: bool, val: T)

  /** `mem` is the memory of a zeroed ring after the writer has stored `log`. */
  ghost predicate Holds<T>(mem: seq<Entry<T>>, log: seq<T>)
  {
    && |mem| > 0
    && (forall k :: 0 <= k < |log| <= k + |mem| ==>
          mem[Slot(k, |mem|)] == Entry(Phase(k, |mem|), log[k]))
    && (forall s :: |log| <= s < |mem| ==> !mem[s].color)
  }

  /** The writer stores entry number `|log|`. */
  function Write<T>(mem: seq<Entry<T>>, log: seq<T>, v: T): (r: seq<Entry<T>>)
    requires |mem| > 0
    ensures |r| == |mem|
  {
    mem[Slot(|log|, |mem|) := Entry(Phase(|log|, |mem|), v)]
  }

  lemma {:induction false} WriteHolds<T>(mem: seq<Entry<T>>, log: seq<T>, v: T)
    requires Holds(mem, log)
    ensures Holds(Write(mem, log, v), log + [v])
  {
    var sz, log' := |mem|, log + [v];
    var mem' := Write(mem, log, v);
    forall k | 0 <= k < |log'| <= k + sz
      ensures mem'[Slot(k, sz)] == Entry(Phase(k, sz), log'[k])
    {
      if k < |log| {
        SlotInjective(k, |log|, sz);
      }
    }
  }

  /** The colour test is exact: as long as the writer has not lapped the reader, the slot
      of entry `n` shows the expected colour if and only if entry `n` has been written,
      and then it shows that entry. */
  lemma {:induction false} ColorTestExact<T>(mem: seq<Entry<T>>, log: seq<T>, n: nat)
    requires Holds(mem, log)
    requires n <= |log| <= n + |mem|
    ensures mem[Slot(n, |mem|)].color == Phase(n, |mem|) <==> n < |log|
    ensures n < |log| ==> mem[Slot(n, |mem|)].val == log[n]
  {
    if n == |log| && n >= |mem| {
      PhaseFlips(n - |mem|, |mem|);
    }
  }

  /** Without the lap bound the test fails: one entry too many makes an unread entry
      look old. */
  lemma {:induction false} ColorTestNeedsBound<T>(mem: seq<Entry<T>>, log: seq<T>, n: nat)
    requires Holds(mem, log)
    requires |log| == n + |mem| + 1
    ensures mem[Slot(n, |mem|)].color != Phase(n, |mem|)
  {
    PhaseFlips(n, |mem|);
    assert |log| <= (n + |mem|) + |mem|;
  }
}
