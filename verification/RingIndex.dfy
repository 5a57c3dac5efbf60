/** Index arithmetic of the driver's rings (libqdma/qdma_descq.h), and its meaning.

    The driver keeps only wrapped indices.  The proofs follow unbounded counts:
    entry number `n` of a stream lives in slot `Slot(n, sz)` of a ring with `sz`
    slots, and it is written during lap `n / sz`, whose parity is `Phase(n, sz)`.
 */
module RingIndex {

  /** `ring_idx_delta` */
  function Delta(newer: nat, older: nat, sz: nat): (d: nat)
    requires newer < sz && older < sz
    ensures d < sz
  {
    if newer >= older then newer - older else newer + (sz - older)
  }

  /** `ring_idx_incr` */
  function Incr(idx: nat, cnt: nat, sz: nat): (r: nat)
    requires idx < sz && cnt <= sz
    ensures r < sz
  {
    if idx + cnt >= sz then idx + cnt - sz else idx + cnt
  }

  /** `ring_idx_decr` */
  function Decr(idx: nat, cnt: nat, sz: nat): (r: nat)
    requires idx < sz && cnt <= sz
    ensures cnt > 0 ==> r < sz
  {
    if idx >= cnt then idx - cnt else sz - (cnt - idx)
  }

  /** The slot of entry `n`, that is `n % sz`. */
  function Slot(n: nat, sz: nat): (s: nat)
    requires sz > 0
    ensures s < sz
  {
    if n < sz then n else Slot(n - sz, sz)
  }

  /** The colour of the lap in which entry `n` is written: true on laps 0, 2, 4, ... */
  function Phase(n: nat, sz: nat): bool
    requires sz > 0
  {
    if n < sz then true else !Phase(n - sz, sz)
  }

  lemma {:induction false} SlotIncr(n: nat, cnt: nat, sz: nat)
    requires sz > 0 && cnt <= sz
    ensures Incr(Slot(n, sz), cnt, sz) == Slot(n + cnt, sz)
  {
    if n >= sz {
      SlotIncr(n - sz, cnt, sz);
    } else if n + cnt >= sz {
      assert n + cnt - sz <= n;
      assert Slot(n + cnt, sz) == Slot(n + cnt - sz, sz);
    }
  }

  /** The wrapped distance is the true distance while it is below the ring size. */
  lemma {:induction false} SlotDelta(newer: nat, older: nat, sz: nat)
    requires sz > 0 && older <= newer < older + sz
    ensures Delta(Slot(newer, sz), Slot(older, sz), sz) == newer - older
  {
    if older >= sz {
      SlotDelta(newer - sz, older - sz, sz);
    } else if newer >= sz {
      assert Slot(newer, sz) == Slot(newer - sz, sz) == newer - sz;
    }
  }

  /** Going back from entry `n` is the slot of the earlier entry, or, before the first lap
      is complete, the slot that comes around to it. */
  lemma {:induction false} SlotDecr(n: nat, cnt: nat, sz: nat)
    requires cnt <= sz && sz > 0
    ensures Decr(Slot(n, sz), cnt, sz) == Slot(n + sz - cnt, sz)
    ensures cnt <= n ==> Decr(Slot(n, sz), cnt, sz) == Slot(n - cnt, sz)
  {
    SlotIncr(n, sz - cnt, sz);
    if cnt <= n {
      SlotIncr(n - cnt, sz, sz);
    }
  }

  /** Entries less than a lap apart never share a slot. */
  lemma {:induction false} SlotInjective(a: nat, b: nat, sz: nat)
    requires sz > 0 && a < b < a + sz
    ensures Slot(a, sz) != Slot(b, sz)
  {
    SlotDelta(b, a, sz);
  }

  /** Every slot is met exactly once in any window of `sz` entries. */
  lemma {:induction false} SlotOf(base: nat, s: nat, sz: nat) returns (n: nat)
    requires s < sz
    ensures base <= n < base + sz && Slot(n, sz) == s
    ensures n == base + Delta(s, Slot(base, sz), sz)
  {
    var d := Delta(s, Slot(base, sz), sz);
    n := base + d;
    SlotIncr(base, d, sz);
  }

  lemma {:induction false} PhaseFlips(n: nat, sz: nat)
    requires sz > 0
    ensures Slot(n + sz, sz) == Slot(n, sz)
    ensures Phase(n + sz, sz) == !Phase(n, sz)
  {
  }

  /** The pair (index, colour) of a consumer advances by the rule of `wrb_next` and of
      `data_intr_aggregate`: add one, and on reaching the end start over and flip. */
  lemma {:induction false} PhaseAdvance(n: nat, sz: nat)
    requires sz > 0
    ensures Slot(n, sz) + 1 == sz ==> Slot(n + 1, sz) == 0 && Phase(n + 1, sz) == !Phase(n, sz)
    ensures Slot(n, sz) + 1 < sz ==> Slot(n + 1, sz) == Slot(n, sz) + 1 && Phase(n + 1, sz) == Phase(n, sz)
  {
    if n >= sz {
      PhaseAdvance(n - sz, sz);
    } else if n + 1 == sz {
      assert Slot(sz, sz) == Slot(0, sz) == 0;
      assert Phase(sz, sz) == !Phase(0, sz);
    }
  }

  lemma {:induction false} MulStep(a: nat, b: nat)
    ensures (a + 1) * b == a * b + b
  {
  }

  /** The recursive definitions are the remainder and the parity of the quotient. */
  lemma {:induction false} SlotIsRemainder(n: nat, sz: nat, laps: nat)
    requires sz > 0 && laps * sz <= n < (laps + 1) * sz
    ensures Slot(n, sz) == n - laps * sz
    ensures Phase(n, sz) == (laps % 2 == 0)
  {
    MulStep(laps, sz);
    if laps > 0 {
      MulStep(laps - 1, sz);
      LapBelow(laps - 1, sz);
      SlotIsRemainder(n - sz, sz, laps - 1);
    }
  }

  lemma {:induction false} LapBelow(laps: nat, sz: nat)
    ensures 0 <= laps * sz
  {
  }
}
