/** Arithmetic of wrapped ring positions: the slot and the phase tag that belong to
    the k-th entry ever placed in a ring of `len` slots. */
module Ring {
  import opened Arithmetic

  /** The slot the k-th entry occupies: k modulo len (see SlotIsRemainder), by repeated
      subtraction so that proofs about laps stay linear. */
  function Slot(k: nat, len: nat): (r: nat)
    requires len > 0
    ensures r < len
  {
    if k < len then k else Slot(k - len, len)
  }

  /** The phase tag of the k-th entry: true on the first lap, flipped on each further lap. */
  predicate Phase(k: nat, len: nat)
    requires len > 0
  {
    if k < len then true else !Phase(k - len, len)
  }

  lemma {:induction false} SlotIsRemainder(k: nat, len: nat)
    requires len > 0
    ensures Slot(k, len) == k % len
    ensures Phase(k, len) <==> k / len % 2 == 0
  {
    if k < len {
      DivModUnique(k, len, 0, k);
    } else {
      SlotIsRemainder(k - len, len);
      RemainderStep(k, len);
      Parity((k - len) / len);
    }
  }

  lemma Parity(q: nat)
    ensures (q + 1) % 2 == 0 <==> q % 2 != 0
  {
  }

  lemma RemainderStep(k: nat, len: nat)
    requires 0 < len <= k
    ensures k % len == (k - len) % len && k / len == (k - len) / len + 1
  {
    var q, r := (k - len) / len, (k - len) % len;
    Quotient(k - len, len);
    Commute(len, q);
    OneMore(q, len);
    DivModUnique(k, len, q + 1, r);
  }

  lemma OneMore(q: nat, len: nat)
    ensures (q + 1) * len == q * len + len
  {
  }

  /** Moving at most one lap ahead wraps the slot at most once, and flips the phase exactly then. */
  lemma {:induction false} Advance(k: nat, n: nat, len: nat)
    requires len > 0 && n <= len
    ensures Slot(k + n, len) == (if Slot(k, len) + n < len then Slot(k, len) + n else Slot(k, len) + n - len)
    ensures Phase(k + n, len) == (if Slot(k, len) + n < len then Phase(k, len) else !Phase(k, len))
  {
    if k >= len {
      Advance(k - len, n, len);
    }
  }

  /** Within one lap a slot determines the position. */
  lemma SlotInjective(a: nat, b: nat, len: nat)
    requires len > 0 && a <= b < a + len
    ensures Slot(a, len) == Slot(b, len) <==> a == b
  {
    Advance(a, b - a, len);
  }

  /** Exactly one lap later the slot is the same and the phase is the opposite. */
  lemma FullLap(k: nat, len: nat)
    requires len > 0
    ensures Slot(k + len, len) == Slot(k, len)
    ensures Phase(k + len, len) == !Phase(k, len)
  {
    Advance(k, len, len);
  }

  /** On the first lap slot k is position k, tagged true. */
  lemma FirstLap(k: nat, len: nat)
    requires k < len
    ensures Slot(k, len) == k && Phase(k, len)
  {
  }

  /** One step forward, as the code computes it. */
  lemma Next(k: nat, len: nat)
    requires len > 1
    ensures Slot(k + 1, len) == Slot(Slot(k, len) + 1, len)
    ensures Phase(k + 1, len) == (if Slot(k + 1, len) == 0 then !Phase(k, len) else Phase(k, len))
  {
    Advance(k, 1, len);
  }

  /** The test `head == (tail + 1) % len` finds the ring one entry short of a lap. */
  lemma OneShort(a: nat, b: nat, len: nat)
    requires len > 1 && a <= b < a + len
    ensures Slot(Slot(b, len) + 1, len) == Slot(a, len) <==> b == a + len - 1
  {
    Next(b, len);
    if b + 1 < a + len {
      SlotInjective(a, b + 1, len);
    } else {
      FullLap(a, len);
    }
  }

  /** A wrapped position moved by less than a lap, wrapped again. */
  lemma Ahead(k: nat, n: nat, len: nat)
    requires len > 0 && n < len
    ensures Slot(Slot(k, len) + n, len) == Slot(k + n, len)
    ensures Phase(k + n, len) == (if Slot(k, len) + n >= len then !Phase(k, len) else Phase(k, len))
  {
    Advance(k, n, len);
  }

  /** The host wraps at min(len, cap) and tells the controller len: they step through the
      same slots exactly when len is at most cap. */
  lemma {:induction false} ClampAgreesIff(len: nat, cap: nat)
    requires len > 0 && cap > 0
    ensures (forall k: nat :: Slot(k, if len < cap then len else cap) == Slot(k, len)) <==> len <= cap
  {
    if len > cap {
      assert Slot(cap, cap) != Slot(cap, len);
    }
  }
}
