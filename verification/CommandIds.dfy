/** The command identifiers `self.id << 11 | self.sub_queue.tail as u16` of src/nvme.rs. */
module CommandIds {
  import opened Arithmetic
  import opened Ring
  import opened Commands

  /** Bitwise or of the low `bits` bits. */
  function Or(a: nat, b: nat, bits: nat): nat {
    if bits == 0 then 0
    else (if a % 2 == 1 || b % 2 == 1 then 1 else 0) + 2 * Or(a / 2, b / 2, bits - 1)
  }

  /** a << k */
  function Shl(a: nat, k: nat): nat { if k == 0 then a else 2 * Shl(a, k - 1) }

  function PairCid(id: nat, tail: nat): nat {
    Or(Shl(id, 11) % U16, tail % U16, 16)
  }

  lemma {:induction false} OrOfDisjoint(a: nat, b: nat, k: nat, bits: nat)
    requires a < Shl(1, bits) && b < Shl(1, k)
    ensures Or(Shl(a, k), b, k + bits) == Shl(a, k) + b
  {
    if k > 0 {
      OrOfDisjoint(a, b / 2, k - 1, bits);
    } else {
      OrZero(a, bits);
    }
  }

  lemma {:induction false} OrZero(a: nat, bits: nat)
    requires a < Shl(1, bits)
    ensures Or(a, 0, bits) == a
  {
    if bits > 0 {
      OrZero(a / 2, bits - 1);
    }
  }

  lemma {:induction false} OrShift(a: nat, b: nat, k: nat, bits: nat)
    ensures Or(Shl(a, k), Shl(b, k), k + bits) == Shl(Or(a, b, bits), k)
  {
    if k > 0 {
      OrShift(a, b, k - 1, bits);
    }
  }

  lemma Shl11(a: nat)
    ensures Shl(a, 11) == 2048 * a
  {
    assert Shl(a, 1) == 2 * a;
    assert Shl(a, 2) == 4 * a;
    assert Shl(a, 4) == 16 * a;
    assert Shl(a, 6) == 64 * a;
    assert Shl(a, 8) == 256 * a;
    assert Shl(a, 10) == 1024 * a;
  }

  /** The cast to 16 bits drops all but five bits of the queue id. */
  lemma ShiftedId(id: nat)
    ensures Shl(id, 11) % U16 == Shl(id % 32, 11)
  {
    Shl11(id);
    Shl11(id % 32);
    DivModUnique(2048 * id, U16, id / 32, 2048 * (id % 32));
  }

  /** While the tail fits in 11 bits the identifier is the pair (queue id mod 32, tail). */
  lemma PairCidValue(id: nat, tail: nat)
    requires tail < 2048
    ensures PairCid(id, tail) == id % 32 * 2048 + tail
  {
    hide Or;
    assert Shl(1, 5) == 32 by {
      assert Shl(1, 2) == 4;
      assert Shl(1, 4) == 16;
    }
    hide Shl;
    ShiftedId(id);
    Shl11(id % 32);
    Shl11(1);
    OrOfDisjoint(id % 32, tail, 11, 5);
  }

  /** Commands in the ring window, each submitted with the tail of the moment in its identifier,
      have distinct identifiers, within a pair and across pairs, while rings have at most 2048 slots. */
  lemma WindowIdsDistinct(id: nat, i: nat, id': nat, i': nat, len: nat)
    requires 0 < len <= 2048 && id < 32 && id' < 32
    requires i <= i' < i + len || id != id'
    ensures PairCid(id, Slot(i, len)) == PairCid(id', Slot(i', len)) <==> id == id' && i == i'
  {
    hide Slot, PairCid;
    PairCidValue(id, Slot(i, len));
    PairCidValue(id', Slot(i', len));
    if id == id' {
      SlotInjective(i, i', len);
    }
  }

  /** How many of the low `bits` bits of id are clear before the first that is set. */
  function LowZeros(id: nat, bits: nat): (r: nat)
    ensures r <= bits
  {
    if bits == 0 || id % 2 == 1 then 0 else 1 + LowZeros(id / 2, bits - 1)
  }

  lemma {:induction false} LowZerosShift(id: nat, bits: nat) returns (v: nat)
    requires id < Shl(1, bits)
    ensures var k := LowZeros(id, bits);
      id == Shl(v, k) && v < Shl(1, bits - k) && (k < bits ==> v % 2 == 1)
  {
    if bits == 0 || id % 2 == 1 {
      v := id;
    } else {
      v := LowZerosShift(id / 2, bits - 1);
    }
  }

  lemma {:induction false} ShlShl(v: nat, j: nat, k: nat)
    ensures Shl(Shl(v, j), k) == Shl(v, k + j)
  {
    if k > 0 {
      ShlShl(v, j, k - 1);
    }
  }

  /** The shifted id leaves 11 + k low bits free, where k is LowZeros. */
  lemma ShiftedFree(id: nat) returns (v: nat)
    ensures var k := LowZeros(id % 32, 5);
      Shl(id, 11) % U16 == Shl(v, 11 + k) && v < Shl(1, 5 - k) && (k < 5 ==> v % 2 == 1)
  {
    hide LowZeros;
    assert Shl(1, 5) == 32 by {
      assert Shl(1, 2) == 4;
      assert Shl(1, 4) == 16;
    }
    v := LowZerosShift(id % 32, 5);
    ShiftedId(id);
    ShlShl(v, LowZeros(id % 32, 5), 11);
  }

  /** For every queue id that bound is exact once the clear low bits of the id are counted:
      the identifiers in a ring are distinct as long as its slots fit the free bits. */
  lemma {:induction false} IdsDistinctIff(id: nat, len: nat)
    requires len <= U16
    ensures (forall t: nat, t': nat :: t < t' < len ==> PairCid(id, t) != PairCid(id, t'))
            <==> len <= Shl(1, 11 + LowZeros(id % 32, 5))
  {
    hide Or, Shl, LowZeros;
    var k := LowZeros(id % 32, 5);
    var v := ShiftedFree(id);
    if len <= Shl(1, 11 + k) {
      forall t: nat, t': nat | t < t' < len
        ensures PairCid(id, t) != PairCid(id, t')
      {
        OrOfDisjoint(v, t, 11 + k, 5 - k);
        OrOfDisjoint(v, t', 11 + k, 5 - k);
      }
    } else {
      FreeBits(k);
      SharedId(id, v, k);
    }
  }

  lemma FreeBits(k: nat)
    requires k <= 5
    ensures 0 < Shl(1, 11 + k) <= U16 && (k == 5 <==> Shl(1, 11 + k) == U16)
  {
    ShlShl(1, k, 11);
    Shl11(Shl(1, k));
    assert Shl(1, 1) == 2 && Shl(1, 2) == 4 && Shl(1, 3) == 8 && Shl(1, 4) == 16 && Shl(1, 5) == 32;
  }

  lemma OddOr(v: nat, bits: nat)
    requires v % 2 == 1
    ensures Or(v, 0, bits + 1) == Or(v, 1, bits + 1)
  {
  }

  lemma {:induction false} ShlZero(k: nat)
    ensures Shl(0, k) == 0
  {
    if k > 0 {
      ShlZero(k - 1);
    }
  }

  lemma PairCidOf(id: nat, tail: nat)
    requires tail < U16
    ensures PairCid(id, tail) == Or(Shl(id, 11) % U16, tail, 16)
  {
    hide Or, Shl;
  }

  /** A slot number that sets only a bit the id has set already. */
  lemma SharedId(id: nat, v: nat, k: nat)
    requires k < 5 && v % 2 == 1 && Shl(id, 11) % U16 == Shl(v, 11 + k)
    ensures PairCid(id, 0) == PairCid(id, Shl(1, 11 + k))
  {
    OddOr(v, 4 - k);
    hide Or, Shl, PairCid;
    FreeBits(k);
    PairCidOf(id, 0);
    PairCidOf(id, Shl(1, 11 + k));
    ShlZero(11 + k);
    OrShift(v, 0, 11 + k, 5 - k);
    OrShift(v, 1, 11 + k, 5 - k);
    assert 11 + k + (5 - k) == 16;
  }

  // ---------------------------------------------------------------- the identifiers of queued commands

  /** Each command submitted to pair `id` carries the identifier of its place in the ring. */
  ghost predicate Identified(cmds: seq<Command>, id: nat, len: nat)
    requires len > 0
  {
    forall k :: 0 <= k < |cmds| ==> cmds[k].cid == PairCid(id, Slot(k, len))
  }

  /** Commands as far apart as the ring allows have distinct identifiers, whatever was submitted,
      exactly as long as the slots fit the bits the queue id leaves free. */
  lemma QueuedIdsIff(id: nat, len: nat)
    requires 0 < len <= U16
    ensures (forall cmds: seq<Command>, k: nat, l: nat ::
               Identified(cmds, id, len) && k < l < |cmds| && l < k + len ==> cmds[k].cid != cmds[l].cid)
            <==> len <= Shl(1, 11 + LowZeros(id % 32, 5))
  {
    hide Or, Shl, LowZeros, PairCid, Slot;
    IdsDistinctIff(id, len);
    if len <= Shl(1, 11 + LowZeros(id % 32, 5)) {
      forall cmds: seq<Command>, k: nat, l: nat |
        Identified(cmds, id, len) && k < l < |cmds| && l < k + len
        ensures cmds[k].cid != cmds[l].cid
      {
        SlotInjective(k, l, len);
      }
    } else {
      var t: nat, t': nat :| t < t' < len && PairCid(id, t) == PairCid(id, t');
      var cmds := seq(len, k requires 0 <= k < len => ZERO_COMMAND.(cid := PairCid(id, Slot(k, len))));
      FirstLap(t, len);
      FirstLap(t', len);
      assert Identified(cmds, id, len) && cmds[t].cid == cmds[t'].cid;
    }
  }

  lemma FirstLap(k: nat, len: nat)
    requires k < len
    ensures Slot(k, len) == k
  {
  }
}
