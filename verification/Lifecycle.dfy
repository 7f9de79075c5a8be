/** Creating and deleting queue pairs (src/nvme.rs), against a controller that keeps its own
    account of live queues and may refuse any command, and an allocator that may have no memory. */
module Lifecycle {
  import opened Options
  import opened Commands
  import CommandIds
  import opened Memory
  import opened Queues
  import opened VfioModel
  import opened AdminModel
  import opened AdminQueueModel
  import Protocol

  /** The part of an NvmeQueuePair that matters here. Doorbells are offsets into the BAR. */
  datatype Pair = Pair(id: nat, sub: Dma, comp: Dma, sqDoorbell: nat, cqDoorbell: nat)

  datatype Error = Panicked | NoMemory | Refused

  datatype Created = Created(pair: Pair) | NotCreated(error: Error)

  /** What one call of create_io_queue_pair meets: the page size of the allocator and the memory
      it gives, if any, and the faults of the controller. */
  datatype CreateWorld = CreateWorld(page: Pagesize, comp: Option<Dma>, cqFault: nat, sub: Option<Dma>, sqFault: nat)

  /** ... and one call of delete_io_queue_pair: faults, and whether each unmapping succeeds. */
  datatype DeleteWorld = DeleteWorld(sqFault: nat, cqFault: nat, freeSub: bool, freeComp: bool)

  datatype Device = Device(
    bar: nat,                // length of the mapped register space
    stride: nat,             // 4 << dstrd
    qId: nat,                // next queue id, 16 bits
    admin: Admin,            // the controller
    memory: set<Dma>,        // handed out by the allocator and not taken back
    // history
    issued: set<Pair>,       // every pair ever returned to a caller
    cqMem: map<nat, Dma>,    // the memory behind each live completion queue
    sqMem: map<nat, Dma>     // the memory behind each live submission queue
  )

  // ---------------------------------------------------------------- doorbells

  /** `4 << dstrd`, for the 4-bit DSTRD field. */
  function Stride(dstrd: nat): nat {
    if dstrd == 0 then 4 else 2 * Stride(dstrd - 1)
  }

  lemma {:induction false} StrideIs(dstrd: nat)
    ensures Stride(dstrd) == 4 * CommandIds.Shl(1, dstrd) > 0
  {
    if dstrd > 0 {
      StrideIs(dstrd - 1);
    }
  }

  /** The k-th doorbell register. */
  function Doorbell(stride: nat, k: nat): nat { 0x1000 + stride * k }

  /** `(4 << dstrd) * (2 * q_id) as usize`, in which `2 * q_id` has 16 bits. */
  function SqDoorbell(stride: nat, q: nat): nat { Doorbell(stride, 2 * q % U16) }

  function CqDoorbell(stride: nat, q: nat): nat { Doorbell(stride, (2 * q + 1) % U16) }

  lemma Scaled(stride: nat, a: nat, b: nat)
    requires stride > 0 && a < b
    ensures Doorbell(stride, a) < Doorbell(stride, b)
  {
    assert stride * b == stride * a + stride * (b - a);
    assert stride * (b - a) == stride + stride * (b - a - 1);
  }

  /** The four doorbells of two ids are different, and not below those of a smaller id. */
  lemma DoorbellOrder(stride: nat, p: nat, q: nat)
    requires stride > 0 && p < q < U16 / 2
    ensures SqDoorbell(stride, p) < CqDoorbell(stride, p) < SqDoorbell(stride, q) < CqDoorbell(stride, q)
  {
    hide Doorbell;
    Scaled(stride, 2 * p, 2 * p + 1);
    Scaled(stride, 2 * p + 1, 2 * q);
    Scaled(stride, 2 * q, 2 * q + 1);
  }

  /** The doorbells of the first n queue ids are all different exactly while `2 * q_id` fits. */
  lemma DoorbellsDistinctIff(stride: nat, n: nat)
    requires stride > 0
    ensures (forall p: nat, q: nat :: p < q < n ==>
               SqDoorbell(stride, p) != SqDoorbell(stride, q) && CqDoorbell(stride, p) != CqDoorbell(stride, q))
            <==> n <= U16 / 2
  {
    hide Doorbell;
    if n <= U16 / 2 {
      forall p: nat, q: nat | p < q < n
        ensures SqDoorbell(stride, p) != SqDoorbell(stride, q) && CqDoorbell(stride, p) != CqDoorbell(stride, q)
      {
        DoorbellOrder(stride, p, q);
      }
    } else {
      assert SqDoorbell(stride, 0) == SqDoorbell(stride, U16 / 2);
    }
  }

  /** write_reg_idx computes the whole product in 16 bits; create_io_queue_pair does not. They
      mean the same register exactly while the product fits, for either doorbell. */
  lemma RegisterAgreesIff(stride: nat, q: nat)
    requires q < U16 / 2
    ensures (0x1000 + stride * (2 * q) % U16 == SqDoorbell(stride, q)) <==> stride * (2 * q) < U16
    ensures (0x1000 + stride * (2 * q + 1) % U16 == CqDoorbell(stride, q)) <==> stride * (2 * q + 1) < U16
  {
    assert 2 * q % U16 == 2 * q && (2 * q + 1) % U16 == 2 * q + 1;
    SmallProduct(stride * (2 * q));
    SmallProduct(stride * (2 * q + 1));
  }

  lemma SmallProduct(x: nat)
    ensures x % U16 == x <==> x < U16
  {
  }

  // ---------------------------------------------------------------- the two operations

  /** create_io_queue_pair: the completion queue first, then the submission queue on it; what
      was done before a failure stays done. */
  function Create(s: Device, len: nat, w: CreateWorld): (Device, Created) {
    var q := s.qId;
    if CqDoorbell(s.stride, q) + 4 > s.bar then (s, NotCreated(Panicked))
    else match w.comp
      case None => (s, NotCreated(NoMemory))
      case Some(comp) =>
        var s1 := s.(memory := s.memory + {comp});
        var (a1, status1) := Manage(s1.admin, CreateIoCompletionQueue(0, q, comp.phys, ZeroBased(len)), w.cqFault);
        if status1 != SUCCESS then (s1, NotCreated(Refused))
        else
          var s2 := s1.(admin := a1, cqMem := s1.cqMem[q := comp]);
          match w.sub
          case None => (s2, NotCreated(NoMemory))
          case Some(sub) =>
            var s3 := s2.(memory := s2.memory + {sub});
            var (a2, status2) := Manage(s3.admin, CreateIoSubmissionQueue(0, q, sub.phys, ZeroBased(len), q),
                                        w.sqFault);
            if status2 != SUCCESS then (s3, NotCreated(Refused))
            else
              var pair := Pair(q, sub, comp, SqDoorbell(s.stride, q), CqDoorbell(s.stride, q));
              (s3.(admin := a2, sqMem := s3.sqMem[q := sub], qId := (q + 1) % U16, issued := s3.issued + {pair}),
               Created(pair))
  }

  /** delete_io_queue_pair: both queues, then both pieces of memory; the first failure returns. */
  function Delete(s: Device, pair: Pair, w: DeleteWorld): (Device, bool) {
    var (a1, status1) := Manage(s.admin, DeleteIoSubmissionQueue(0, pair.id), w.sqFault);
    if status1 != SUCCESS then (s, false)
    else
      var s1 := s.(admin := a1, sqMem := s.sqMem - {pair.id});
      var (a2, status2) := Manage(s1.admin, DeleteIoCompletionQueue(0, pair.id), w.cqFault);
      if status2 != SUCCESS then (s1, false)
      else
        var s2 := s1.(admin := a2, cqMem := s1.cqMem - {pair.id});
        if !w.freeSub then (s2, false)
        else
          var s3 := s2.(memory := s2.memory - {pair.sub});
          if !w.freeComp then (s3, false)
          else (s3.(memory := s3.memory - {pair.comp}), true)
  }

  // ---------------------------------------------------------------- the invariant

  /** As the controller addresses them, two buffers share no byte. */
  predicate Disjoint(d: Dma, e: Dma) { Separate(d.phys, d.size, e.phys, e.size) }

  /** Memory the allocator may hand out: in use by nobody. */
  ghost predicate Unused(memory: set<Dma>, d: Dma) {
    d.size > 0 && forall e :: e in memory ==> Disjoint(d, e)
  }

  /** Bytes of one entry. */
  const SQ_ENTRY: nat := 64
  const CQ_ENTRY: nat := 16

  /** What is allocated for a ring, whatever its length. */
  function RingMemory(p: Pagesize, entry: nat): nat { p.ShiftUp(entry * QUEUE_LENGTH) }

  ghost predicate ValidWorld(s: Device, w: CreateWorld) {
    && (w.comp.Some? ==> Unused(s.memory, w.comp.value) && w.comp.value.size == RingMemory(w.page, CQ_ENTRY))
    && (w.sub.Some? ==> Unused(s.memory + (if w.comp.Some? then {w.comp.value} else {}), w.sub.value)
                        && w.sub.value.size == RingMemory(w.page, SQ_ENTRY))
  }

  /** The controller's account of a live queue and the memory behind it agree. */
  ghost predicate Backed(live: map<nat, Queue>, mem: map<nat, Dma>, memory: set<Dma>) {
    && live.Keys == mem.Keys
    && (forall q :: q in mem ==> mem[q] in memory && live[q].base == mem[q].phys)
    && (forall p, q :: p in mem && q in mem && p != q ==> mem[p] != mem[q])
  }

  /** Every submission queue reports to the completion queue of its own pair. */
  ghost predicate OwnCq(a: Admin) {
    forall q :: q in a.sqs ==> a.sqs[q].cq == q && q in a.cqs
  }

  /** Queues in use, or half made under the next id. */
  ghost predicate IdsUsed(s: Device) {
    && (forall q :: q in s.cqMem ==> 1 <= q <= s.qId)
    && (forall q :: q in s.sqMem ==> 1 <= q < s.qId)
  }

  ghost predicate Pairs(s: Device) {
    && (forall p :: p in s.issued ==> 1 <= p.id < s.qId && OfPair(s, p))
    && (forall p, q :: p in s.issued && q in s.issued && p.id == q.id ==> p == q)
  }

  ghost predicate OfPair(s: Device, p: Pair) {
    && p.sqDoorbell == SqDoorbell(s.stride, p.id) && p.cqDoorbell == CqDoorbell(s.stride, p.id) <= s.bar - 4
    && (p.id in s.sqMem ==> s.sqMem[p.id] == p.sub && p.id in s.cqMem)
    && (p.id in s.cqMem ==> s.cqMem[p.id] == p.comp)
  }

  /** The allocator's memory is in disjoint pieces. */
  ghost predicate Pieces(memory: set<Dma>) {
    && (forall d, e :: d in memory && e in memory && d != e ==> Disjoint(d, e))
    && (forall d :: d in memory ==> d.size > 0)
  }

  /** No completion queue shares its memory with a submission queue. */
  ghost predicate Unshared(cqMem: map<nat, Dma>, sqMem: map<nat, Dma>) {
    forall p, q :: p in cqMem && q in sqMem ==> cqMem[p] != sqMem[q]
  }

  /** The register space ends before the doorbell of id 0x7FFF, so that no arithmetic on ids
      wraps before the bounds check stops it. */
  predicate SmallBar(s: Device) {
    4 <= s.bar < 0x1000 + s.stride * (U16 - 1) + 4 && s.stride > 0 && 1 <= s.qId < U16 / 2
  }

  ghost predicate Inv(s: Device) {
    && SmallBar(s) && OwnCq(s.admin) && IdsUsed(s) && Pairs(s) && Pieces(s.memory) && Unshared(s.cqMem, s.sqMem)
    && Backed(s.admin.cqs, s.cqMem, s.memory) && Backed(s.admin.sqs, s.sqMem, s.memory)
  }

  /** Allocated memory behind no live queue. */
  ghost predicate Idle(s: Device, d: Dma) {
    && d in s.memory
    && (forall q :: q in s.cqMem ==> s.cqMem[q] != d)
    && (forall q :: q in s.sqMem ==> s.sqMem[q] != d)
  }

  lemma BackedAdd(live: map<nat, Queue>, mem: map<nat, Dma>, memory: set<Dma>, q: nat, e: Queue, d: Dma)
    requires Backed(live, mem, memory) && q !in live && d in memory && e.base == d.phys
    requires forall k :: k in mem ==> mem[k] != d
    ensures Backed(live[q := e], mem[q := d], memory)
  {
  }

  lemma BackedDrop(live: map<nat, Queue>, mem: map<nat, Dma>, memory: set<Dma>, q: nat)
    requires Backed(live, mem, memory)
    ensures Backed(live - {q}, mem - {q}, memory)
  {
  }

  lemma BackedKeys(live: map<nat, Queue>, mem: map<nat, Dma>, memory: set<Dma>, q: nat)
    requires Backed(live, mem, memory)
    ensures q in live <==> q in mem
  {
  }

  lemma BackedIn(live: map<nat, Queue>, mem: map<nat, Dma>, memory: set<Dma>, memory': set<Dma>)
    requires Backed(live, mem, memory) && forall k :: k in mem ==> mem[k] in memory'
    ensures Backed(live, mem, memory')
  {
  }

  lemma Overlap(a: Dma, b: Dma)
    requires a.size > 0 && b.size > 0
    ensures Area(a, true) !! Area(b, true) ==> Disjoint(a, b)
  {
    if !Disjoint(a, b) {
      var x := if a.phys < b.phys then b.phys else a.phys;
      assert x in Area(a, true) && x in Area(b, true);
    }
  }

  /** An allocator in the state VfioModel.Exact describes hands out what is required here: its
      buffers are disjoint pieces for the device, and each new one was unused. */
  lemma AllocatorServes(host: set<nat>, iova: set<nat>, live: map<Dma, Pagesize>, lost: set<nat>, legacy: bool, d: Dma)
    requires Exact(host, iova, live, lost, legacy) && d in live
    ensures Pieces(live.Keys) && Unused(live.Keys - {d}, d)
  {
    hide Areas;
    forall a, b | a in live && b in live && a != b
      ensures Disjoint(a, b)
    {
      assert Whole(a, live[a]) && Whole(b, live[b]);
      Overlap(a, b);
    }
    assert forall a :: a in live ==> Whole(a, live[a]);
  }

  lemma MemoryAdded(s: Device, d: Dma)
    requires Inv(s) && Unused(s.memory, d)
    ensures var t := s.(memory := s.memory + {d});
      Inv(t) && Idle(t, d)
  {
  }

  lemma MemoryFreed(s: Device, d: Dma)
    requires Inv(s) && Idle(s, d)
    ensures Inv(s.(memory := s.memory - {d}))
  {
    hide Disjoint, OwnCq, SqDoorbell, CqDoorbell;
    var t := s.(memory := s.memory - {d});
    assert Backed(t.admin.cqs, t.cqMem, t.memory) && Backed(t.admin.sqs, t.sqMem, t.memory) by {
      BackedIn(s.admin.cqs, s.cqMem, s.memory, t.memory);
      BackedIn(s.admin.sqs, s.sqMem, s.memory, t.memory);
    }
  }

  lemma CqAdded(s: Device, d: Dma, entries: nat)
    requires Inv(s) && Idle(s, d) && s.qId !in s.admin.cqs
    ensures var a := s.admin.(cqs := s.admin.cqs[s.qId := Queue(d.phys, entries, s.qId)]);
      Inv(s.(admin := a, cqMem := s.cqMem[s.qId := d]))
  {
    hide Disjoint, Backed, Pieces, SqDoorbell, CqDoorbell;
    BackedAdd(s.admin.cqs, s.cqMem, s.memory, s.qId, Queue(d.phys, entries, s.qId), d);
  }

  /** The bounds check stops ids before their arithmetic wraps. */
  lemma NextIdFits(s: Device)
    requires SmallBar(s) && CqDoorbell(s.stride, s.qId) + 4 <= s.bar
    ensures (s.qId + 1) % U16 == s.qId + 1 < U16 / 2
  {
  }

  lemma SqAdded(s: Device, d: Dma, comp: Dma, entries: nat)
    requires Inv(s) && Idle(s, d) && s.qId in s.cqMem && s.cqMem[s.qId] == comp
    requires CqDoorbell(s.stride, s.qId) + 4 <= s.bar
    ensures var q := s.qId;
      var a := s.admin.(sqs := s.admin.sqs[q := Queue(d.phys, entries, q)]);
      var pair := Pair(q, d, comp, SqDoorbell(s.stride, q), CqDoorbell(s.stride, q));
      Inv(s.(admin := a, sqMem := s.sqMem[q := d], qId := (q + 1) % U16, issued := s.issued + {pair}))
  {
    hide Disjoint, Backed, Pieces, SqDoorbell, CqDoorbell;
    NextIdFits(s);
    BackedKeys(s.admin.cqs, s.cqMem, s.memory, s.qId);
    BackedKeys(s.admin.sqs, s.sqMem, s.memory, s.qId);
    BackedAdd(s.admin.sqs, s.sqMem, s.memory, s.qId, Queue(d.phys, entries, s.qId), d);
  }

  lemma SqRemoved(s: Device, q: nat)
    requires Inv(s) && q in s.sqMem
    ensures Inv(s.(admin := s.admin.(sqs := s.admin.sqs - {q}), sqMem := s.sqMem - {q}))
  {
    hide Disjoint, Backed, Pieces, SqDoorbell, CqDoorbell;
    BackedDrop(s.admin.sqs, s.sqMem, s.memory, q);
  }

  lemma CqRemoved(s: Device, q: nat)
    requires Inv(s) && q in s.cqMem && q !in s.sqMem
    ensures Inv(s.(admin := s.admin.(cqs := s.admin.cqs - {q}), cqMem := s.cqMem - {q}))
  {
    hide Disjoint, Backed, Pieces, SqDoorbell, CqDoorbell;
    BackedKeys(s.admin.sqs, s.sqMem, s.memory, q);
    BackedDrop(s.admin.cqs, s.cqMem, s.memory, q);
  }

  // ---------------------------------------------------------------- what one call does

  lemma ZeroBasedFits(len: nat)
    ensures ZeroBased(len) < U16
  {
  }

  lemma CreateKeeps(s: Device, len: nat, w: CreateWorld)
    requires Inv(s) && ValidWorld(s, w)
    ensures Inv(Create(s, len, w).0)
  {
    hide Inv, Idle, Manage, ZeroBased, SqDoorbell, CqDoorbell, Disjoint;
    ZeroBasedFits(len);
    NextIdSmall(s);
    if CqDoorbell(s.stride, s.qId) + 4 <= s.bar && w.comp.Some? {
      var comp := w.comp.value;
      MemoryAdded(s, comp);
      var s1 := s.(memory := s.memory + {comp});
      CreateCq(s.admin, 0, s.qId, comp.phys, ZeroBased(len), w.cqFault);
      var (a1, status1) := Manage(s.admin, CreateIoCompletionQueue(0, s.qId, comp.phys, ZeroBased(len)), w.cqFault);
      if status1 == SUCCESS {
        CqAdded(s1, comp, ZeroBased(len) + 1);
        var s2 := s1.(admin := a1, cqMem := s1.cqMem[s.qId := comp]);
        if w.sub.Some? {
          var sub := w.sub.value;
          MemoryAdded(s2, sub);
          CreateSq(a1, 0, s.qId, sub.phys, ZeroBased(len), s.qId, w.sqFault);
          var (a2, status2) := Manage(a1, CreateIoSubmissionQueue(0, s.qId, sub.phys, ZeroBased(len), s.qId),
                                      w.sqFault);
          if status2 == SUCCESS {
            SqAdded(s2.(memory := s2.memory + {sub}), sub, comp, ZeroBased(len) + 1);
          }
        }
      }
    }
  }

  lemma NextIdSmall(s: Device)
    requires Inv(s)
    ensures 1 <= s.qId < U16 / 2
  {
  }

  /** With memory at hand and a willing controller, creation succeeds exactly when the next id
      is usable and no completion queue is left over under it. */
  lemma CreatedIff(s: Device, len: nat, w: CreateWorld)
    requires Inv(s)
    ensures Create(s, len, w).1.Created? <==>
      && CqDoorbell(s.stride, s.qId) + 4 <= s.bar
      && w.comp.Some? && w.sub.Some? && w.cqFault == 0 == w.sqFault
      && s.qId !in s.admin.cqs && s.qId <= s.admin.maxQueues && UsableSize(s.admin, ZeroBased(len) + 1)
  {
    hide Manage, ZeroBased, SqDoorbell, CqDoorbell;
    ZeroBasedFits(len);
    if w.comp.Some? {
      CreateCq(s.admin, 0, s.qId, w.comp.value.phys, ZeroBased(len), w.cqFault);
      var a1 := Manage(s.admin, CreateIoCompletionQueue(0, s.qId, w.comp.value.phys, ZeroBased(len)), w.cqFault).0;
      if w.sub.Some? {
        CreateSq(a1, 0, s.qId, w.sub.value.phys, ZeroBased(len), s.qId, w.sqFault);
      }
    }
  }

  lemma LengthTold(len: nat)
    requires 1 <= len <= U16
    ensures ZeroBased(len) + 1 == len
  {
  }

  /** The doorbells of an id whose completion doorbell is inside the register space. */
  lemma NextDoorbells(s: Device)
    requires SmallBar(s)
    ensures SqDoorbell(s.stride, s.qId) == 0x1000 + s.stride * (2 * s.qId)
    ensures CqDoorbell(s.stride, s.qId) == 0x1000 + s.stride * (2 * s.qId + 1)
  {
  }

  /** The registers of the next id are there. */
  predicate InsideBar(s: Device) { 0x1000 + s.stride * (2 * s.qId + 1) + 4 <= s.bar }

  /** Creation gets as far as making the completion queue. */
  predicate MakesCq(s: Device, len: nat, w: CreateWorld) {
    && InsideBar(s) && w.comp.Some? && w.cqFault == 0
    && s.qId !in s.admin.cqs && s.qId <= s.admin.maxQueues && 2 <= len <= s.admin.maxEntries
  }

  /** What one creation leaves behind: memory it was given stays allocated, and a completion queue it
      made stays made, whatever happens next. */
  lemma CreateOutcome(s: Device, len: nat, w: CreateWorld)
    requires Inv(s) && 1 <= len <= U16
    ensures var (t, r) := Create(s, len, w);
      && (r == NotCreated(Panicked) <==> !InsideBar(s))
      && (r == NotCreated(NoMemory) <==> InsideBar(s) && (w.comp.None? || (MakesCq(s, len, w) && w.sub.None?)))
      && (r.Created? <==> MakesCq(s, len, w) && w.sub.Some? && w.sqFault == 0)
      && t.memory == s.memory + (if InsideBar(s) && w.comp.Some? then {w.comp.value} else {})
                     + (if MakesCq(s, len, w) && w.sub.Some? then {w.sub.value} else {})
      && t.admin.cqs == (if MakesCq(s, len, w) then s.admin.cqs[s.qId := Queue(w.comp.value.phys, len, s.qId)]
                         else s.admin.cqs)
      && t.admin.sqs == (if r.Created? then s.admin.sqs[s.qId := Queue(w.sub.value.phys, len, s.qId)]
                         else s.admin.sqs)
      && (!r.Created? ==> t.issued == s.issued && t.qId == s.qId)
  {
    hide Inv, Manage, ZeroBased, SqDoorbell, CqDoorbell;
    Narrow(s);
    NextDoorbells(s);
    LengthTold(len);
    ZeroBasedFits(len);
    if w.comp.Some? {
      CreateCq(s.admin, 0, s.qId, w.comp.value.phys, ZeroBased(len), w.cqFault);
      var a1 := Manage(s.admin, CreateIoCompletionQueue(0, s.qId, w.comp.value.phys, ZeroBased(len)), w.cqFault).0;
      if w.sub.Some? {
        IdFree(s);
        CreateSq(a1, 0, s.qId, w.sub.value.phys, ZeroBased(len), s.qId, w.sqFault);
      }
    }
  }

  lemma Narrow(s: Device)
    requires Inv(s)
    ensures SmallBar(s) && 1 <= s.qId < U16 / 2
  {
  }

  lemma IdFree(s: Device)
    requires Inv(s)
    ensures s.qId !in s.admin.sqs
  {
    hide SqDoorbell, CqDoorbell, Disjoint;
  }

  /** The pair a caller is given: the next id, its own memory, and the two doorbells of its id. */
  lemma CreatedPair(s: Device, len: nat, w: CreateWorld)
    requires Inv(s) && Create(s, len, w).1.Created?
    ensures var (t, r) := Create(s, len, w);
      && r.pair.id == s.qId && Some(r.pair.sub) == w.sub && Some(r.pair.comp) == w.comp
      && r.pair.sqDoorbell == 0x1000 + s.stride * (2 * s.qId)
      && r.pair.cqDoorbell == 0x1000 + s.stride * (2 * s.qId + 1)
      && t.issued == s.issued + {r.pair} && t.qId == s.qId + 1
  {
    hide Inv, Manage, ZeroBased, SqDoorbell, CqDoorbell;
    Narrow(s);
    NextDoorbells(s);
    CreatedIff(s, len, w);
    NextIdFits(s);
  }

  /** The first pair a caller is given after init has id 2. */
  lemma FirstPair(bar: nat, dstrd: nat, maxQueues: nat, maxEntries: nat, own: set<Dma>, sub: Dma, comp: Dma, len: nat,
                  w: CreateWorld)
    requires 4 <= bar < 0x1000 + Stride(dstrd) * (U16 - 1) + 4
    requires Pieces(own) && sub in own && comp in own && sub != comp
    requires Create(Start(bar, Stride(dstrd), maxQueues, maxEntries, own, sub, comp), len, w).1.Created?
    ensures var pair := Create(Start(bar, Stride(dstrd), maxQueues, maxEntries, own, sub, comp), len, w).1.pair;
      && pair.id == 2 && pair.sqDoorbell == 0x1000 + 4 * Stride(dstrd)
      && pair.cqDoorbell == 0x1000 + 5 * Stride(dstrd)
  {
    hide Inv, Create, Pieces;
    StrideIs(dstrd);
    StartInv(bar, Stride(dstrd), maxQueues, maxEntries, own, sub, comp);
    CreatedPair(Start(bar, Stride(dstrd), maxQueues, maxEntries, own, sub, comp), len, w);
  }

  lemma DeleteKeeps(s: Device, pair: Pair, w: DeleteWorld)
    requires Inv(s) && pair in s.issued
    ensures Inv(Delete(s, pair, w).0)
  {
    hide Inv, Idle, Manage, Disjoint;
    DeleteParts(s, pair, w);
    var s1 := s.(admin := s.admin.(sqs := s.admin.sqs - {pair.id}), sqMem := s.sqMem - {pair.id});
    var s2 := s1.(admin := s1.admin.(cqs := s1.admin.cqs - {pair.id}), cqMem := s1.cqMem - {pair.id});
    if pair.id in s.admin.sqs && w.sqFault == 0 {
      SqRemoved(s, pair.id);
      if w.cqFault == 0 {
        CqRemoved(s1, pair.id);
        MemoryFreed(s2, pair.sub);
        IdleKept(s2, pair.comp, pair.sub);
        MemoryFreed(s2.(memory := s2.memory - {pair.sub}), pair.comp);
      }
    }
  }

  lemma IdleKept(s: Device, d: Dma, e: Dma)
    requires Idle(s, d) && d != e
    ensures Idle(s.(memory := s.memory - {e}), d)
  {
  }

  /** Deleting a pair whose submission queue is live: both queues are the pair's own, and its
      memory is allocated and, once they are gone, behind no other queue. */
  lemma DeleteParts(s: Device, pair: Pair, w: DeleteWorld)
    requires Inv(s) && pair in s.issued
    ensures pair.id < U16 && (pair.id in s.admin.sqs <==> pair.id in s.sqMem)
    ensures var s1 := s.(admin := s.admin.(sqs := s.admin.sqs - {pair.id}), sqMem := s.sqMem - {pair.id});
      var s2 := s1.(admin := s1.admin.(cqs := s1.admin.cqs - {pair.id}), cqMem := s1.cqMem - {pair.id});
      && Manage(s.admin, DeleteIoSubmissionQueue(0, pair.id), w.sqFault).0
         == (if w.sqFault == 0 && pair.id in s.admin.sqs then s1.admin else s.admin)
      && (Manage(s.admin, DeleteIoSubmissionQueue(0, pair.id), w.sqFault).1 == SUCCESS
          <==> w.sqFault == 0 && pair.id in s.admin.sqs)
      && (pair.id in s.admin.sqs ==>
            && Manage(s1.admin, DeleteIoCompletionQueue(0, pair.id), w.cqFault).0
               == (if w.cqFault == 0 then s2.admin else s1.admin)
            && (Manage(s1.admin, DeleteIoCompletionQueue(0, pair.id), w.cqFault).1 == SUCCESS <==> w.cqFault == 0)
            && pair.id in s.cqMem && Idle(s2, pair.sub) && Idle(s2, pair.comp) && pair.sub != pair.comp)
  {
    hide Manage, Disjoint, SqDoorbell, CqDoorbell, Pieces, SmallBar;
    NextIdSmall(s);
    DeleteSq(s.admin, 0, pair.id, w.sqFault);
    DeleteCq(s.admin.(sqs := s.admin.sqs - {pair.id}), 0, pair.id, w.cqFault);
  }

  // ---------------------------------------------------------------- whole runs

  datatype Op = DoCreate(len: nat, cw: CreateWorld) | DoDelete(pair: Pair, dw: DeleteWorld)

  /** The allocator hands out unused memory; a caller deletes pairs it was given, as often as
      it likes. */
  ghost predicate Possible(s: Device, op: Op) {
    match op
    case DoCreate(_, w) => ValidWorld(s, w)
    case DoDelete(pair, _) => pair in s.issued
  }

  function Apply(s: Device, op: Op): Device {
    match op
    case DoCreate(len, w) => Create(s, len, w).0
    case DoDelete(pair, w) => Delete(s, pair, w).0
  }

  /** t is reached from s by the calls `ops`. */
  ghost predicate Reaches(s: Device, ops: seq<Op>, t: Device)
    decreases |ops|
  {
    if ops == [] then t == s
    else Possible(s, ops[0]) && Reaches(Apply(s, ops[0]), ops[1..], t)
  }

  lemma OpKeeps(s: Device, op: Op)
    requires Inv(s) && Possible(s, op)
    ensures Inv(Apply(s, op))
  {
    hide Inv, Create, Delete, ValidWorld;
    match op
    case DoCreate(len, w) => CreateKeeps(s, len, w);
    case DoDelete(pair, w) => DeleteKeeps(s, pair, w);
  }

  lemma {:induction false} RunKeeps(s: Device, ops: seq<Op>, t: Device)
    requires Inv(s) && Reaches(s, ops, t)
    ensures Inv(t)
    decreases |ops|
  {
    hide Inv, Apply, Possible;
    if ops != [] {
      OpKeeps(s, ops[0]);
      RunKeeps(Apply(s, ops[0]), ops[1..], t);
    }
  }

  /** After init: one queue pair, the device's own, under id 1. */
  function Start(bar: nat, stride: nat, maxQueues: nat, maxEntries: nat, own: set<Dma>, sub: Dma, comp: Dma): Device {
    Device(bar, stride, 2,
           Admin(maxQueues, maxEntries, map[1 := Queue(comp.phys, QUEUE_LENGTH, 1)],
                 map[1 := Queue(sub.phys, QUEUE_LENGTH, 1)]),
           own, {}, map[1 := comp], map[1 := sub])
  }

  lemma StartInv(bar: nat, stride: nat, maxQueues: nat, maxEntries: nat, own: set<Dma>, sub: Dma, comp: Dma)
    requires 4 <= bar < 0x1000 + stride * (U16 - 1) + 4 && stride > 0
    requires Pieces(own) && sub in own && comp in own && sub != comp
    ensures Inv(Start(bar, stride, maxQueues, maxEntries, own, sub, comp))
  {
    hide Disjoint, Pieces, SqDoorbell, CqDoorbell;
  }

  /** Over every run of creations and deletions, with any failures: a live submission queue has
      a live completion queue, every live queue starts in memory that is allocated, and no two live
      queues in the same piece. How far they reach is the subject of RingSafety. */
  lemma QueueSafety(s: Device, ops: seq<Op>, t: Device)
    requires Inv(s) && Reaches(s, ops, t)
    ensures forall q :: q in t.admin.sqs ==> t.admin.sqs[q].cq in t.admin.cqs
    ensures forall q :: q in t.admin.sqs ==>
              q in t.sqMem && t.sqMem[q] in t.memory && t.admin.sqs[q].base == t.sqMem[q].phys
    ensures forall q :: q in t.admin.cqs ==>
              q in t.cqMem && t.cqMem[q] in t.memory && t.admin.cqs[q].base == t.cqMem[q].phys
    ensures forall p, q :: p in t.cqMem && q in t.sqMem ==> Disjoint(t.cqMem[p], t.sqMem[q])
    ensures forall p, q :: p in t.sqMem && q in t.sqMem && p != q ==> Disjoint(t.sqMem[p], t.sqMem[q])
    ensures forall p, q :: p in t.cqMem && q in t.cqMem && p != q ==> Disjoint(t.cqMem[p], t.cqMem[q])
  {
    hide Create, Delete, Possible, Apply, SmallBar, Idle;
    RunKeeps(s, ops, t);
    assert t.admin.sqs.Keys == t.sqMem.Keys && t.admin.cqs.Keys == t.cqMem.Keys;
  }

  /** The doorbells of all pairs ever issued are inside the register space and never shared. */
  lemma DoorbellSafety(s: Device, p: Pair, q: Pair)
    requires Inv(s) && p in s.issued && q in s.issued
    ensures p.sqDoorbell + 4 <= s.bar && p.cqDoorbell + 4 <= s.bar && p.sqDoorbell != q.cqDoorbell
    ensures p != q ==> p.sqDoorbell != q.sqDoorbell && p.cqDoorbell != q.cqDoorbell
  {
    hide Backed, Pieces, Unshared, OwnCq, SqDoorbell, CqDoorbell;
    DoorbellOrder(s.stride, p.id - 1, p.id);
    if p.id < q.id {
      DoorbellOrder(s.stride, p.id, q.id);
    } else if q.id < p.id {
      DoorbellOrder(s.stride, q.id, p.id);
    }
  }

  /** An id whose submission queue is gone. */
  ghost predicate Retired(s: Device, q: nat) {
    q < s.qId && q !in s.admin.sqs
  }

  lemma RetiredKept(s: Device, op: Op, q: nat)
    requires Inv(s) && Possible(s, op) && Retired(s, q)
    ensures Retired(Apply(s, op), q)
    ensures q in Apply(s, op).admin.cqs <==> q in s.admin.cqs
  {
    hide Inv, Manage, ValidWorld, ZeroBased, SqDoorbell, CqDoorbell;
    NextIdSmall(s);
    match op
    case DoCreate(len, w) =>
      ZeroBasedFits(len);
      if w.comp.Some? {
        CreateCq(s.admin, 0, s.qId, w.comp.value.phys, ZeroBased(len), w.cqFault);
        var a1 := Manage(s.admin, CreateIoCompletionQueue(0, s.qId, w.comp.value.phys, ZeroBased(len)), w.cqFault).0;
        if w.sub.Some? {
          CreateSq(a1, 0, s.qId, w.sub.value.phys, ZeroBased(len), s.qId, w.sqFault);
        }
      }
    case DoDelete(pair, w) =>
      DeleteParts(s, pair, w);
  }

  /** A delete that got as far as removing the submission queue: from then on, in every run,
      deleting the pair again is refused before anything is done. Its memory is given back at
      most once, and if its completion queue survived the first attempt, it survives them all. */
  lemma {:induction false} DeletedOnce(s: Device, ops: seq<Op>, t: Device, pair: Pair, w: DeleteWorld)
    requires Inv(s) && pair in s.issued && Retired(s, pair.id) && Reaches(s, ops, t)
    ensures pair in t.issued && Delete(t, pair, w) == (t, false)
    ensures pair.id in t.admin.cqs <==> pair.id in s.admin.cqs
    decreases |ops|
  {
    hide Inv, Apply, Possible, Manage;
    if ops == [] {
      DeleteParts(s, pair, w);
    } else {
      OpKeeps(s, ops[0]);
      RetiredKept(s, ops[0], pair.id);
      IssuedKept(s, ops[0]);
      DeletedOnce(Apply(s, ops[0]), ops[1..], t, pair, w);
    }
  }

  lemma IssuedKept(s: Device, op: Op)
    ensures s.issued <= Apply(s, op).issued
  {
    hide Manage, ZeroBased, SqDoorbell, CqDoorbell;
  }

  /** What a delete does, by the first thing that goes wrong. */
  lemma DeleteOutcome(s: Device, pair: Pair, w: DeleteWorld)
    requires Inv(s) && pair in s.issued
    ensures var (t, ok) := Delete(s, pair, w);
      && (pair.id !in s.admin.sqs || w.sqFault != 0 ==> t == s && !ok)
      && (pair.id in s.admin.sqs && w.sqFault == 0 ==> Retired(t, pair.id))
      && (ok <==> pair.id in s.admin.sqs && w.sqFault == 0 == w.cqFault && w.freeSub && w.freeComp)
      && (ok ==> {pair.sub, pair.comp} <= s.memory && t.memory == s.memory - {pair.sub, pair.comp})
      && (pair.id in s.admin.cqs && t.memory != s.memory ==> pair.id !in t.admin.cqs)
      && t.issued == s.issued && t.qId == s.qId
      && (pair.id in s.admin.sqs && w.sqFault == 0 ==>
            && t.admin.sqs == s.admin.sqs - {pair.id}
            && t.admin.cqs == (if w.cqFault == 0 then s.admin.cqs - {pair.id} else s.admin.cqs)
            && t.memory == s.memory - (if w.cqFault == 0 && w.freeSub then {pair.sub} else {})
                           - (if w.cqFault == 0 && w.freeSub && w.freeComp then {pair.comp} else {}))
  {
    hide Inv, Manage;
    NextIdSmall(s);
    DeleteParts(s, pair, w);
    PairId(s, pair);
  }

  lemma PairId(s: Device, pair: Pair)
    requires Inv(s) && pair in s.issued
    ensures 1 <= pair.id < s.qId
  {
  }

  // ---------------------------------------------------------------- a failure that is never repaired

  /** A completion queue is left over under the next id. */
  predicate Wedged(s: Device) { s.qId in s.admin.cqs }

  /** One creation wedges the device exactly when its completion queue is made and its
      submission queue is not. */
  lemma WedgedIff(s: Device, len: nat, w: CreateWorld)
    requires Inv(s) && !Wedged(s)
    ensures Wedged(Create(s, len, w).0) <==>
      && CqDoorbell(s.stride, s.qId) + 4 <= s.bar && w.comp.Some? && w.cqFault == 0
      && s.qId <= s.admin.maxQueues && UsableSize(s.admin, ZeroBased(len) + 1)
      && (w.sub.None? || w.sqFault != 0)
  {
    hide Manage, ZeroBased, Disjoint, Pieces, Pairs, Unshared;
    ZeroBasedFits(len);
    if w.comp.Some? {
      CreateCq(s.admin, 0, s.qId, w.comp.value.phys, ZeroBased(len), w.cqFault);
      var a1 := Manage(s.admin, CreateIoCompletionQueue(0, s.qId, w.comp.value.phys, ZeroBased(len)), w.cqFault).0;
      if w.sub.Some? {
        CreateSq(a1, 0, s.qId, w.sub.value.phys, ZeroBased(len), s.qId, w.sqFault);
      }
      if CqDoorbell(s.stride, s.qId) + 4 <= s.bar {
        NextIdFits(s);
      }
    }
  }

  lemma WedgedKept(s: Device, op: Op)
    requires Inv(s) && Possible(s, op) && Wedged(s)
    ensures Wedged(Apply(s, op)) && Apply(s, op).qId == s.qId
  {
    hide Inv, Manage, ZeroBased, SqDoorbell, CqDoorbell, ValidWorld;
    NextIdSmall(s);
    match op
    case DoCreate(len, w) =>
      ZeroBasedFits(len);
      if w.comp.Some? {
        CreateCq(s.admin, 0, s.qId, w.comp.value.phys, ZeroBased(len), w.cqFault);
      }
    case DoDelete(pair, w) =>
      PairId(s, pair);
      DeleteParts(s, pair, w);
  }

  /** A wedged device never creates a queue pair again, whatever is called. */
  lemma {:induction false} WedgedForever(s: Device, ops: seq<Op>, t: Device, len: nat, w: CreateWorld)
    requires Inv(s) && Wedged(s) && Reaches(s, ops, t)
    ensures Wedged(t) && t.qId == s.qId && Create(t, len, w).1.NotCreated?
    decreases |ops|
  {
    hide Inv, Apply, Possible, Manage;
    if ops == [] {
      CreatedIff(s, len, w);
    } else {
      OpKeeps(s, ops[0]);
      WedgedKept(s, ops[0]);
      WedgedForever(Apply(s, ops[0]), ops[1..], t, len, w);
    }
  }

  // ---------------------------------------------------------------- how far the rings reach

  /** How many entries the memory of both rings holds. */
  function Capacity(p: Pagesize): nat {
    match p case Page4K => QUEUE_LENGTH case Page2M => 2 * QUEUE_LENGTH case Page1G => U16
  }

  /** The length the controller is told of fits; the driver does not check. */
  predicate LengthFits(p: Pagesize, len: nat) { ZeroBased(len) + 1 <= Capacity(p) }

  /** What the controller takes the rings to be lies in the memory the driver allocated for them
      exactly up to this many entries. */
  lemma RingsInsideIff(p: Pagesize, len: nat)
    ensures var entries := ZeroBased(len) + 1;
      SQ_ENTRY * entries <= RingMemory(p, SQ_ENTRY) && CQ_ENTRY * entries <= RingMemory(p, CQ_ENTRY)
      <==> LengthFits(p, len)
  {
    ZeroBasedFits(len);
    assert SQ_ENTRY * QUEUE_LENGTH == 0x10_0000 && CQ_ENTRY * QUEUE_LENGTH == 0x4_0000;
    match p
    case Page4K =>
    case Page2M => assert p.ShiftUp(0x10_0000) == p.ShiftUp(0x4_0000) == 0x20_0000;
    case Page1G => assert p.ShiftUp(0x10_0000) == p.ShiftUp(0x4_0000) == 0x4000_0000;
  }

  /** Every live ring, as far as the controller goes, is in the memory behind it. */
  ghost predicate Inside(live: map<nat, Queue>, mem: map<nat, Dma>, entry: nat) {
    forall q :: q in live ==> q in mem && entry * live[q].entries <= mem[q].size
  }

  ghost predicate RingsInside(s: Device) {
    Inside(s.admin.cqs, s.cqMem, CQ_ENTRY) && Inside(s.admin.sqs, s.sqMem, SQ_ENTRY)
  }

  predicate Fitting(op: Op) {
    op.DoCreate? ==> LengthFits(op.cw.page, op.len)
  }

  lemma CreateInside(s: Device, len: nat, w: CreateWorld)
    requires Inv(s) && ValidWorld(s, w) && RingsInside(s) && LengthFits(w.page, len)
    ensures RingsInside(Create(s, len, w).0)
  {
    hide Inv, Manage, ZeroBased, RingMemory, SqDoorbell, CqDoorbell, LengthFits, Unused;
    NextIdSmall(s);
    ZeroBasedFits(len);
    RingsInsideIff(w.page, len);
    if w.comp.Some? {
      CreateCq(s.admin, 0, s.qId, w.comp.value.phys, ZeroBased(len), w.cqFault);
      var a1 := Manage(s.admin, CreateIoCompletionQueue(0, s.qId, w.comp.value.phys, ZeroBased(len)), w.cqFault).0;
      if w.sub.Some? {
        CreateSq(a1, 0, s.qId, w.sub.value.phys, ZeroBased(len), s.qId, w.sqFault);
      }
    }
  }

  /** The bound is exact for each creation that succeeds. */
  lemma CreatedInsideIff(s: Device, len: nat, w: CreateWorld)
    requires Inv(s) && ValidWorld(s, w) && RingsInside(s) && Create(s, len, w).1.Created?
    ensures RingsInside(Create(s, len, w).0) <==> LengthFits(w.page, len)
  {
    hide Inv, Manage, ZeroBased, RingMemory, SqDoorbell, CqDoorbell, LengthFits, Unused;
    NextIdSmall(s);
    ZeroBasedFits(len);
    RingsInsideIff(w.page, len);
    CreateCq(s.admin, 0, s.qId, w.comp.value.phys, ZeroBased(len), w.cqFault);
    var a1 := Manage(s.admin, CreateIoCompletionQueue(0, s.qId, w.comp.value.phys, ZeroBased(len)), w.cqFault).0;
    CreateSq(a1, 0, s.qId, w.sub.value.phys, ZeroBased(len), s.qId, w.sqFault);
    var t := Create(s, len, w).0;
    assert s.qId in t.admin.cqs && s.qId in t.admin.sqs;
  }

  lemma DeleteInside(s: Device, pair: Pair, w: DeleteWorld)
    requires Inv(s) && pair in s.issued && RingsInside(s)
    ensures RingsInside(Delete(s, pair, w).0)
  {
    hide Inv, Manage, Idle;
    DeleteParts(s, pair, w);
  }

  lemma {:induction false} RunInside(s: Device, ops: seq<Op>, t: Device)
    requires Inv(s) && RingsInside(s) && Reaches(s, ops, t)
    requires forall k :: 0 <= k < |ops| ==> Fitting(ops[k])
    ensures RingsInside(t)
    decreases |ops|
  {
    hide Inv, RingsInside, Create, Delete, ValidWorld, LengthFits;
    if ops != [] {
      OpKeeps(s, ops[0]);
      match ops[0] {
        case DoCreate(len, w) =>
          assert Fitting(ops[0]);
          CreateInside(s, len, w);
        case DoDelete(pair, w) => DeleteInside(s, pair, w);
      }
      assert forall k :: 0 <= k < |ops[1..]| ==> ops[1..][k] == ops[k + 1];
      RunInside(Apply(s, ops[0]), ops[1..], t);
    }
  }

  /** The bytes of a ring, as the controller addresses it. */
  function Extent(r: Queue, entry: nat): Dma { Dma(0, r.base, entry * r.entries) }

  lemma InsideDisjoint(a: Queue, m: Dma, entryA: nat, b: Queue, n: Dma, entryB: nat)
    requires a.base == m.phys && entryA * a.entries <= m.size && b.base == n.phys && entryB * b.entries <= n.size
    requires Disjoint(m, n)
    ensures Disjoint(Extent(a, entryA), Extent(b, entryB))
  {
  }

  /** Over every run of creations with fitting lengths and of deletions, with any failures: each
      ring, as far as the controller goes, lies in allocated memory, and no two rings share a byte. */
  lemma RingSafety(s: Device, ops: seq<Op>, t: Device)
    requires Inv(s) && RingsInside(s) && Reaches(s, ops, t) && forall k :: 0 <= k < |ops| ==> Fitting(ops[k])
    ensures forall q :: q in t.admin.cqs ==>
              q in t.cqMem && t.cqMem[q] in t.memory && t.admin.cqs[q].base == t.cqMem[q].phys
              && CQ_ENTRY * t.admin.cqs[q].entries <= t.cqMem[q].size
    ensures forall q :: q in t.admin.sqs ==>
              q in t.sqMem && t.sqMem[q] in t.memory && t.admin.sqs[q].base == t.sqMem[q].phys
              && SQ_ENTRY * t.admin.sqs[q].entries <= t.sqMem[q].size
    ensures forall p, q :: p in t.admin.cqs && q in t.admin.sqs ==>
              Disjoint(Extent(t.admin.cqs[p], CQ_ENTRY), Extent(t.admin.sqs[q], SQ_ENTRY))
    ensures forall p, q :: p in t.admin.sqs && q in t.admin.sqs && p != q ==>
              Disjoint(Extent(t.admin.sqs[p], SQ_ENTRY), Extent(t.admin.sqs[q], SQ_ENTRY))
    ensures forall p, q :: p in t.admin.cqs && q in t.admin.cqs && p != q ==>
              Disjoint(Extent(t.admin.cqs[p], CQ_ENTRY), Extent(t.admin.cqs[q], CQ_ENTRY))
  {
    hide Inv, Reaches, Disjoint, Extent, Fitting;
    RunInside(s, ops, t);
    QueueSafety(s, ops, t);
    forall p, q | p in t.admin.cqs && q in t.admin.sqs
      ensures Disjoint(Extent(t.admin.cqs[p], CQ_ENTRY), Extent(t.admin.sqs[q], SQ_ENTRY))
    {
      InsideDisjoint(t.admin.cqs[p], t.cqMem[p], CQ_ENTRY, t.admin.sqs[q], t.sqMem[q], SQ_ENTRY);
    }
    forall p, q | p in t.admin.sqs && q in t.admin.sqs && p != q
      ensures Disjoint(Extent(t.admin.sqs[p], SQ_ENTRY), Extent(t.admin.sqs[q], SQ_ENTRY))
    {
      InsideDisjoint(t.admin.sqs[p], t.sqMem[p], SQ_ENTRY, t.admin.sqs[q], t.sqMem[q], SQ_ENTRY);
    }
    forall p, q | p in t.admin.cqs && q in t.admin.cqs && p != q
      ensures Disjoint(Extent(t.admin.cqs[p], CQ_ENTRY), Extent(t.admin.cqs[q], CQ_ENTRY))
    {
      InsideDisjoint(t.admin.cqs[p], t.cqMem[p], CQ_ENTRY, t.admin.cqs[q], t.cqMem[q], CQ_ENTRY);
    }
  }

  lemma StartInside(bar: nat, stride: nat, maxQueues: nat, maxEntries: nat, own: set<Dma>, sub: Dma, comp: Dma,
                    page: Pagesize)
    requires sub.size == RingMemory(page, SQ_ENTRY) && comp.size == RingMemory(page, CQ_ENTRY)
    ensures RingsInside(Start(bar, stride, maxQueues, maxEntries, own, sub, comp))
  {
    RingsInsideIff(page, QUEUE_LENGTH);
  }

  // ---------------------------------------------------------------- the driver

  /** The identifier of a command makes no difference to what it does. */
  lemma AnyCid(a: Admin, c: Command, cid: nat, fault: nat)
    ensures Manage(a, c.(cid := cid), fault) == Manage(a, c, fault)
  {
  }

  class DeviceQueues {
    const bar: nat
    const stride: nat
    const adminQueue: AdminQueue
    var qId: nat
    var memory: set<Dma>
    ghost var issued: set<Pair>
    ghost var cqMem: map<nat, Dma>
    ghost var sqMem: map<nat, Dma>

    function Repr(): set<object> { {this} + adminQueue.Repr() }

    ghost function State(): Device
      reads this, adminQueue.peer
    {
      Device(bar, stride, qId, adminQueue.peer.admin, memory, issued, cqMem, sqMem)
    }

    ghost predicate Valid()
      reads Repr()
    {
      Inv(State()) && adminQueue.Valid()
    }

    constructor (bar: nat, dstrd: nat, maxQueues: nat, maxEntries: nat, own: set<Dma>, sub: Dma, comp: Dma)
      requires 4 <= bar < 0x1000 + Stride(dstrd) * (U16 - 1) + 4
      requires Pieces(own) && sub in own && comp in own && sub != comp
      ensures Valid() && fresh(Repr()) && State() == Start(bar, Stride(dstrd), maxQueues, maxEntries, own, sub, comp)
    {
      hide Inv, AdminQueue.Valid;
      StrideIs(dstrd);
      StartInv(bar, Stride(dstrd), maxQueues, maxEntries, own, sub, comp);
      var s := Start(bar, Stride(dstrd), maxQueues, maxEntries, own, sub, comp);
      this.bar, stride, qId, memory := bar, s.stride, s.qId, s.memory;
      issued, cqMem, sqMem := s.issued, s.cqMem, s.sqMem;
      adminQueue := new AdminQueue(s.admin);
    }

    /** submit_and_complete_admin: the identifier is the tail, the outcome that of one exchange. */
    method SubmitAndCompleteAdmin(c: Command, fault: nat) returns (ok: bool)
      requires adminQueue.Valid()
      modifies adminQueue.Repr()
      ensures adminQueue.Valid() && adminQueue.peer.admin == Manage(old(adminQueue.peer.admin), c, fault).0
      ensures ok <==> Manage(old(adminQueue.peer.admin), c, fault).1 == SUCCESS
      ensures !ok ==> adminQueue.peer.admin == old(adminQueue.peer.admin)
      ensures adminQueue.peer.st.submitted == old(adminQueue.peer.st.submitted)
              + [c.(cid := |old(adminQueue.peer.st.submitted)| % QUEUE_LENGTH)]
    {
      hide AdminQueue.Valid, Judge, Perform, Protocol.StatusField;
      var cid := adminQueue.sub.tail;
      AnyCid(adminQueue.peer.admin, c, cid % U16, fault);
      var e := adminQueue.Exchange(c.(cid := cid % U16), fault);
      ok := Protocol.StatusField(e) == SUCCESS;
    }

    method CreateIoQueuePair(len: nat, w: CreateWorld) returns (r: Created)
      requires Valid() && ValidWorld(State(), w)
      modifies Repr()
      ensures Valid() && (State(), r) == Create(old(State()), len, w)
    {
      hide Inv, ValidWorld, Manage, ZeroBased, SqDoorbell, CqDoorbell, AdminQueue.Valid;
      CreateKeeps(State(), len, w);
      var q := qId;
      if CqDoorbell(stride, q) + 4 > bar {
        return NotCreated(Panicked);
      }
      if w.comp == None {
        return NotCreated(NoMemory);
      }
      var comp := w.comp.value;
      memory := memory + {comp};
      var ok := SubmitAndCompleteAdmin(CreateIoCompletionQueue(0, q, comp.phys, ZeroBased(len)), w.cqFault);
      if !ok {
        return NotCreated(Refused);
      }
      cqMem := cqMem[q := comp];
      if w.sub == None {
        return NotCreated(NoMemory);
      }
      var sub := w.sub.value;
      memory := memory + {sub};
      ok := SubmitAndCompleteAdmin(CreateIoSubmissionQueue(0, q, sub.phys, ZeroBased(len), q), w.sqFault);
      if !ok {
        return NotCreated(Refused);
      }
      sqMem := sqMem[q := sub];
      qId := (qId + 1) % U16;
      var pair := Pair(q, sub, comp, SqDoorbell(stride, q), CqDoorbell(stride, q));
      issued := issued + {pair};
      r := Created(pair);
    }

    method DeleteIoQueuePair(pair: Pair, w: DeleteWorld) returns (ok: bool)
      requires Valid() && pair in issued
      modifies Repr()
      ensures Valid() && (State(), ok) == Delete(old(State()), pair, w)
    {
      hide Inv, Manage, AdminQueue.Valid;
      DeleteKeeps(State(), pair, w);
      ok := SubmitAndCompleteAdmin(DeleteIoSubmissionQueue(0, pair.id), w.sqFault);
      if !ok {
        return;
      }
      sqMem := sqMem - {pair.id};
      ok := SubmitAndCompleteAdmin(DeleteIoCompletionQueue(0, pair.id), w.cqFault);
      if !ok {
        return;
      }
      cqMem := cqMem - {pair.id};
      if !w.freeSub {
        return false;
      }
      memory := memory - {pair.sub};
      if !w.freeComp {
        return false;
      }
      memory := memory - {pair.comp};
    }
  }
}
