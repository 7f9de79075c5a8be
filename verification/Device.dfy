/** The synchronous paths of NvmeDevice in src/nvme.rs: one command at a time through
    namespace_io, and batches through the driver's own buffer. A panic of the source (an
    `unwrap` of a failed completion) is the result `ok == false`. */
module Device {
  import opened Options
  import opened Ring
  import opened Commands
  import opened Protocol
  import opened ProtocolTheorems
  import opened Transfers
  import opened Prps
  import opened Layout
  import opened Memory
  import opened Queues
  import opened ControllerModel
  import opened QueuePair
  import opened Batches
  import opened BatchLimits
  import opened ManyTransfers
  import opened BatchCalls
  import opened CallLimits

  const WRITE_CHUNK: nat := 2 * 4096
  const PRP_CHUNK: nat := 128 * 4096

  function NamespaceCommand(listPhys: nat, tail: nat, nsid: nat, blocks: nat, lba: nat, addr: nat,
                            write: bool): Command {
    IoCommand(write, tail % U16, nsid, lba, blocks, addr, NamespacePtr(listPhys, addr, blocks * BLOCK))
  }

  /** The command in full: identified by the slot it goes to, with a second PRP only if it needs one. */
  lemma NamespaceFields(listPhys: nat, tail: nat, nsid: nat, blocks: nat, lba: nat, addr: nat, write: bool)
    requires tail < U16 && lba < U64 && 1 <= blocks <= U16
    ensures var c := NamespaceCommand(listPhys, tail, nsid, blocks, lba, addr, write);
      && c.cid == tail && c.nsid == nsid && c.ptr0 == addr && Lba(c) == lba && Blocks(c) == blocks
      && (c.opcode == OP_WRITE <==> write) && (c.opcode == OP_READ <==> !write) && (blocks <= 8 ==> c.ptr1 == 0)
  {
    IoRoundTrip(write, tail % U16, nsid, lba, blocks, addr, NamespacePtr(listPhys, addr, blocks * BLOCK));
  }

  lemma NamespaceId(listPhys: nat, tail: nat, nsid: nat, blocks: nat, lba: nat, addr: nat, write: bool)
    requires tail < U16
    ensures var c := NamespaceCommand(listPhys, tail, nsid, blocks, lba, addr, write);
      c.cid == tail && c.nsid == nsid
  {
    hide NamespacePtr;
  }

  /** What a call queues is for namespace 1, each command with the identifier of its slot. */
  ghost predicate Addressed(before: seq<Command>, after: seq<Command>) {
    before <= after &&
    forall k :: |before| <= k < |after| ==> after[k].nsid == 1 && after[k].cid == k % QUEUE_LENGTH
  }

  /** ... and if the call succeeds, one command for every `c` bytes, begun ones included. */
  ghost predicate QueuedFor(before: seq<Command>, after: seq<Command>, size: nat, c: nat, ok: bool)
    requires c > 0
  {
    Addressed(before, after) && (ok ==> |after| == |before| + (size + c - 1) / c)
  }

  lemma AddressedMore(before: seq<Command>, after: seq<Command>, c: Command)
    requires Addressed(before, after) && c.nsid == 1 && c.cid == |after| % QUEUE_LENGTH
    ensures Addressed(before, after + [c])
  {
  }

  // ---------------------------------------------------------------- a buffer, chunk by chunk

  /** A page-aligned buffer in DMA memory, apart from the list page. */
  predicate Reachable(d: Data, dma: Dma, lba: nat) {
    && dma.phys % PAGE == 0 && lba + BlockCount(dma.size) <= U64
    && dma.phys + RoundUp(dma.size) <= |d.mem| && Apart(d, dma.phys, RoundUp(dma.size))
  }

  /** What write, read and write_prp promise: the call succeeds exactly when the blocks exist, and
      then the data is that of one assignment of the whole buffer; otherwise it is that of a whole
      number of chunks, the next of which does not fit. Only write_prp changes the list. */
  ghost predicate Transferred(d0: Data, d: Data, dma: Dma, lba: nat, write: bool, c: nat, ok: bool)
    requires c > 0
  {
    var io := TransferOf(dma, lba, write);
    var w := Cuts(RoundUp(dma.size), c);
    var e0 := d0.(list := d.list);
    && (ok <==> PrefixFits(d0, io, io.total))
    && (ok ==> d == Prefix(e0, io, io.total))
    && (!ok ==> exists k :: 0 <= k < |w| - 1 && PrefixFits(d0, io, w[k]) && !PrefixFits(d0, io, w[k + 1])
                            && d == Prefix(e0, io, w[k]))
  }

  /** Where a read leaves memory alone, and what it leaves behind the buffer: up to the end of the
      buffer's last block, the rest of that block of the disk. */
  ghost predicate ReadReach(d0: Data, d: Data, dma: Dma, lba: nat, ok: bool) {
    var end := dma.phys + RoundUp(dma.size);
    && |d.mem| == |d0.mem| && d.disk == d0.disk
    && (forall k :: 0 <= k < |d.mem| && !(dma.phys <= k < end) ==> d.mem[k] == d0.mem[k])
    && (ok ==> forall k :: dma.phys + dma.size <= k < end && k < |d.mem| ==>
                 lba * BLOCK + (k - dma.phys) < |d.disk| && d.mem[k] == d.disk[lba * BLOCK + (k - dma.phys)])
    && (dma.size % BLOCK == 0 ==> end == dma.phys + dma.size)
  }

  lemma TransferredReach(d0: Data, d: Data, dma: Dma, lba: nat, c: nat, ok: bool)
    requires c > 0 && d.list == d0.list && Transferred(d0, d, dma, lba, false, c, ok)
    ensures ReadReach(d0, d, dma, lba, ok)
  {
    hide Cuts, RoundUp;
    RoundUpLeast(dma.size, dma.size);
    assert d0.(list := d.list) == d0;
    var io := TransferOf(dma, lba, false);
    if ok {
      PrefixReach(d0, dma, lba, io.total);
    } else {
      var w := Cuts(RoundUp(dma.size), c);
      var k :| 0 <= k < |w| - 1 && PrefixFits(d0, io, w[k]) && d == Prefix(d0, io, w[k]);
      CutsTile(RoundUp(dma.size), c);
      PrefixReach(d0, dma, lba, w[k]);
    }
  }

  lemma PrefixReach(d0: Data, dma: Dma, lba: nat, n: nat)
    requires n <= RoundUp(dma.size) && PrefixFits(d0, TransferOf(dma, lba, false), n)
    ensures ReadReach(d0, Prefix(d0, TransferOf(dma, lba, false), n), dma, lba, n == RoundUp(dma.size))
  {
    hide RoundUp;
    RoundUpLeast(dma.size, dma.size);
    var d := Prefix(d0, TransferOf(dma, lba, false), n);
    if n > 0 {
      var at := lba * BLOCK;
      forall k | dma.phys <= k < dma.phys + n
        ensures d.mem[k] == d0.disk[at + (k - dma.phys)]
      {
        assert d.mem[k] == d0.disk[at..at + n][k - dma.phys];
      }
    }
  }

  /** k chunks have been transferred. */
  ghost predicate Sent(d0: Data, d: Data, dma: Dma, lba: nat, write: bool, c: nat, k: nat)
    requires c > 0
  {
    var io := TransferOf(dma, lba, write);
    var w := Cuts(RoundUp(dma.size), c);
    k < |w| == |Cuts(dma.size, c)| && PrefixFits(d0, io, w[k]) && d == Prefix(d0.(list := d.list), io, w[k])
  }

  /** The block address of chunk k. */
  function ChunkLba(size: nat, lba: nat, c: nat, k: nat): nat
    requires c > 0
  {
    var w := Cuts(RoundUp(size), c);
    if k < |w| then lba + w[k] / BLOCK else 0
  }

  lemma SendStart(d0: Data, dma: Dma, lba: nat, write: bool, c: nat)
    requires c > 0 && c % PAGE == 0
    ensures Sent(d0, d0, dma, lba, write, c, 0) && ChunkLba(dma.size, lba, c, 0) == lba
  {
    hide Cuts, RoundUp;
    StartCut(dma.size, c);
    assert d0 == d0.(list := d0.list);
  }

  lemma StartCut(size: nat, c: nat)
    requires c > 0 && c % PAGE == 0
    ensures var w := Cuts(RoundUp(size), c);
      |w| == |Cuts(size, c)| > 0 && w[0] == 0
  {
    hide RoundUp, Cuts;
    PagesAreBlocks(c);
    ChunkBlocks(size, c);
    CutsTile(RoundUp(size), c);
  }

  lemma SendDone(d0: Data, d: Data, dma: Dma, lba: nat, write: bool, c: nat, k: nat)
    requires c > 0 && Sent(d0, d, dma, lba, write, c, k) && ChunkOf(dma, c, k) == None
    ensures Transferred(d0, d, dma, lba, write, c, true) && k == (dma.size + c - 1) / c
  {
    hide Cuts, ChunkOf, Prefix;
    ChunkOfSome(dma, c, k);
    CutsNumber(dma.size, c);
    CutsTile(RoundUp(dma.size), c);
  }

  /** The PRPs namespace_io computes for chunk p describe it, rounded up to blocks. */
  ghost predicate Described(d: Data, p: Chunk) {
    Describes(d, p.phys, NamespacePtr(d.listPhys, p.phys, RoundUp(p.len)), p.phys, RoundUp(p.len))
  }

  /** The next chunk: refused exactly when its blocks do not exist, and otherwise added. */
  lemma SendStep(d0: Data, d: Data, dma: Dma, lba: nat, write: bool, c: nat, k: nat, tail: nat)
    requires 0 < c <= PRP_CHUNK && c % PAGE == 0 && Reachable(d0, dma, lba) && Sent(d0, d, dma, lba, write, c, k)
    requires ChunkOf(dma, c, k) != None && Described(d, ChunkOf(dma, c, k).value)
    ensures var p := ChunkOf(dma, c, k).value;
      var blocks := BlockCount(p.len);
      var o := Exec(d, NamespaceCommand(d.listPhys, tail, 1, blocks, ChunkLba(dma.size, lba, c, k), p.phys, write));
      && 0 < blocks <= 0x1_0000 && ChunkLba(dma.size, lba, c, k) + blocks == ChunkLba(dma.size, lba, c, k + 1)
      && (o.status == SUCCESS ==> Sent(d0, o.data, dma, lba, write, c, k + 1))
      && (o.status != SUCCESS ==> Transferred(d0, o.data, dma, lba, write, c, false))
  {
    hide Cuts, Exec, Describes, NamespaceCommand, Prefix, ChunkOf;
    ChunkOfSome(dma, c, k);
    PieceFacts(dma.size, c, k);
    var w := Cuts(RoundUp(dma.size), c);
    var io := TransferOf(dma, lba, write);
    var p := ChunkOf(dma, c, k).value;
    ChunkAtCut(dma, c, k);
    PieceMoves(d, io, p, tail, w[k], lba, dma.size);
    var cmd := NamespaceCommand(d.listPhys, tail, 1, BlockCount(p.len), lba + w[k] / BLOCK, p.phys, write);
    var e0 := d0.(list := d.list);
    PrefixList(e0, io, w[k]);
    hide Moves;
    SameMoves(e0, d, cmd, io, w[k], w[k + 1]);
    ExecNext(e0, io, cmd, w[k], w[k + 1]);
    if PrefixFits(e0, io, w[k + 1]) {
      PrefixList(e0, io, w[k + 1]);
    }
  }

  lemma ChunkAtCut(dma: Dma, c: nat, k: nat)
    requires c > 0 && ChunkOf(dma, c, k) != None
    ensures var r := Cuts(dma.size, c);
      k + 1 < |r| && ChunkOf(dma, c, k).value.phys == dma.phys + r[k] && r[k] + ChunkOf(dma, c, k).value.len == r[k + 1]
  {
  }

  lemma PrefixList(d: Data, io: Io, n: nat)
    requires PrefixFits(d, io, n)
    ensures Prefix(d, io, n).list == d.list && Prefix(d, io, n).listPhys == d.listPhys
  {
  }

  lemma SameMoves(d: Data, d': Data, c: Command, io: Io, from: nat, to: nat)
    requires d.list == d'.list && d.listPhys == d'.listPhys && Moves(d', c, io, from, to)
    ensures Moves(d, c, io, from, to)
  {
    hide Describes;
    SameList(d, d', c.ptr0, c.ptr1, io.phys + from, to - from);
  }

  lemma PieceMoves(d: Data, io: Io, p: Chunk, tail: nat, from: nat, lba: nat, size: nat)
    requires io.at == lba * BLOCK && p.phys == io.phys + from && from % BLOCK == 0 && 0 < p.len <= PRP_CHUNK
    requires from + RoundUp(p.len) <= RoundUp(size) && lba + BlockCount(size) <= U64 && Described(d, p)
    ensures Moves(d, NamespaceCommand(d.listPhys, tail, 1, BlockCount(p.len), lba + from / BLOCK, p.phys, io.write),
                  io, from, from + RoundUp(p.len))
  {
    hide Describes, NamespacePtr, IoCommand;
    IoRoundTrip(io.write, tail % U16, 1, lba + from / BLOCK, BlockCount(p.len), p.phys,
                NamespacePtr(d.listPhys, p.phys, RoundUp(p.len)));
  }

  /** Chunks of up to two pages. */
  lemma ShortDescribed(d: Data, dma: Dma, k: nat)
    requires dma.phys % PAGE == 0 && Apart(d, dma.phys, RoundUp(dma.size)) && ChunkOf(dma, WRITE_CHUNK, k) != None
    ensures Described(d, ChunkOf(dma, WRITE_CHUNK, k).value)
  {
    hide Cuts, Describes, ChunkOf, RoundUp, NextPage;
    ChunkOfSome(dma, WRITE_CHUNK, k);
    ChunkAtCut(dma, WRITE_CHUNK, k);
    PieceFacts(dma.size, WRITE_CHUNK, k);
    var p := ChunkOf(dma, WRITE_CHUNK, k).value;
    WordAligned(dma.phys, Cuts(dma.size, WRITE_CHUNK)[k]);
    NextPageIff(d, p.phys, RoundUp(p.len));
  }

  /** Chunks of whole pages, with the list filled for them. */
  lemma LongDescribed(d: Data, dma: Dma, k: nat)
    requires dma.phys % PAGE == 0 && dma.size % PAGE == 0 && Apart(d, dma.phys, RoundUp(dma.size))
    requires ChunkOf(dma, PRP_CHUNK, k) != None
    requires ChunkFill(d, ChunkOf(dma, PRP_CHUNK, k).value.phys, ChunkOf(dma, PRP_CHUNK, k).value.len)
    ensures Described(d, ChunkOf(dma, PRP_CHUNK, k).value)
  {
    hide Cuts, Describes, ChunkFill, ChunkOf, RoundUp, NamespacePtr;
    ChunkOfSome(dma, PRP_CHUNK, k);
    ChunkAtCut(dma, PRP_CHUNK, k);
    PieceFacts(dma.size, PRP_CHUNK, k);
    CutsAligned(dma.size, PRP_CHUNK);
    CutsTile(dma.size, PRP_CHUNK);
    var r := Cuts(dma.size, PRP_CHUNK);
    var p := ChunkOf(dma, PRP_CHUNK, k).value;
    WholePages(r[k], r[k + 1]);
    ChunkDescribedIff(d, p.phys, p.len);
  }

  lemma WholePages(a: nat, b: nat)
    requires a < b && a % PAGE == 0 && b % PAGE == 0
    ensures (b - a) % PAGE == 0 && RoundUp(b - a) == b - a
  {
    var n := b / PAGE - a / PAGE;
    assert b - a == PAGE * n;
    assert BlockCount(b - a) == 8 * n;
  }

  class NvmeDevice {
    const io: NvmeQueuePair
    const buffer: Dma
    const prpList: array<nat>
    const prpPhys: nat

    function Repr(): set<object> { io.Repr() + {prpList} }

    /** Nothing outstanding, and the list in memory is the array the driver writes. */
    ghost predicate Valid()
      reads Repr()
    {
      && io.Valid() && Drained(io.peer.st) && io.peer.st.len == QUEUE_LENGTH
      && prpList.Length == 512 && prpList !in io.Repr()
      && prpList[..] == io.peer.data.list && prpPhys == io.peer.data.listPhys
    }

    /** init: the list is filled for the driver's own buffer. */
    constructor (data: Data, buffer: Dma)
      requires |data.list| == 512
      ensures Valid() && fresh(Repr()) && this.buffer == buffer
      ensures io.peer.data == data.(list := prpList[..]) && InitFill(io.peer.data, buffer.phys)
      ensures prpList[511] == 0 && prpPhys == data.listPhys && io.id == 1 && io.peer.st.submitted == []
    {
      hide Parts, Run, Served, Slot, Phase;
      var list := new nat[512](_ => 0);
      for i := 1 to 512
        invariant forall j :: 1 <= j < i ==> list[j - 1] == buffer.phys + j * PAGE
        invariant forall j :: i - 1 <= j < 512 ==> list[j] == 0
      {
        list[i - 1] := buffer.phys + i * PAGE;
      }
      prpList := list;
      this.buffer, prpPhys := buffer, data.listPhys;
      io := new NvmeQueuePair(1, QUEUE_LENGTH, data.(list := list[..]));
    }

    /** `self.io_sq.head = self.complete_io(n).unwrap()` */
    method Finish(n: nat) returns (ok: bool)
      requires io.Valid() && 1 <= n < io.peer.st.len && n <= Outstanding(io.peer.st)
      modifies io.Repr()
      ensures io.Coupled() && io.peer.st.consumed == old(io.peer.st.consumed) + n
      ensures io.peer.st.submitted == old(io.peer.st.submitted) && io.peer.st.len == old(io.peer.st.len)
      ensures io.peer.st.consumed <= |io.peer.st.posted|
      ensures ok <==> StatusField(io.peer.st.posted[io.peer.st.consumed - 1]) == SUCCESS
      ensures ok ==> io.Valid()
      ensures io.peer.base == old(io.peer.base) && io.peer.epoch == old(io.peer.epoch)
    {
      hide NvmeQueuePair.Coupled, Inv, Owed, StatusField;
      var done := io.CompleteN(n);
      var c := done.1;
      io.Peered();
      io.TakenBound(io.peer.st);
      io.Pause();
      io.RingHead();
      io.Pause();
      ok := StatusField(c) == SUCCESS;
      if ok {
        io.LatchHead(c);
        io.Resting();
      }
      io.Peered();
      io.TakenBound(io.peer.st);
    }

    /** namespace_io: submits without a check, which is safe because nothing is outstanding, and
        waits. The data becomes what the command makes of it. */
    method NamespaceIo(nsid: nat, blocks: nat, lba: nat, addr: nat, write: bool) returns (ok: bool)
      requires Valid() && 0 < blocks <= 0x1_0000
      modifies io.Repr()
      ensures var d := old(io.peer.data);
        var o := Exec(d, NamespaceCommand(d.listPhys, old(io.sub.tail), nsid, blocks, lba, addr, write));
        io.peer.data == o.data && (ok <==> o.status == SUCCESS)
      ensures ok ==> Valid()
      ensures io.peer.st.submitted == old(io.peer.st.submitted)
              + [NamespaceCommand(old(io.peer.data.listPhys), old(io.sub.tail), nsid, blocks, lba, addr, write)]
      ensures old(io.sub.tail) == |old(io.peer.st.submitted)| % QUEUE_LENGTH
    {
      hide Parts, Slot, Phase, Served, Run, NamespacePtr, IoCommand, Exec, StatusField;
      ghost var d := io.peer.data;
      TailNow();
      var bytes := blocks * BLOCK;
      var ptr1 := NamespacePtr(prpPhys, addr, bytes);
      var entry := IoCommand(write, io.sub.tail % U16, nsid, lba, blocks, addr, ptr1);
      io.peer.HostUpdate(io.peer.data);
      RoomBound(io.peer.st);
      SendUnchecked(entry);
      ok := Finish(1);
      DrainedSingle(io.peer.base, io.peer.epoch, io.peer.log, io.peer.st, io.peer.data);
      ExecKeepsList(d, entry);
    }

    lemma TailNow()
      requires Valid()
      ensures io.sub.tail == |io.peer.st.submitted| % QUEUE_LENGTH
    {
      hide Slot, Phase, Served, Run;
      io.AtTail();
      SlotIsRemainder(|io.peer.st.submitted|, QUEUE_LENGTH);
    }

    /** submit and the doorbell. */
    method SendUnchecked(entry: Command)
      requires io.Valid() && Room(io.peer.st) > 0
      modifies io.Repr()
      ensures io.Valid() && io.peer.st.submitted == old(io.peer.st.submitted) + [entry]
      ensures io.peer.st.consumed == old(io.peer.st.consumed) && io.peer.st.len == old(io.peer.st.len)
      ensures io.peer.base == old(io.peer.base) && io.peer.epoch == old(io.peer.epoch)
    {
      hide NvmeQueuePair.Coupled, Inv, Owed, Room;
      io.EnqueueUnchecked(entry);
      io.Pause();
      io.RingTail();
      io.Pause();
      io.Peered();
      io.RestKept(old(io.peer.st), io.peer.st);
      io.Resting();
    }

    lemma ExecKeepsList(d: Data, c: Command)
      ensures Exec(d, c).data.list == d.list && Exec(d, c).data.listPhys == d.listPhys
      ensures |Exec(d, c).data.mem| == |d.mem| && |Exec(d, c).data.disk| == |d.disk|
    {
      hide Expand, Gather, Splice, Scatter;
    }

    // ---------------------------------------------------------------- write, read, write_prp

    method Write(dma: Dma, lba: nat) returns (ok: bool)
      requires Valid() && Reachable(io.peer.data, dma, lba)
      modifies io.Repr()
      ensures ok ==> Valid()
      ensures io.peer.data.list == old(io.peer.data.list)
      ensures Transferred(old(io.peer.data), io.peer.data, dma, lba, true, WRITE_CHUNK, ok)
      ensures QueuedFor(old(io.peer.st.submitted), io.peer.st.submitted, dma.size, 8192, ok)
    {
      ok := SendChunks(dma, lba, true);
    }

    method Read(dma: Dma, lba: nat) returns (ok: bool)
      requires Valid() && Reachable(io.peer.data, dma, lba)
      modifies io.Repr()
      ensures ok ==> Valid()
      ensures io.peer.data.list == old(io.peer.data.list)
      ensures Transferred(old(io.peer.data), io.peer.data, dma, lba, false, WRITE_CHUNK, ok)
      ensures QueuedFor(old(io.peer.st.submitted), io.peer.st.submitted, dma.size, 8192, ok)
      ensures ReadReach(old(io.peer.data), io.peer.data, dma, lba, ok)
    {
      hide Transferred, ReadReach;
      ok := SendChunks(dma, lba, false);
      TransferredReach(old(io.peer.data), io.peer.data, dma, lba, WRITE_CHUNK, ok);
    }

    /** The loop write and read share. */
    method SendChunks(dma: Dma, lba: nat, write: bool) returns (ok: bool)
      requires Valid() && Reachable(io.peer.data, dma, lba)
      modifies io.Repr()
      ensures ok ==> Valid()
      ensures io.peer.data.list == old(io.peer.data.list)
      ensures Transferred(old(io.peer.data), io.peer.data, dma, lba, write, WRITE_CHUNK, ok)
      ensures QueuedFor(old(io.peer.st.submitted), io.peer.st.submitted, dma.size, 8192, ok)
    {
      hide Valid, NvmeQueuePair.Valid, Sending, Transferred, ChunkOf, DmaChunks.Ready, BlockCount, Reachable, Left,
           RoundUp, Cuts, QueuedFor, Described;
      ghost var d0, before := io.peer.data, io.peer.st.submitted;
      var lba': nat := lba;
      ghost var k := 0;
      SendingStart(d0, dma, lba, write, WRITE_CHUNK, before);
      var chunks := new DmaChunks(dma, WRITE_CHUNK);
      assert chunks !in Repr();
      var chunk := chunks.Next(0);
      while chunk != None
        invariant Valid() && fresh(chunks) && chunks !in Repr() && chunks.dma == dma && chunks.chunkSize == WRITE_CHUNK
        invariant Sending(d0, io.peer.data, io.peer.st.submitted, dma, lba, lba', write, WRITE_CHUNK, k, before)
        invariant io.peer.data.list == d0.list
        invariant chunk == ChunkOf(dma, WRITE_CHUNK, k) && (chunk != None ==> chunks.Ready(k + 1))
        decreases Left(dma, WRITE_CHUNK, k), chunk != None
      {
        LeftDecreases(dma, WRITE_CHUNK, k);
        SendingApart(d0, io.peer.data, io.peer.st.submitted, dma, lba, lba', write, WRITE_CHUNK, k, before);
        ShortDescribed(io.peer.data, dma, k);
        ok := SendChunk(chunk.value, lba', write, d0, dma, lba, WRITE_CHUNK, k, before);
        if !ok {
          return;
        }
        lba' := lba' + BlockCount(chunk.value.len);
        k := k + 1;
        chunk := chunks.Next(k);
      }
      SendingDone(d0, io.peer.data, io.peer.st.submitted, dma, lba, lba', write, WRITE_CHUNK, k, before);
      ok := true;
    }

    /** The body of the loops of write, read and write_prp: one chunk that the PRPs describe. */
    method SendChunk(chunk: Chunk, lba': nat, write: bool, ghost d0: Data, ghost dma: Dma, ghost lba: nat, ghost c: nat,
                     ghost k: nat, ghost before: seq<Command>)
      returns (ok: bool)
      requires 0 < c <= PRP_CHUNK && c % PAGE == 0 && Valid() && Reachable(d0, dma, lba)
      requires Sending(d0, io.peer.data, io.peer.st.submitted, dma, lba, lba', write, c, k, before)
      requires Described(io.peer.data, chunk) && ChunkOf(dma, c, k) == Some(chunk)
      modifies io.Repr()
      ensures ok ==> Valid()
      ensures ok ==> Sending(d0, io.peer.data, io.peer.st.submitted, dma, lba, lba' + BlockCount(chunk.len), write, c,
                             k + 1, before)
      ensures !ok ==> Transferred(d0, io.peer.data, dma, lba, write, c, false)
                      && QueuedFor(before, io.peer.st.submitted, dma.size, c, false)
      ensures io.peer.data.list == old(io.peer.data.list)
    {
      hide Valid, NvmeQueuePair.Valid, Sent, Transferred, ChunkOf, ChunkLba, BlockCount, NamespaceCommand, Exec, Sends,
           Described, Reachable, QueuedFor;
      ghost var d := io.peer.data;
      SendStep(d0, d, dma, lba, write, c, k, io.sub.tail);
      var blocks := BlockCount(chunk.len);
      ExecKeepsList(d, NamespaceCommand(d.listPhys, io.sub.tail, 1, blocks, lba', chunk.phys, write));
      OneMoreSent(before, io.peer.st.submitted, k, d.listPhys, io.sub.tail, blocks, lba', chunk.phys, write);
      ok := NamespaceIo(1, blocks, lba', chunk.phys, write);
      SendsAll(before, io.peer.st.submitted, k + 1, dma.size, c, false);
    }

    /** Such a loop after k chunks. */
    ghost predicate Sending(d0: Data, d: Data, submitted: seq<Command>, dma: Dma, lba: nat, lba': nat, write: bool,
                            c: nat, k: nat, before: seq<Command>)
      requires c > 0
    {
      && Sent(d0, d, dma, lba, write, c, k) && d.listPhys == d0.listPhys && lba' == ChunkLba(dma.size, lba, c, k)
      && Sends(before, submitted, k)
    }

    lemma SendingStart(d: Data, dma: Dma, lba: nat, write: bool, c: nat, before: seq<Command>)
      requires c > 0 && c % PAGE == 0
      ensures Sending(d, d, before, dma, lba, lba, write, c, 0, before)
    {
      hide Sent, ChunkLba, Sends;
      SendStart(d, dma, lba, write, c);
      NothingSent(before);
    }

    lemma SendingApart(d0: Data, d: Data, submitted: seq<Command>, dma: Dma, lba: nat, lba': nat, write: bool, c: nat,
                       k: nat, before: seq<Command>)
      requires c > 0 && Sending(d0, d, submitted, dma, lba, lba', write, c, k, before)
      requires Reachable(d0, dma, lba) && |d.list| == |d0.list|
      ensures dma.phys % PAGE == 0 && Apart(d, dma.phys, RoundUp(dma.size)) && |d.list| == 512
    {
      hide Sent, ChunkLba, Sends, RoundUp, BlockCount;
    }

    lemma SendingAnyList(d0: Data, d: Data, submitted: seq<Command>, dma: Dma, lba: nat, lba': nat, write: bool, c: nat,
                         k: nat, before: seq<Command>)
      requires c > 0 && Sending(d0, d, submitted, dma, lba, lba', write, c, k, before)
      ensures forall list :: Sending(d0, d.(list := list), submitted, dma, lba, lba', write, c, k, before)
    {
      hide Sent, ChunkLba, Sends;
      SentAnyList(d0, d, dma, lba, write, c, k);
    }

    lemma SendingDone(d0: Data, d: Data, submitted: seq<Command>, dma: Dma, lba: nat, lba': nat, write: bool, c: nat,
                      k: nat, before: seq<Command>)
      requires c > 0 && Sending(d0, d, submitted, dma, lba, lba', write, c, k, before) && ChunkOf(dma, c, k) == None
      ensures Transferred(d0, d, dma, lba, write, c, true) && QueuedFor(before, submitted, dma.size, c, true)
    {
      hide Sent, ChunkLba, Sends, Transferred, QueuedFor, ChunkOf;
      SendDone(d0, d, dma, lba, write, c, k);
      SendsAll(before, submitted, k, dma.size, c, true);
    }

    /** k commands have been queued. */
    ghost predicate Sends(before: seq<Command>, after: seq<Command>, k: nat) {
      Addressed(before, after) && |after| == |before| + k
    }

    lemma NothingSent(before: seq<Command>)
      ensures Sends(before, before, 0)
    {
    }

    lemma OneMoreSent(before: seq<Command>, after: seq<Command>, k: nat, listPhys: nat, tail: nat, blocks: nat,
                      lba: nat, addr: nat, write: bool)
      requires Sends(before, after, k)
      ensures var c := NamespaceCommand(listPhys, tail, 1, blocks, lba, addr, write);
        tail == |after| % QUEUE_LENGTH ==> Sends(before, after + [c], k + 1)
    {
      hide Addressed, NamespaceCommand;
      if tail == |after| % QUEUE_LENGTH {
        NamespaceId(listPhys, tail, 1, blocks, lba, addr, write);
        AddressedMore(before, after, NamespaceCommand(listPhys, tail, 1, blocks, lba, addr, write));
      }
    }

    lemma SendsAll(before: seq<Command>, after: seq<Command>, k: nat, size: nat, c: nat, ok: bool)
      requires c > 0 && Sends(before, after, k) && (ok ==> k == (size + c - 1) / c)
      ensures QueuedFor(before, after, size, c, ok)
    {
      hide Addressed;
    }

    ghost function Left(dma: Dma, c: nat, k: nat): int
      requires c > 0
    {
      |Cuts(dma.size, c)| - k
    }

    lemma LeftDecreases(dma: Dma, c: nat, k: nat)
      requires c > 0 && ChunkOf(dma, c, k) != None
      ensures 0 <= Left(dma, c, k + 1) < Left(dma, c, k)
    {
    }

    /** write_prp: larger chunks, described by a list that is rewritten before each command. */
    method WritePrp(dma: Dma, lba: nat, write: bool) returns (ok: bool)
      requires Valid() && Reachable(io.peer.data, dma, lba) && dma.size % PAGE == 0
      modifies Repr()
      ensures ok ==> Valid()
      ensures Transferred(old(io.peer.data), io.peer.data, dma, lba, write, PRP_CHUNK, ok)
      ensures QueuedFor(old(io.peer.st.submitted), io.peer.st.submitted, dma.size, 524288, ok)
    {
      hide Valid, NvmeQueuePair.Valid, Sending, Transferred, ChunkOf, DmaChunks.Ready, BlockCount, Reachable, Left,
           RoundUp, Cuts, QueuedFor, Described, ChunkFill;
      ghost var d0, before := io.peer.data, io.peer.st.submitted;
      var lba': nat := lba;
      ghost var k := 0;
      SendingStart(d0, dma, lba, write, PRP_CHUNK, before);
      var chunks := new DmaChunks(dma, PRP_CHUNK);
      assert chunks !in Repr();
      var chunk := chunks.Next(0);
      while chunk != None
        invariant Valid() && fresh(chunks) && chunks !in Repr() && chunks.dma == dma && chunks.chunkSize == PRP_CHUNK
        invariant Sending(d0, io.peer.data, io.peer.st.submitted, dma, lba, lba', write, PRP_CHUNK, k, before)
        invariant |io.peer.data.list| == |d0.list|
        invariant chunk == ChunkOf(dma, PRP_CHUNK, k) && (chunk != None ==> chunks.Ready(k + 1))
        decreases Left(dma, PRP_CHUNK, k), chunk != None
      {
        LeftDecreases(dma, PRP_CHUNK, k);
        LongChunk(dma, k);
        SendingAnyList(d0, io.peer.data, io.peer.st.submitted, dma, lba, lba', write, PRP_CHUNK, k, before);
        SendingApart(d0, io.peer.data, io.peer.st.submitted, dma, lba, lba', write, PRP_CHUNK, k, before);
        FillList(chunk.value);
        SendingApart(d0, io.peer.data, io.peer.st.submitted, dma, lba, lba', write, PRP_CHUNK, k, before);
        LongDescribed(io.peer.data, dma, k);
        ok := SendChunk(chunk.value, lba', write, d0, dma, lba, PRP_CHUNK, k, before);
        if !ok {
          return;
        }
        lba' := lba' + BlockCount(chunk.value.len);
        k := k + 1;
        chunk := chunks.Next(k);
      }
      SendingDone(d0, io.peer.data, io.peer.st.submitted, dma, lba, lba', write, PRP_CHUNK, k, before);
      ok := true;
    }

    lemma LongChunk(dma: Dma, k: nat)
      requires ChunkOf(dma, PRP_CHUNK, k) != None
      ensures ChunkOf(dma, PRP_CHUNK, k).value.len <= PRP_CHUNK
    {
      hide Cuts;
      PieceFacts(dma.size, PRP_CHUNK, k);
    }

    lemma SentAnyList(d0: Data, d: Data, dma: Dma, lba: nat, write: bool, c: nat, k: nat)
      requires c > 0 && Sent(d0, d, dma, lba, write, c, k)
      ensures forall list :: Sent(d0, d.(list := list), dma, lba, write, c, k)
    {
      hide Cuts;
    }

    /** The inner loop of write_prp: entry i is page i of the chunk. */
    method FillList(chunk: Chunk)
      requires Valid() && chunk.len <= PRP_CHUNK
      modifies Repr()
      ensures Valid() && io.sub.tail == old(io.sub.tail) && prpList.Length == 512
      ensures io.peer.st.submitted == old(io.peer.st.submitted)
      ensures io.peer.data == old(io.peer.data).(list := prpList[..]) && ChunkFill(io.peer.data, chunk.phys, chunk.len)
    {
      hide NvmeQueuePair.Valid;
      var pages := chunk.len / PAGE;
      for i := 0 to pages
        invariant io.Valid() && io.peer.st == old(io.peer.st) && io.peer.data == old(io.peer.data)
        invariant io.sub.tail == old(io.sub.tail)
        invariant forall j :: 0 <= j < i ==> prpList[j] == chunk.phys + j * PAGE
      {
        prpList[i] := chunk.phys + i * PAGE;
      }
      Publish();
    }

    /** What the driver wrote to the list is what the controller will read. */
    method Publish()
      requires io.Valid() && Drained(io.peer.st)
      modifies io.peer
      ensures io.Valid() && io.peer.st == old(io.peer.st)
      ensures io.peer.data == old(io.peer.data).(list := prpList[..])
    {
      hide Parts, Run, Served;
      io.peer.HostUpdate(io.peer.data.(list := prpList[..]));
    }

    // ---------------------------------------------------------------- batches

    /** The submission loop of batched_write and batched_read: the ring, drained before, never
        fills up, so every command is queued. */
    method SubmitBatch(nsid: nat, lba: nat, n: nat, len: nat, write: bool)
      requires Valid() && 0 < n && n * BLOCK <= len <= BATCH_CHUNK
      modifies io.Repr()
      ensures io.Valid() && io.peer.st.consumed == old(io.peer.st.consumed) && io.peer.st.len == QUEUE_LENGTH
      ensures io.peer.st.submitted == old(io.peer.st.submitted) +
              BatchCommands(prpPhys, buffer.phys, |old(io.peer.st.submitted)|, QUEUE_LENGTH, nsid, lba, n, len, write)
      ensures io.peer.base == old(io.peer.base) && io.peer.epoch == old(io.peer.epoch)
    {
      hide Parts, Run, Served, Slot, Phase, BatchCommand, NvmeQueuePair.Valid, NvmeQueuePair.Coupled, AtRest;
      RoomNow();
      SizeBounds(n, len);
      assert 0 < BatchBlocks(n, len) <= 0x1_0000;
      ghost var before := io.peer.st;
      ghost var cmds := BatchCommands(prpPhys, buffer.phys, |before.submitted|, QUEUE_LENGTH, nsid, lba, n, len, write);
      var batchSize := BatchSize(n, len);
      var blocks := BatchBlocks(n, len);
      var lba' := lba;
      for i := 0 to n
        invariant io.Valid() && io.peer.st.consumed == before.consumed && io.peer.st.len == before.len
        invariant io.peer.st.seen == before.seen && lba' == lba + i * blocks
        invariant io.peer.st.submitted == before.submitted + cmds[..i]
        invariant io.peer.base == old(io.peer.base) && io.peer.epoch == old(io.peer.epoch)
      {
        io.AtTail();
        var entry := BatchCommand(prpPhys, buffer.phys, io.sub.tail, nsid, lba', i * batchSize, blocks, write);
        assert entry == cmds[i];
        var sent := io.Push(entry);
        lba' := lba' + blocks;
      }
    }

    lemma RoomNow()
      requires Valid()
      ensures Room(io.peer.st) == QUEUE_LENGTH - 1
    {
      hide Run, Served, Slot, Phase;
      RoomBound(io.peer.st);
    }

    ghost function CallOf(nsid: nat, batchLen: nat): (c: Call)
      ensures MyCall(c, nsid) && c.batchLen == batchLen
    {
      Call(buffer.phys, QUEUE_LENGTH, nsid, batchLen)
    }

    ghost predicate MyCall(c: Call, nsid: nat) { c.buffer == buffer.phys && c.qlen == QUEUE_LENGTH && c.nsid == nsid }

    /** One chunk: submitted, and waited for as a whole. If the commands are well placed and their
        blocks exist, the call succeeds and the data is that of the assignments of their stretches,
        which for a batch that tiles its chunk is one assignment of the chunk. In any case the disk is
        changed by writes only, and only in the blocks the commands name. */
    method RunBatch(nsid: nat, lba: nat, n: nat, len: nat, write: bool, ghost c: Call) returns (ok: bool)
      requires Valid() && 0 < n && n * BLOCK <= len <= BATCH_CHUNK && MyCall(c, nsid)
      modifies io.Repr()
      ensures (ok ==> Valid()) && |io.peer.data.mem| == |old(io.peer.data.mem)|
      ensures BatchDone(old(io.peer.data), io.peer.data, lba, n, len, write, ok)
      ensures Tiles(n, len) && BatchReady(old(io.peer.data), buffer.phys, lba, n, len, write) ==>
                ok && io.peer.data == Whole(old(io.peer.data), Io(write, lba * BLOCK, buffer.phys, len))
      ensures BatchRun(c, old(io.peer.data), io.peer.data, |old(io.peer.st.submitted)|, lba, n, len, write)
      ensures |io.peer.st.submitted| == |old(io.peer.st.submitted)| + n
    {
      hide Parts, Run, Served, Slot, Phase, Tiles, BatchCommands, AtRest, StatusField, ExecAll, Whole, WholeAll,
           BatchReady, BatchUsable, WellPlaced, OnlyBlocks, Pick, Stretches, AllFit, Pairwise, MakesEach;
      ghost var d := io.peer.data;
      Rebase();
      ghost var start := |io.peer.st.submitted|;
      SubmitBatch(nsid, lba, n, len, write);
      ok := Finish(n);
      AccountKeeps(io.peer.base, io.peer.epoch, io.peer.log, io.peer.st, io.peer.data);
      AnyOrder(io.peer.base, io.peer.epoch, io.peer.log, io.peer.st, io.peer.data, nsid, lba, n, len, write, c);
      if Tiles(n, len) && BatchReady(d, buffer.phys, lba, n, len, write) {
        TiledStretches(d, buffer.phys, lba, n, len, write);
      }
      if WellPlaced(n, len) && BatchUsable(d, buffer.phys, lba, n, len) {
        StretchesMake(d, buffer.phys, start, QUEUE_LENGTH, nsid, lba, n, len, write);
        DrainedIndependent(io.peer.base, io.peer.epoch, io.peer.log, io.peer.st, io.peer.data,
                           Stretches(buffer.phys, lba, n, len, write));
      }
    }

    /** A drained batch was executed in some order, and has touched its own blocks only. */
    lemma AnyOrder(base: Data, epoch: nat, log: seq<Command>, s: State, data: Data,
                   nsid: nat, lba: nat, n: nat, len: nat, write: bool, c: Call)
      requires Inv(s) && Served(base, epoch, log, s, data) && s.consumed == |s.submitted| && 0 < n
      requires n * BLOCK <= len <= BATCH_CHUNK && MyCall(c, nsid) && prpPhys == base.listPhys
      requires epoch <= |s.submitted|
      requires s.submitted[epoch..] == BatchCommands(prpPhys, buffer.phys, epoch, QUEUE_LENGTH, nsid, lba, n, len,
                                                     write)
      ensures BatchRun(c, base, data, epoch, lba, n, len, write)
      ensures lba + len / BLOCK <= U64 ==> OnlyBlocks(base, data, lba, BatchAdvance(n, len), write)
    {
      hide Parts, BatchCommands, OnlyBlocks, BatchBlocks, ExecAll;
      var order := DrainedOrder(base, epoch, log, s, data);
      assert Complete(order, n);
      if lba + len / BLOCK <= U64 {
        BatchTouches(base, prpPhys, buffer.phys, epoch, QUEUE_LENGTH, nsid, lba, n, len, write, order);
      }
    }

    ghost predicate BatchDone(d: Data, e: Data, lba: nat, n: nat, len: nat, write: bool, ok: bool)
      requires n > 0
    {
      && (WellPlaced(n, len) && BatchUsable(d, buffer.phys, lba, n, len) ==>
            ok && AllFit(d, Stretches(buffer.phys, lba, n, len, write))
            && e == WholeAll(d, Stretches(buffer.phys, lba, n, len, write)))
      && (lba + len / BLOCK <= U64 ==> OnlyBlocks(d, e, lba, BatchAdvance(n, len), write))
    }

    lemma AccountKeeps(base: Data, epoch: nat, log: seq<Command>, s: State, data: Data)
      requires Served(base, epoch, log, s, data)
      ensures data.list == base.list && data.listPhys == base.listPhys
      ensures |data.mem| == |base.mem| && |data.disk| == |base.disk|
    {
      ExecAllKeeps(base, log);
    }

    method Rebase()
      requires Valid()
      modifies io.peer
      ensures Valid() && io.peer.st == old(io.peer.st) && io.peer.data == io.peer.base == old(io.peer.data)
      ensures io.peer.epoch == |io.peer.st.submitted|
    {
      hide Parts, Run, Served;
      io.peer.HostUpdate(io.peer.data);
    }

    /** Every batch tiles its chunk, and the blocks exist. */
    ghost predicate BatchesFine(d: Data, lba: nat, total: nat, batchLen: nat) {
      && CallUsable(d, buffer.phys, buffer.size, lba, total, batchLen)
      && TilesFrom(0, total, batchLen, InitFill(d, buffer.phys))
    }

    /** Transfers of whole chunks of 2 MiB by batches of 256, 512, 1024, 2048 or at least 4096 commands. */
    lemma WholeChunksFine(d: Data, lba: nat, total: nat, batchLen: nat)
      requires CallUsable(d, buffer.phys, buffer.size, lba, total, batchLen) && total % 0x20_0000 == 0
      requires batchLen in {256, 512, 1024, 2048} || batchLen >= 4096
      ensures BatchesFine(d, lba, total, batchLen)
    {
      hide TilesFrom, InitFill, CallUsable;
      WholeChunksTile(0, total, batchLen, InitFill(d, buffer.phys));
    }

    lemma FinePlaced(d: Data, lba: nat, total: nat, batchLen: nat)
      requires BatchesFine(d, lba, total, batchLen)
      ensures CallPlaced(d, buffer.phys, buffer.size, lba, total, batchLen) && DividesFrom(0, total, batchLen)
    {
      hide CallUsable, PlacedFrom, TilesFrom, InitFill;
      TilesFromIff(0, total, batchLen, InitFill(d, buffer.phys));
    }

    /** batched_write panics when a chunk does not fit the buffer, when a batch is empty and the
        code divides by its length, and when the last completion of a batch failed. If every command is
        well placed and its blocks exist, the call succeeds and the disk holds, one behind the other,
        the heads of all stretches, all else unchanged; if every batch tiles its chunk that is all of
        the data. In any case only as many blocks are touched as the batches advance by. */
    method BatchedWrite(nsid: nat, bytes: seq<Byte>, lba: nat, batchLen: nat) returns (ok: bool)
      requires Valid() && buffer.phys + buffer.size <= |io.peer.data.mem|
      modifies io.Repr()
      ensures ok ==> Valid()
      ensures var d := old(io.peer.data);
        CallPlaced(d, buffer.phys, buffer.size, lba, |bytes|, batchLen) ==>
          && ok && lba * BLOCK + |KeptFrom(bytes, batchLen, 0)| <= |d.disk|
          && io.peer.data.disk == Splice(d.disk, lba * BLOCK, KeptFrom(bytes, batchLen, 0))
      ensures var d := old(io.peer.data);
        BatchesFine(d, lba, |bytes|, batchLen) ==>
          ok && lba * BLOCK + |bytes| <= |d.disk| && io.peer.data.disk == Splice(d.disk, lba * BLOCK, bytes)
      ensures ok ==> WriteCall(CallOf(nsid, batchLen), old(io.peer.data), io.peer.data, bytes, 0, lba,
                               |old(io.peer.st.submitted)|)
      ensures ok ==> NoEmptyBatch(|bytes|, batchLen)
      ensures Spared(old(io.peer.data.disk), io.peer.data.disk, lba, |bytes|, batchLen, true)
    {
      ghost var d0 := io.peer.data;
      ghost var c, start := CallOf(nsid, batchLen), |io.peer.st.submitted|;
      hide Valid, Writing, BatchesFine, CallPlaced, Splice, NvmeQueuePair.Valid, BatchChunkLen, Within, Spared,
           KeptFrom, BlocksFrom, WriteCall, WriteGoing, NoEmptyBatch;
      var off, lba' := 0, lba;
      WritingStart(d0, buffer.phys, buffer.size, lba, bytes, batchLen);
      WithinStart(d0.disk, lba, |bytes|, batchLen, true);
      while off < |bytes|
        invariant Valid() && 0 <= off <= |bytes| && |io.peer.data.mem| == |d0.mem|
        invariant Writing(d0, io.peer.data, buffer.phys, buffer.size, lba, lba', bytes, batchLen, off)
        invariant Within(d0.disk, io.peer.data.disk, lba, |bytes|, batchLen, off, lba', true)
        invariant WriteGoing(c, d0, io.peer.data, bytes, lba, start, off, lba', |io.peer.st.submitted|)
      {
        ok, off, lba' := WriteOneChunk(nsid, bytes, lba', batchLen, off, d0, lba, start);
        if !ok {
          FineWrite(d0, lba, bytes, batchLen);
          return;
        }
      }
      ok := true;
      if CallPlaced(d0, buffer.phys, buffer.size, lba, |bytes|, batchLen) {
        WritingDone(d0, io.peer.data, buffer.phys, buffer.size, lba, lba', bytes, batchLen);
      }
      FineWrite(d0, lba, bytes, batchLen);
      WriteGone(c, d0, io.peer.data, bytes, lba, start, lba', |io.peer.st.submitted|);
      WithinDone(d0.disk, io.peer.data.disk, lba, |bytes|, batchLen, off, lba', true);
    }

    lemma FineWrite(d: Data, lba: nat, bytes: seq<Byte>, batchLen: nat)
      ensures BatchesFine(d, lba, |bytes|, batchLen) ==>
                CallPlaced(d, buffer.phys, buffer.size, lba, |bytes|, batchLen) && KeptFrom(bytes, batchLen, 0) == bytes
    {
      hide BatchesFine, CallPlaced, KeptFrom, DividesFrom;
      if BatchesFine(d, lba, |bytes|, batchLen) {
        FinePlaced(d, lba, |bytes|, batchLen);
        KeptIff(bytes, batchLen, 0);
        assert bytes[0..] == bytes;
      }
    }

    /** The body of its loop: one chunk from `off` on. */
    method WriteOneChunk(nsid: nat, bytes: seq<Byte>, lba': nat, batchLen: nat, off: nat, ghost d0: Data,
                         ghost lba: nat, ghost start: nat)
      returns (ok: bool, end: nat, next: nat)
      requires Valid() && buffer.phys + buffer.size <= |io.peer.data.mem| && off < |bytes|
      requires Writing(d0, io.peer.data, buffer.phys, buffer.size, lba, lba', bytes, batchLen, off)
      requires Within(d0.disk, io.peer.data.disk, lba, |bytes|, batchLen, off, lba', true)
      requires WriteGoing(CallOf(nsid, batchLen), d0, io.peer.data, bytes, lba, start, off, lba',
                          |io.peer.st.submitted|)
      modifies io.Repr()
      ensures (ok ==> Valid()) && |io.peer.data.mem| == |old(io.peer.data.mem)|
      ensures off < end <= |bytes|
      ensures ok ==> Writing(d0, io.peer.data, buffer.phys, buffer.size, lba, next, bytes, batchLen, end)
      ensures ok ==> Within(d0.disk, io.peer.data.disk, lba, |bytes|, batchLen, end, next, true)
      ensures ok ==> WriteGoing(CallOf(nsid, batchLen), d0, io.peer.data, bytes, lba, start, end, next,
                                |io.peer.st.submitted|)
      ensures Spared(d0.disk, io.peer.data.disk, lba, |bytes|, batchLen, true)
      ensures CallPlaced(d0, buffer.phys, buffer.size, lba, |bytes|, batchLen) ==> ok
    {
      hide Valid, Writing, WriteGoing, CallPlaced, BatchDone, BatchRun, BatchReady, BatchUsable, WellPlaced, Tiles,
           Whole, Splice, BatchLen, BatchBlocks, BatchSize, NvmeQueuePair.Valid, Within, Spared;
      var len := BatchChunkLen(off, |bytes|);
      end, next := off + len, lba';
      WithinDone(d0.disk, io.peer.data.disk, lba, |bytes|, batchLen, off, lba', true);
      ghost var d := io.peer.data;
      if CallPlaced(d0, buffer.phys, buffer.size, lba, |bytes|, batchLen) {
        WriteReady(d0, d, lba, lba', bytes, batchLen, off);
      }
      if len > buffer.size {
        ok := false;
        return;
      }
      CopyIn(bytes[off..off + len]);
      var n := BatchLen(batchLen, len);
      if n == 0 {
        ok := false;
        return;
      }
      BatchNotEmpty(batchLen, len);
      ghost var d1, c := io.peer.data, CallOf(nsid, batchLen);
      ghost var start' := |io.peer.st.submitted|;
      ok := RunBatch(nsid, lba', n, len, true, c);
      WriteGoes(c, d0, d, io.peer.data, bytes, lba, start, off, lba', start');
      if CallPlaced(d0, buffer.phys, buffer.size, lba, |bytes|, batchLen) {
        PlacedDone(d1, io.peer.data, lba', n, len, true, ok);
        WritingStep(d0, d, d1, io.peer.data, buffer.phys, buffer.size, lba, lba', bytes, batchLen, off);
      } else {
        NotWriting(d0, io.peer.data, lba, lba' + BatchAdvance(n, len), bytes, batchLen, off + len);
      }
      next := lba' + BatchAdvance(n, len);
      BatchTouched(d1, io.peer.data, lba', n, len, true, ok);
      WithinStep(d0, d1, io.peer.data, lba, |bytes|, batchLen, off, lba', true);
      WithinDone(d0.disk, io.peer.data.disk, lba, |bytes|, batchLen, end, next, true);
    }

    lemma BatchTouched(d: Data, e: Data, lba: nat, n: nat, len: nat, write: bool, ok: bool)
      requires n > 0 && BatchDone(d, e, lba, n, len, write, ok)
      ensures lba + len / BLOCK <= U64 ==> OnlyBlocks(d, e, lba, BatchAdvance(n, len), write)
    {
      hide WellPlaced, BatchUsable, OnlyBlocks, BatchBlocks, WholeAll;
    }

    lemma PlacedDone(d: Data, e: Data, lba: nat, n: nat, len: nat, write: bool, ok: bool)
      requires n > 0 && BatchDone(d, e, lba, n, len, write, ok)
      requires WellPlaced(n, len) && BatchUsable(d, buffer.phys, lba, n, len)
      ensures ok && AllFit(d, Stretches(buffer.phys, lba, n, len, write))
      ensures e == WholeAll(d, Stretches(buffer.phys, lba, n, len, write))
    {
      hide WellPlaced, BatchUsable, OnlyBlocks, BatchBlocks, WholeAll;
    }

    /** The next batch can be run, whatever is copied into the buffer. */
    lemma WriteReady(d0: Data, d: Data, lba: nat, lba': nat, bytes: seq<Byte>, batchLen: nat, off: nat)
      requires off < |bytes| && Writing(d0, d, buffer.phys, buffer.size, lba, lba', bytes, batchLen, off)
      requires CallPlaced(d0, buffer.phys, buffer.size, lba, |bytes|, batchLen)
      ensures var len := BatchChunkLen(off, |bytes|);
        var n := BatchLen(batchLen, len);
        && len <= buffer.size && n > 0 && WellPlaced(n, len)
        && forall e: Data | SameShape(d, e) :: BatchUsable(e, buffer.phys, lba', n, len)
    {
      hide CallUsable, PlacedFrom, InitFill, WellPlaced, BatchUsable, BatchLen, BatchChunkLen, Advanced, BlocksFrom,
           Written;
      NextUsable(d0, d, buffer.phys, buffer.size, lba, lba', |bytes|, batchLen, off);
      var len := BatchChunkLen(off, |bytes|);
      var n := BatchLen(batchLen, len);
      forall e: Data | SameShape(d, e)
        ensures BatchUsable(e, buffer.phys, lba', n, len)
      {
        NextUsable(d0, e, buffer.phys, buffer.size, lba, lba', |bytes|, batchLen, off);
      }
    }

    lemma NotWriting(d0: Data, d: Data, lba: nat, lba': nat, bytes: seq<Byte>, batchLen: nat, off: nat)
      requires off <= |bytes| && !CallPlaced(d0, buffer.phys, buffer.size, lba, |bytes|, batchLen)
      ensures Writing(d0, d, buffer.phys, buffer.size, lba, lba', bytes, batchLen, off)
    {
      hide CallPlaced;
    }

    /** `self.buffer[..chunk.len()].copy_from_slice(chunk)` */
    method CopyIn(chunk: seq<Byte>)
      requires Valid() && |chunk| <= buffer.size && buffer.phys + buffer.size <= |io.peer.data.mem|
      modifies io.peer
      ensures Valid() && io.peer.st == old(io.peer.st)
      ensures io.peer.data == old(io.peer.data).(mem := Splice(old(io.peer.data.mem), buffer.phys, chunk))
    {
      hide Parts, Run, Served;
      io.peer.HostUpdate(io.peer.data.(mem := Splice(io.peer.data.mem, buffer.phys, chunk)));
    }

    /** batched_read: under the same condition the array receives, in the heads of all stretches, the
        bytes of the blocks, one behind the other, and between them what the buffer held; if every
        batch tiles its chunk, just the bytes of the blocks. The disk is unchanged. */
    method BatchedRead(nsid: nat, dest: array<Byte>, lba: nat, batchLen: nat) returns (ok: bool)
      requires dest !in Repr()
      requires Valid() && buffer.phys + buffer.size <= |io.peer.data.mem|
      modifies io.Repr(), dest
      ensures ok ==> Valid()
      ensures CallPlaced(old(io.peer.data), buffer.phys, buffer.size, lba, dest.Length, batchLen) ==>
                ok && Delivered(old(io.peer.data), io.peer.data, lba, dest[..], batchLen)
      ensures BatchesFine(old(io.peer.data), lba, dest.Length, batchLen) ==>
                ok && Arrived(old(io.peer.data), io.peer.data, lba, dest[..])
      ensures ok ==> ReadCall(CallOf(nsid, batchLen), old(io.peer.data), io.peer.data, dest[..], dest.Length, 0, lba,
                              |old(io.peer.st.submitted)|)
      ensures ok ==> NoEmptyBatch(dest.Length, batchLen)
      ensures Spared(old(io.peer.data.disk), io.peer.data.disk, lba, dest.Length, batchLen, false)
    {
      ghost var d0 := io.peer.data;
      ghost var c, start := CallOf(nsid, batchLen), |io.peer.st.submitted|;
      hide Valid, ReadingInto, BatchesFine, CallPlaced, NvmeQueuePair.Valid, BatchChunkLen, Arrived, Delivered, Within,
           Spared, ReadCall, GoingInto, NoEmptyBatch;
      var off, lba' := 0, lba;
      StartReading(d0, lba, dest[..], batchLen);
      StartGoing(c, d0, dest[..], lba, start);
      WithinStart(d0.disk, lba, dest.Length, batchLen, false);
      while off < dest.Length
        invariant Valid() && 0 <= off <= dest.Length && |io.peer.data.mem| == |d0.mem|
        invariant ReadingInto(d0, io.peer.data, lba, lba', dest[..], batchLen, off)
        invariant Within(d0.disk, io.peer.data.disk, lba, dest.Length, batchLen, off, lba', false)
        invariant GoingInto(c, d0, io.peer.data, dest[..], lba, start, off, lba', |io.peer.st.submitted|)
      {
        ok, off, lba' := ReadOneChunk(nsid, dest, lba', batchLen, off, d0, lba, start);
        if !ok {
          FineRead(d0, io.peer.data, lba, dest[..], batchLen);
          return;
        }
      }
      ok := true;
      if CallPlaced(d0, buffer.phys, buffer.size, lba, dest.Length, batchLen) {
        AllRead(d0, io.peer.data, lba, lba', dest[..], batchLen);
      }
      FineRead(d0, io.peer.data, lba, dest[..], batchLen);
      AllGone(c, d0, io.peer.data, dest[..], lba, start, lba', |io.peer.st.submitted|);
      WithinDone(d0.disk, io.peer.data.disk, lba, dest.Length, batchLen, off, lba', false);
    }

    /** The bytes are those of the blocks from lba on, and the disk is unchanged. */
    ghost predicate Arrived(d0: Data, d: Data, lba: nat, bytes: seq<Byte>) {
      && lba * BLOCK + |bytes| <= |d0.disk|
      && bytes == d0.disk[lba * BLOCK..lba * BLOCK + |bytes|] && d.disk == d0.disk
    }

    /** What the call delivers, remainders included. */
    ghost predicate Delivered(d0: Data, d: Data, lba: nat, dest: seq<Byte>, batchLen: nat) {
      && BatchChunkLen(0, |dest|) <= buffer.size && buffer.phys + buffer.size <= |d0.mem|
      && (lba + BlocksFrom(0, |dest|, batchLen)) * BLOCK <= |d0.disk| && d.disk == d0.disk
      && dest == ReadFrom(d0.disk, lba, |dest|, batchLen, 0, Buffered(d0, buffer.phys, buffer.size))
    }

    lemma FineRead(d0: Data, d: Data, lba: nat, dest: seq<Byte>, batchLen: nat)
      ensures BatchesFine(d0, lba, |dest|, batchLen) ==> CallPlaced(d0, buffer.phys, buffer.size, lba, |dest|, batchLen)
      ensures BatchesFine(d0, lba, |dest|, batchLen) && Delivered(d0, d, lba, dest, batchLen) ==>
                Arrived(d0, d, lba, dest)
    {
      hide BlocksFrom, TilesFrom, PlacedFrom, InitFill, Apart, ReadFrom, DividesFrom;
      if BatchesFine(d0, lba, |dest|, batchLen) {
        FinePlaced(d0, lba, |dest|, batchLen);
        ReadWhole(d0.disk, lba, |dest|, batchLen, 0, Buffered(d0, buffer.phys, buffer.size));
      }
    }

    /** The body of its loop: one chunk from `off` on. */
    method ReadOneChunk(nsid: nat, dest: array<Byte>, lba': nat, batchLen: nat, off: nat, ghost d0: Data,
                        ghost lba: nat, ghost start: nat)
      returns (ok: bool, end: nat, next: nat)
      requires dest !in Repr()
      requires Valid() && buffer.phys + buffer.size <= |io.peer.data.mem|
      requires off < dest.Length
      requires ReadingInto(d0, io.peer.data, lba, lba', dest[..], batchLen, off)
      requires Within(d0.disk, io.peer.data.disk, lba, dest.Length, batchLen, off, lba', false)
      requires GoingInto(CallOf(nsid, batchLen), d0, io.peer.data, dest[..], lba, start, off, lba',
                         |io.peer.st.submitted|)
      modifies io.Repr(), dest
      ensures (ok ==> Valid()) && |io.peer.data.mem| == |old(io.peer.data.mem)|
      ensures off < end <= dest.Length
      ensures ok ==> ReadingInto(d0, io.peer.data, lba, next, dest[..], batchLen, end)
      ensures ok ==> Within(d0.disk, io.peer.data.disk, lba, dest.Length, batchLen, end, next, false)
      ensures ok ==> GoingInto(CallOf(nsid, batchLen), d0, io.peer.data, dest[..], lba, start, end, next,
                               |io.peer.st.submitted|)
      ensures Spared(d0.disk, io.peer.data.disk, lba, dest.Length, batchLen, false)
      ensures CallPlaced(d0, buffer.phys, buffer.size, lba, dest.Length, batchLen) ==> ok
    {
      hide Valid, Reading, ReadGoing, CallPlaced, BatchDone, BatchRun, BatchReady, BatchUsable, WellPlaced, Tiles,
           Whole, Splice, BatchLen, BatchBlocks, BatchSize, NvmeQueuePair.Valid, Within, Spared, Buffered;
      var len := BatchChunkLen(off, dest.Length);
      var n := BatchLen(batchLen, len);
      end, next := off + len, lba';
      ghost var d := io.peer.data;
      ghost var got := dest[..off];
      WithinDone(d0.disk, d.disk, lba, dest.Length, batchLen, off, lba', false);
      if CallPlaced(d0, buffer.phys, buffer.size, lba, dest.Length, batchLen) {
        ReadReady(d0, d, lba, lba', got, dest.Length, batchLen);
      }
      if n == 0 {
        ok := false;
        return;
      }
      BatchNotEmpty(batchLen, len);
      ghost var c, start' := CallOf(nsid, batchLen), |io.peer.st.submitted|;
      ok := RunBatch(nsid, lba', n, len, false, c);
      next := lba' + BatchAdvance(n, len);
      BatchTouched(d, io.peer.data, lba', n, len, false, ok);
      WithinStep(d0, d, io.peer.data, lba, dest.Length, batchLen, off, lba', false);
      WithinDone(d0.disk, io.peer.data.disk, lba, dest.Length, batchLen, end, next, false);
      if len > buffer.size {
        ok := false;
        return;
      }
      var chunk := Buffered(io.peer.data, buffer.phys, len);
      ReadGoes(c, d0, d, io.peer.data, got, dest.Length, lba, start, lba', start');
      if CallPlaced(d0, buffer.phys, buffer.size, lba, dest.Length, batchLen) {
        PlacedDone(d, io.peer.data, lba', n, len, false, ok);
        ReadingStep(d0, d, io.peer.data, buffer.phys, buffer.size, lba, lba', got, dest.Length, batchLen);
      } else {
        NotReading(d0, io.peer.data, lba, next, got + chunk, dest.Length, batchLen);
      }
      if ok {
        CopyOut(dest, off, chunk);
        assert dest[..][..end] == got + chunk;
      }
    }

    lemma ReadReady(d0: Data, d: Data, lba: nat, lba': nat, got: seq<Byte>, total: nat, batchLen: nat)
      requires |got| < total && Reading(d0, d, buffer.phys, buffer.size, lba, lba', got, total, batchLen)
      requires CallPlaced(d0, buffer.phys, buffer.size, lba, total, batchLen)
      ensures var len := BatchChunkLen(|got|, total);
        var n := BatchLen(batchLen, len);
        len <= buffer.size && n > 0 && WellPlaced(n, len) && BatchUsable(d, buffer.phys, lba', n, len)
    {
      hide CallUsable, PlacedFrom, InitFill, WellPlaced, BatchUsable, BatchLen, Advanced, ReadFrom, BlocksFrom,
           Buffered;
      NextUsable(d0, d, buffer.phys, buffer.size, lba, lba', total, batchLen, |got|);
    }

    lemma NotReading(d0: Data, d: Data, lba: nat, lba': nat, got: seq<Byte>, total: nat, batchLen: nat)
      requires |got| <= total && !CallPlaced(d0, buffer.phys, buffer.size, lba, total, batchLen)
      ensures Reading(d0, d, buffer.phys, buffer.size, lba, lba', got, total, batchLen)
    {
      hide CallPlaced;
    }

    /** `chunk.copy_from_slice(&self.buffer[..chunk.len()])` */
    static method CopyOut(dest: array<Byte>, off: nat, src: seq<Byte>)
      requires off + |src| <= dest.Length
      modifies dest
      ensures dest[..] == old(dest[..off]) + src + old(dest[off + |src|..])
    {
      forall k | off <= k < off + |src| {
        dest[k] := src[k - off];
      }
    }

    ghost predicate ReadingInto(d0: Data, d: Data, lba: nat, lba': nat, dest: seq<Byte>, batchLen: nat, off: nat) {
      off <= |dest| && Reading(d0, d, buffer.phys, buffer.size, lba, lba', dest[..off], |dest|, batchLen)
    }

    ghost predicate GoingInto(c: Call, d0: Data, d: Data, dest: seq<Byte>, lba0: nat, start0: nat, off: nat, lba: nat,
                              start: nat)
      requires c.qlen > 0
    {
      off <= |dest| && ReadGoing(c, d0, d, dest[..off], |dest|, lba0, start0, lba, start)
    }

    lemma StartGoing(c: Call, d: Data, dest: seq<Byte>, lba: nat, start: nat)
      requires c.qlen > 0
      ensures GoingInto(c, d, d, dest, lba, start, 0, lba, start)
    {
      hide ReadGoing;
      ReadStarts(c, d, |dest|, lba, start);
      assert dest[..0] == [];
    }

    lemma AllGone(c: Call, d0: Data, d: Data, dest: seq<Byte>, lba0: nat, start0: nat, lba: nat, start: nat)
      requires c.qlen > 0 && GoingInto(c, d0, d, dest, lba0, start0, |dest|, lba, start)
      ensures ReadCall(c, d0, d, dest, |dest|, 0, lba0, start0) && NoEmptyBatch(|dest|, c.batchLen)
    {
      hide ReadGoing, ReadCall, NoEmptyBatch;
      assert dest[..|dest|] == dest;
      ReadGone(c, d0, d, dest, lba0, start0, lba, start);
    }

    lemma StartReading(d0: Data, lba: nat, dest: seq<Byte>, batchLen: nat)
      ensures ReadingInto(d0, d0, lba, lba, dest, batchLen, 0)
    {
      hide Reading;
      ReadingStart(d0, buffer.phys, buffer.size, lba, |dest|, batchLen);
      assert dest[..0] == [];
    }

    lemma AllRead(d0: Data, d: Data, lba: nat, lba': nat, dest: seq<Byte>, batchLen: nat)
      requires ReadingInto(d0, d, lba, lba', dest, batchLen, |dest|)
      requires CallPlaced(d0, buffer.phys, buffer.size, lba, |dest|, batchLen)
      ensures Delivered(d0, d, lba, dest, batchLen)
    {
      hide Reading, CallPlaced, ReadFrom, BlocksFrom;
      assert dest[..|dest|] == dest;
      ReadingDone(d0, d, buffer.phys, buffer.size, lba, lba', dest, batchLen);
    }
  }
}
