/** Whole calls of batched_write and batched_read, with the batches executed in any order: the exact
    condition under which a call moves what it was given, whatever that is. */
module CallLimits {
  import opened Commands
  import opened Transfers
  import opened Prps
  import opened Layout
  import opened ManyTransfers
  import opened Batches
  import opened BatchLimits
  import opened BatchCalls

  /** What stays the same in a call: where the buffer is, the ring and the arguments. */
  datatype Call = Call(buffer: nat, qlen: nat, nsid: nat, batchLen: nat)

  /** An order in which n commands can be executed. */
  ghost predicate Complete(order: seq<nat>, n: nat) {
    (forall k :: 0 <= k < |order| ==> order[k] < n) && forall i :: 0 <= i < n ==> i in order
  }

  /** A batch executed in some order. */
  ghost predicate BatchRun(c: Call, d: Data, e: Data, start: nat, lba: nat, n: nat, len: nat, write: bool)
    requires n > 0 && c.qlen > 0
  {
    exists order: seq<nat> :: Complete(order, n) &&
      e == ExecAll(d, Pick(BatchCommands(d.listPhys, c.buffer, start, c.qlen, c.nsid, lba, n, len, write), order))
  }

  /** batched_write from `off` on, ending with e: each chunk is copied into the buffer, and its batch
      executed. A call that panics does not end. */
  ghost predicate WriteCall(c: Call, d: Data, e: Data, bytes: seq<Byte>, off: nat, lba: nat, start: nat)
    requires c.qlen > 0 && off <= |bytes|
    decreases |bytes| - off
  {
    if off == |bytes| then e == d
    else
      var len := BatchChunkLen(off, |bytes|);
      var n := BatchLen(c.batchLen, len);
      && n > 0 && c.buffer + len <= |d.mem|
      && var d1 := d.(mem := Splice(d.mem, c.buffer, bytes[off..off + len]));
         exists d2: Data :: BatchRun(c, d1, d2, start, lba, n, len, true) &&
                            WriteCall(c, d2, e, bytes, off + len, lba + BatchAdvance(n, len), start + n)
  }

  /** The buffer begins with `chunk`. */
  ghost predicate Holds(d: Data, buffer: nat, chunk: seq<Byte>) {
    buffer + |chunk| <= |d.mem| && chunk == d.mem[buffer..buffer + |chunk|]
  }

  /** batched_read from `off` on, which ends with e and delivers `out`. */
  ghost predicate ReadCall(c: Call, d: Data, e: Data, out: seq<Byte>, total: nat, off: nat, lba: nat, start: nat)
    requires c.qlen > 0 && off <= total
    decreases total - off
  {
    if off == total then e == d && out == []
    else
      var len := BatchChunkLen(off, total);
      var n := BatchLen(c.batchLen, len);
      && n > 0 && c.buffer + len <= |d.mem| && len <= |out|
      && exists d2: Data :: BatchRun(c, d, d2, start, lba, n, len, false) && Holds(d2, c.buffer, out[..len]) &&
           ReadCall(c, d2, e, out[len..], total, off + len, lba + BatchAdvance(n, len), start + n)
  }

  // ---------------------------------------------------------------- the loops

  /** However the call ends from here, that is how the whole call can end. */
  ghost predicate WriteGoing(c: Call, d0: Data, d: Data, bytes: seq<Byte>, lba0: nat, start0: nat, off: nat, lba: nat,
                             start: nat)
    requires c.qlen > 0
  {
    off <= |bytes| && forall e: Data | WriteCall(c, d, e, bytes, off, lba, start) ::
                        WriteCall(c, d0, e, bytes, 0, lba0, start0)
  }

  lemma WriteGoes(c: Call, d0: Data, d: Data, d2: Data, bytes: seq<Byte>, lba0: nat, start0: nat, off: nat, lba: nat,
                  start: nat)
    requires c.qlen > 0 && off < |bytes| && WriteGoing(c, d0, d, bytes, lba0, start0, off, lba, start)
    requires var len := BatchChunkLen(off, |bytes|);
      var n := BatchLen(c.batchLen, len);
      && n > 0 && c.buffer + len <= |d.mem|
      && BatchRun(c, d.(mem := Splice(d.mem, c.buffer, bytes[off..off + len])), d2, start, lba, n, len, true)
    ensures var len := BatchChunkLen(off, |bytes|);
      var n := BatchLen(c.batchLen, len);
      WriteGoing(c, d0, d2, bytes, lba0, start0, off + len, lba + BatchAdvance(n, len), start + n)
  {
    hide BatchRun, BatchAdvance, BatchLen;
  }

  lemma WriteGone(c: Call, d0: Data, d: Data, bytes: seq<Byte>, lba0: nat, start0: nat, lba: nat, start: nat)
    requires c.qlen > 0 && WriteGoing(c, d0, d, bytes, lba0, start0, |bytes|, lba, start)
    ensures WriteCall(c, d0, d, bytes, 0, lba0, start0) && NoEmptyBatch(|bytes|, c.batchLen)
  {
    hide NoEmptyBatch;
    assert WriteCall(c, d, d, bytes, |bytes|, lba, start);
    WriteCommands(c, d0, d, bytes, 0, lba0, start0);
    CommandsFromIff(0, |bytes|, c.batchLen);
  }

  ghost predicate ReadGoing(c: Call, d0: Data, d: Data, got: seq<Byte>, total: nat, lba0: nat, start0: nat, lba: nat,
                            start: nat)
    requires c.qlen > 0
  {
    |got| <= total && forall e: Data, out: seq<Byte> | ReadCall(c, d, e, out, total, |got|, lba, start) ::
                        ReadCall(c, d0, e, got + out, total, 0, lba0, start0)
  }

  lemma ReadStarts(c: Call, d: Data, total: nat, lba: nat, start: nat)
    requires c.qlen > 0
    ensures ReadGoing(c, d, d, [], total, lba, start, lba, start)
  {
    hide ReadCall;
    forall e: Data, out: seq<Byte> | ReadCall(c, d, e, out, total, 0, lba, start)
      ensures ReadCall(c, d, e, [] + out, total, 0, lba, start)
    {
      assert [] + out == out;
    }
  }

  lemma ReadGoes(c: Call, d0: Data, d: Data, d2: Data, got: seq<Byte>, total: nat, lba0: nat, start0: nat, lba: nat,
                 start: nat)
    requires c.qlen > 0 && |got| < total && ReadGoing(c, d0, d, got, total, lba0, start0, lba, start)
    requires var len := BatchChunkLen(|got|, total);
      var n := BatchLen(c.batchLen, len);
      && n > 0 && c.buffer + len <= |d.mem| == |d2.mem| && BatchRun(c, d, d2, start, lba, n, len, false)
    ensures var len := BatchChunkLen(|got|, total);
      var n := BatchLen(c.batchLen, len);
      ReadGoing(c, d0, d2, got + Buffered(d2, c.buffer, len), total, lba0, start0, lba + BatchAdvance(n, len),
                start + n)
  {
    hide BatchRun, BatchAdvance, BatchLen, ReadCall, BatchChunkLen;
    ChunkBounds(|got|, total);
    var len := BatchChunkLen(|got|, total);
    var n := BatchLen(c.batchLen, len);
    var chunk, next := Buffered(d2, c.buffer, len), lba + BatchAdvance(n, len);
    forall e: Data, out: seq<Byte> | ReadCall(c, d2, e, out, total, |got + chunk|, next, start + n)
      ensures ReadCall(c, d0, e, (got + chunk) + out, total, 0, lba0, start0)
    {
      ReadMore(c, d, d2, e, chunk, out, total, |got|, lba, start);
      assert (got + chunk) + out == got + (chunk + out);
    }
  }

  lemma ReadMore(c: Call, d: Data, d2: Data, e: Data, chunk: seq<Byte>, out: seq<Byte>, total: nat, off: nat, lba: nat,
                 start: nat)
    requires c.qlen > 0 && off < total
    requires var len := BatchChunkLen(off, total);
      var n := BatchLen(c.batchLen, len);
      && n > 0 && c.buffer + len <= |d.mem| == |d2.mem| && BatchRun(c, d, d2, start, lba, n, len, false)
      && chunk == Buffered(d2, c.buffer, len)
      && ReadCall(c, d2, e, out, total, off + len, lba + BatchAdvance(n, len), start + n)
    ensures ReadCall(c, d, e, chunk + out, total, off, lba, start)
  {
    hide BatchRun, BatchAdvance, BatchLen;
    assert (chunk + out)[..|chunk|] == chunk && (chunk + out)[|chunk|..] == out;
    assert Holds(d2, c.buffer, chunk);
  }

  lemma ReadGone(c: Call, d0: Data, d: Data, got: seq<Byte>, lba0: nat, start0: nat, lba: nat, start: nat)
    requires c.qlen > 0 && ReadGoing(c, d0, d, got, |got|, lba0, start0, lba, start)
    ensures ReadCall(c, d0, d, got, |got|, 0, lba0, start0) && NoEmptyBatch(|got|, c.batchLen)
  {
    hide NoEmptyBatch;
    assert ReadCall(c, d, d, [], |got|, |got|, lba, start);
    assert got + [] == got;
    ReadCommands(c, d0, d, got, |got|, 0, lba0, start0);
    CommandsFromIff(0, |got|, c.batchLen);
  }

  // ---------------------------------------------------------------- what is right

  /** What a caller provides for `total` bytes: the blocks exist, the buffer takes a chunk, and the list
      is as init filled it. */
  ghost predicate CallReady(c: Call, d: Data, lba: nat, total: nat) {
    && c.qlen > 0 && lba + total / BLOCK <= U64 && lba * BLOCK + total <= |d.disk|
    && c.buffer % PAGE == 0 && c.buffer + BatchChunkLen(0, total) <= |d.mem|
    && Apart(d, c.buffer, BatchChunkLen(0, total)) && InitFill(d, c.buffer)
  }

  ghost predicate WriteOutcome(d: Data, e: Data, lba: nat, bytes: seq<Byte>) {
    lba * BLOCK + |bytes| <= |d.disk| && e.disk == Splice(d.disk, lba * BLOCK, bytes)
  }

  ghost predicate ReadOutcome(d: Data, e: Data, lba: nat, out: seq<Byte>) {
    lba * BLOCK + |out| <= |d.disk| && out == BlockBytes(d.disk, lba, |out|) && e.disk == d.disk
  }

  // ---------------------------------------------------------------- one batch, in any order

  lemma OrderOf(c: Call, d: Data, e: Data, start: nat, lba: nat, n: nat, len: nat, write: bool)
    returns (order: seq<nat>)
    requires n > 0 && c.qlen > 0 && BatchRun(c, d, e, start, lba, n, len, write)
    ensures Complete(order, n)
    ensures e == ExecAll(d, Pick(BatchCommands(d.listPhys, c.buffer, start, c.qlen, c.nsid, lba, n, len, write), order))
  {
    hide BatchCommands, ExecAll;
    order :| Complete(order, n) &&
      e == ExecAll(d, Pick(BatchCommands(d.listPhys, c.buffer, start, c.qlen, c.nsid, lba, n, len, write), order));
  }

  lemma RunTouches(c: Call, d: Data, e: Data, start: nat, lba: nat, n: nat, len: nat, write: bool)
    requires 0 < n && c.qlen > 0 && n * BLOCK <= len <= BATCH_CHUNK && lba + len / BLOCK <= U64
    requires BatchRun(c, d, e, start, lba, n, len, write)
    ensures OnlyBlocks(d, e, lba, BatchAdvance(n, len), write)
  {
    hide BatchCommands, ExecAll, OnlyBlocks, BatchAdvance;
    var order := OrderOf(c, d, e, start, lba, n, len, write);
    BatchTouches(d, d.listPhys, c.buffer, start, c.qlen, c.nsid, lba, n, len, write, order);
  }

  /** A well placed batch makes its stretches. */
  lemma RunPlaced(c: Call, d: Data, e: Data, start: nat, lba: nat, n: nat, len: nat, write: bool)
    requires 0 < n && c.qlen > 0 && n * BLOCK <= len <= BATCH_CHUNK
    requires BatchUsable(d, c.buffer, lba, n, len) && WellPlaced(n, len)
    requires BatchRun(c, d, e, start, lba, n, len, write)
    ensures var ios := Stretches(c.buffer, lba, n, len, write);
      AllFit(d, ios) && e == WholeAll(d, ios)
  {
    hide BatchCommands, ExecAll, WholeAll, BatchUsable, WellPlaced, AllFit, Pairwise, MakesEach, Stretches;
    var order := OrderOf(c, d, e, start, lba, n, len, write);
    StretchesMake(d, c.buffer, start, c.qlen, c.nsid, lba, n, len, write);
    CommandOrder(d, BatchCommands(d.listPhys, c.buffer, start, c.qlen, c.nsid, lba, n, len, write),
                 Stretches(c.buffer, lba, n, len, write), order);
  }

  lemma RunUnmoved(c: Call, d: Data, e: Data, start: nat, lba: nat, n: nat, len: nat, write: bool, j: nat)
    requires 0 < n && c.qlen > 0 && n * BLOCK <= len <= BATCH_CHUNK && lba + len / BLOCK <= U64
    requires BatchRun(c, d, e, start, lba, n, len, write)
    requires Alone(d, c.buffer, lba, len, write, j) && Unmoved(d, d, c.buffer, lba, write, j)
    requires Lost(c.buffer, n, len, j)
    ensures Unmoved(d, e, c.buffer, lba, write, j)
  {
    hide BatchCommands, ExecAll, Unmoved, Lost, Alone, BatchSize, BatchBlocks;
    var order := OrderOf(c, d, e, start, lba, n, len, write);
    Unmoving(d, c.buffer, start, c.qlen, c.nsid, lba, n, len, write, j, order);
  }

  /** The source, and the memory, is zeros. */
  ghost predicate Blank(d: Data, lba: nat, blocks: int, write: bool) {
    && Zeros(d.mem) && (write ==> Zeros(d.disk))
    && (!write ==> forall k :: lba * BLOCK <= k < (lba + blocks) * BLOCK && k < |d.disk| ==> d.disk[k] == 0)
  }

  lemma BlankStep(d: Data, c: Command, lba: nat, blocks: int, write: bool)
    requires Blank(d, lba, blocks, write) && c.opcode == (if write then OP_WRITE else OP_READ)
    requires lba <= Lba(c) && Lba(c) + Blocks(c) <= lba + blocks
    ensures Blank(Exec(d, c).data, lba, blocks, write)
  {
    hide Exec, Lba, Blocks;
    ExecFrame(d, c);
    if write {
      WriteZeros(d, c);
    } else {
      forall x | 0 <= x < |d.mem|
        ensures Exec(d, c).data.mem[x] == 0
      {
        ReadZeros(d, c, x);
      }
    }
  }

  lemma {:induction false} BlankAll(d: Data, buffer: nat, start: nat, qlen: nat, nsid: nat, lba: nat, n: nat, len: nat,
                                    write: bool, order: seq<nat>)
    requires qlen > 0 && 0 < n && n * BLOCK <= len <= BATCH_CHUNK && lba + len / BLOCK <= U64
    requires Blank(d, lba, BatchAdvance(n, len), write) && forall k :: 0 <= k < |order| ==> order[k] < n
    ensures var cmds := BatchCommands(d.listPhys, buffer, start, qlen, nsid, lba, n, len, write);
      Blank(ExecAll(d, Pick(cmds, order)), lba, BatchAdvance(n, len), write)
  {
    hide BatchCommands, BatchAdvance, Exec, Blank, Blocks, Lba;
    if order != [] {
      var last := |order| - 1;
      BlankAll(d, buffer, start, qlen, nsid, lba, n, len, write, order[..last]);
      var cmds := BatchCommands(d.listPhys, buffer, start, qlen, nsid, lba, n, len, write);
      assert Pick(cmds, order)[..last] == Pick(cmds, order[..last]);
      CommandBlocks(d.listPhys, buffer, start, qlen, nsid, lba, n, len, write, order[last]);
      BlankStep(ExecAll(d, Pick(cmds, order[..last])), cmds[order[last]], lba, BatchAdvance(n, len), write);
    }
  }

  lemma RunBlank(c: Call, d: Data, e: Data, start: nat, lba: nat, n: nat, len: nat, write: bool)
    requires 0 < n && c.qlen > 0 && n * BLOCK <= len <= BATCH_CHUNK && lba + len / BLOCK <= U64
    requires BatchRun(c, d, e, start, lba, n, len, write) && Blank(d, lba, BatchAdvance(n, len), write)
    ensures Blank(e, lba, BatchAdvance(n, len), write)
  {
    hide BatchCommands, ExecAll, Blank, BatchAdvance;
    var order := OrderOf(c, d, e, start, lba, n, len, write);
    BlankAll(d, c.buffer, start, c.qlen, c.nsid, lba, n, len, write, order);
  }

  // ---------------------------------------------------------------- one chunk of a call

  /** The batch of the chunk at `off`, within the limits of the one address space there is. */
  lemma ChunkFacts(c: Call, total: nat, off: nat, lba: nat)
    requires off < total && BatchLen(c.batchLen, BatchChunkLen(off, total)) > 0
    requires lba + (total - off) / BLOCK <= U64
    ensures var len := BatchChunkLen(off, total);
      var n := BatchLen(c.batchLen, len);
      && 0 < len <= total - off && len <= BATCH_CHUNK && n * BLOCK <= len && lba + len / BLOCK <= U64
      && BatchAdvance(n, len) * BLOCK <= len
      && lba + BatchAdvance(n, len) + (total - (off + len)) / BLOCK <= U64
      && BlocksFrom(off, total, c.batchLen) == BatchAdvance(n, len) + BlocksFrom(off + len, total, c.batchLen)
  {
    hide BatchBlocks;
    var len := BatchChunkLen(off, total);
    DividesIff(BatchLen(c.batchLen, len), len);
  }

  /** The state after a chunk of a write. */
  lemma WriteNextCall(c: Call, d: Data, e: Data, bytes: seq<Byte>, off: nat, lba: nat, start: nat)
    returns (d1: Data, d2: Data)
    requires c.qlen > 0 && off < |bytes| && WriteCall(c, d, e, bytes, off, lba, start)
    ensures var len := BatchChunkLen(off, |bytes|);
      var n := BatchLen(c.batchLen, len);
      && 0 < n && 0 < len && off + len <= |bytes| && c.buffer + len <= |d.mem|
      && d1 == d.(mem := Splice(d.mem, c.buffer, bytes[off..off + len]))
      && BatchRun(c, d1, d2, start, lba, n, len, true)
      && WriteCall(c, d2, e, bytes, off + len, lba + BatchAdvance(n, len), start + n)
  {
    hide BatchRun, BatchAdvance, BatchLen, BatchChunkLen;
    ChunkBounds(off, |bytes|);
    var len := BatchChunkLen(off, |bytes|);
    var n := BatchLen(c.batchLen, len);
    d1 := d.(mem := Splice(d.mem, c.buffer, bytes[off..off + len]));
    d2 :| BatchRun(c, d1, d2, start, lba, n, len, true)
          && WriteCall(c, d2, e, bytes, off + len, lba + BatchAdvance(n, len), start + n);
  }

  lemma ReadNextCall(c: Call, d: Data, e: Data, out: seq<Byte>, total: nat, off: nat, lba: nat, start: nat)
    returns (d2: Data)
    requires c.qlen > 0 && off < total && ReadCall(c, d, e, out, total, off, lba, start)
    ensures var len := BatchChunkLen(off, total);
      var n := BatchLen(c.batchLen, len);
      && 0 < n && 0 < len && off + len <= total && c.buffer + len <= |d.mem| && len <= |out|
      && BatchRun(c, d, d2, start, lba, n, len, false) && Holds(d2, c.buffer, out[..len])
      && ReadCall(c, d2, e, out[len..], total, off + len, lba + BatchAdvance(n, len), start + n)
  {
    hide BatchRun, BatchAdvance, BatchLen, BatchChunkLen, Holds;
    ChunkBounds(off, total);
    var len := BatchChunkLen(off, total);
    var n := BatchLen(c.batchLen, len);
    d2 :| BatchRun(c, d, d2, start, lba, n, len, false) && Holds(d2, c.buffer, out[..len])
          && ReadCall(c, d2, e, out[len..], total, off + len, lba + BatchAdvance(n, len), start + n);
  }

  // ---------------------------------------------------------------- calls that go right

  /** Whatever the orders, a call whose batches are well placed has the outcome of BatchCalls. */
  lemma {:induction false} PlacedWrite(c: Call, d0: Data, size: nat, lba0: nat, d: Data, e: Data, bytes: seq<Byte>,
                                       off: nat, lba: nat, start: nat)
    requires c.qlen > 0 && off <= |bytes| && WriteCall(c, d, e, bytes, off, lba, start)
    requires CallPlaced(d0, c.buffer, size, lba0, |bytes|, c.batchLen)
    requires Writing(d0, d, c.buffer, size, lba0, lba, bytes, c.batchLen, off)
    ensures (lba0 + BlocksFrom(0, |bytes|, c.batchLen)) * BLOCK <= |d0.disk|
    ensures e.disk == Written(d0.disk, lba0, bytes, c.batchLen, 0)
    decreases |bytes| - off
  {
    hide WriteCall, CallUsable, PlacedFrom, Writing, Written, BlocksFrom, BatchRun, BatchLen, BatchAdvance, BatchUsable,
         WellPlaced, InitFill, Stretches, AllFit, WholeAll, Splice;
    if off == |bytes| {
      WriteEnd(c, d, e, bytes, lba, start);
      WritingDone(d0, d, c.buffer, size, lba0, lba, bytes, c.batchLen);
    } else {
      var d1, d2 := WriteNextCall(c, d, e, bytes, off, lba, start);
      var len := BatchChunkLen(off, |bytes|);
      var n := BatchLen(c.batchLen, len);
      WritingOnward(d0, d, d1, c.buffer, size, lba0, lba, bytes, c.batchLen, off);
      NextUsable(d0, d1, c.buffer, size, lba0, lba, |bytes|, c.batchLen, off);
      RunPlaced(c, d1, d2, start, lba, n, len, true);
      WritingStep(d0, d, d1, d2, c.buffer, size, lba0, lba, bytes, c.batchLen, off);
      PlacedWrite(c, d0, size, lba0, d2, e, bytes, off + len, lba + BatchAdvance(n, len), start + n);
    }
  }

  lemma WriteEnd(c: Call, d: Data, e: Data, bytes: seq<Byte>, lba: nat, start: nat)
    requires c.qlen > 0 && WriteCall(c, d, e, bytes, |bytes|, lba, start)
    ensures e == d
  {
  }

  lemma WritingOnward(d0: Data, d: Data, d1: Data, buffer: nat, size: nat, lba: nat, lba': nat, bytes: seq<Byte>,
                      batchLen: nat, off: nat)
    requires CallPlaced(d0, buffer, size, lba, |bytes|, batchLen) && SameShape(d, d1)
    requires Writing(d0, d, buffer, size, lba, lba', bytes, batchLen, off)
    ensures CallUsable(d0, buffer, size, lba, |bytes|, batchLen)
    ensures Onward(d0, d1, buffer, lba, lba', |bytes|, batchLen, off)
  {
    hide CallUsable, PlacedFrom, BlocksFrom, Written, Advanced, InitFill;
  }

  lemma {:induction false} PlacedRead(c: Call, d0: Data, size: nat, lba0: nat, got: seq<Byte>, d: Data, e: Data,
                                      out: seq<Byte>, total: nat, lba: nat, start: nat)
    requires c.qlen > 0 && |got| <= total && ReadCall(c, d, e, out, total, |got|, lba, start)
    requires CallPlaced(d0, c.buffer, size, lba0, total, c.batchLen)
    requires Reading(d0, d, c.buffer, size, lba0, lba, got, total, c.batchLen)
    ensures BatchChunkLen(0, total) <= size && c.buffer + size <= |d0.mem| && e.disk == d0.disk
    ensures (lba0 + BlocksFrom(0, total, c.batchLen)) * BLOCK <= |d0.disk|
    ensures got + out == ReadFrom(d0.disk, lba0, total, c.batchLen, 0, Buffered(d0, c.buffer, size))
    decreases total - |got|
  {
    hide ReadCall, CallUsable, PlacedFrom, Reading, ReadFrom, BlocksFrom, BatchRun, BatchLen, BatchAdvance, BatchUsable,
         WellPlaced, InitFill, Stretches, AllFit, WholeAll, BatchChunkLen;
    if |got| == total {
      ReadEnd(c, d, e, out, total, lba, start);
      assert got + out == got;
      ReadingDone(d0, d, c.buffer, size, lba0, lba, got, c.batchLen);
    } else {
      var d2 := ReadNextCall(c, d, e, out, total, |got|, lba, start);
      var len := BatchChunkLen(|got|, total);
      var n := BatchLen(c.batchLen, len);
      ReadingOnward(d0, d, c.buffer, size, lba0, lba, got, total, c.batchLen);
      NextUsable(d0, d, c.buffer, size, lba0, lba, total, c.batchLen, |got|);
      ChunkBounds(|got|, total);
      RunPlaced(c, d, d2, start, lba, n, len, false);
      ReadingStep(d0, d, d2, c.buffer, size, lba0, lba, got, total, c.batchLen);
      var chunk := Buffered(d2, c.buffer, len);
      assert got + out == (got + chunk) + out[len..];
      PlacedRead(c, d0, size, lba0, got + chunk, d2, e, out[len..], total, lba + BatchAdvance(n, len), start + n);
    }
  }

  lemma ReadEnd(c: Call, d: Data, e: Data, out: seq<Byte>, total: nat, lba: nat, start: nat)
    requires c.qlen > 0 && ReadCall(c, d, e, out, total, total, lba, start)
    ensures e == d && out == []
  {
  }

  lemma ReadingOnward(d0: Data, d: Data, buffer: nat, size: nat, lba: nat, lba': nat, got: seq<Byte>, total: nat,
                      batchLen: nat)
    requires CallPlaced(d0, buffer, size, lba, total, batchLen)
    requires Reading(d0, d, buffer, size, lba, lba', got, total, batchLen)
    ensures CallUsable(d0, buffer, size, lba, total, batchLen)
    ensures |got| <= total && Onward(d0, d, buffer, lba, lba', total, batchLen, |got|)
  {
    hide CallUsable, PlacedFrom, BlocksFrom, ReadFrom, Advanced, InitFill;
  }

  /** A call whose batches are not empty, and fit the buffer, can end. */
  lemma {:induction false} WriteEnds(c: Call, d: Data, bytes: seq<Byte>, off: nat, lba: nat, start: nat)
    returns (e: Data)
    requires c.qlen > 0 && off <= |bytes| && CommandsFrom(off, |bytes|, c.batchLen)
    requires c.buffer + BatchChunkLen(off, |bytes|) <= |d.mem|
    ensures WriteCall(c, d, e, bytes, off, lba, start)
    decreases |bytes| - off
  {
    hide BatchRun, BatchAdvance, BatchLen;
    if off == |bytes| {
      e := d;
    } else {
      var len := BatchChunkLen(off, |bytes|);
      var n := BatchLen(c.batchLen, len);
      var d1 := d.(mem := Splice(d.mem, c.buffer, bytes[off..off + len]));
      var d2 := InOrder(c, d1, start, lba, n, len, true);
      e := WriteEnds(c, d2, bytes, off + len, lba + BatchAdvance(n, len), start + n);
    }
  }

  lemma InOrder(c: Call, d: Data, start: nat, lba: nat, n: nat, len: nat, write: bool) returns (e: Data)
    requires c.qlen > 0 && n > 0
    ensures BatchRun(c, d, e, start, lba, n, len, write) && |e.mem| == |d.mem|
  {
    hide ExecAll, BatchCommands;
    var order := seq(n, i => i);
    var cmds := Pick(BatchCommands(d.listPhys, c.buffer, start, c.qlen, c.nsid, lba, n, len, write), order);
    forall i | 0 <= i < n
      ensures i in order
    {
      assert order[i] == i;
    }
    e := ExecAll(d, cmds);
    ExecAllKeeps(d, cmds);
    assert Complete(order, n);
  }

  lemma {:induction false} ReadEnds(c: Call, d: Data, total: nat, off: nat, lba: nat, start: nat)
    returns (e: Data, out: seq<Byte>)
    requires c.qlen > 0 && off <= total && CommandsFrom(off, total, c.batchLen)
    requires c.buffer + BatchChunkLen(off, total) <= |d.mem|
    ensures ReadCall(c, d, e, out, total, off, lba, start) && |out| == total - off
    decreases total - off
  {
    hide BatchRun, BatchAdvance, BatchLen;
    if off == total {
      e, out := d, [];
    } else {
      var len := BatchChunkLen(off, total);
      var n := BatchLen(c.batchLen, len);
      var d2 := InOrder(c, d, start, lba, n, len, false);
      var rest;
      e, rest := ReadEnds(c, d2, total, off + len, lba + BatchAdvance(n, len), start + n);
      var chunk := d2.mem[c.buffer..c.buffer + len];
      out := chunk + rest;
      assert out[..len] == chunk && out[len..] == rest;
    }
  }

  lemma {:induction false} WriteCommands(c: Call, d: Data, e: Data, bytes: seq<Byte>, off: nat, lba: nat, start: nat)
    requires c.qlen > 0 && off <= |bytes| && WriteCall(c, d, e, bytes, off, lba, start)
    ensures CommandsFrom(off, |bytes|, c.batchLen)
    decreases |bytes| - off
  {
    hide WriteCall, BatchRun, BatchAdvance, BatchLen, Splice;
    if off < |bytes| {
      var d1, d2 := WriteNextCall(c, d, e, bytes, off, lba, start);
      var len := BatchChunkLen(off, |bytes|);
      var n := BatchLen(c.batchLen, len);
      WriteCommands(c, d2, e, bytes, off + len, lba + BatchAdvance(n, len), start + n);
    }
  }

  lemma {:induction false} ReadCommands(c: Call, d: Data, e: Data, out: seq<Byte>, total: nat, off: nat, lba: nat,
                                        start: nat)
    requires c.qlen > 0 && off <= total && ReadCall(c, d, e, out, total, off, lba, start)
    ensures CommandsFrom(off, total, c.batchLen) && |out| == total - off
    decreases total - off
  {
    hide ReadCall, BatchRun, BatchAdvance, BatchLen, Holds;
    if off == total {
      ReadEnd(c, d, e, out, total, lba, start);
    } else {
      var d2 := ReadNextCall(c, d, e, out, total, off, lba, start);
      var len := BatchChunkLen(off, total);
      var n := BatchLen(c.batchLen, len);
      ReadCommands(c, d2, e, out[len..], total, off + len, lba + BatchAdvance(n, len), start + n);
    }
  }

  /** A call whose chunks fit the buffer can end exactly if none of its batches is empty; otherwise it
      divides by the length of an empty one. */
  lemma WriteEndsIff(c: Call, d: Data, bytes: seq<Byte>, lba: nat, start: nat)
    requires c.qlen > 0 && c.buffer + BatchChunkLen(0, |bytes|) <= |d.mem|
    ensures (exists e: Data :: WriteCall(c, d, e, bytes, 0, lba, start)) <==> NoEmptyBatch(|bytes|, c.batchLen)
  {
    hide WriteCall, CommandsFrom, NoEmptyBatch;
    CommandsFromIff(0, |bytes|, c.batchLen);
    if NoEmptyBatch(|bytes|, c.batchLen) {
      var e := WriteEnds(c, d, bytes, 0, lba, start);
    } else if e: Data :| WriteCall(c, d, e, bytes, 0, lba, start) {
      WriteCommands(c, d, e, bytes, 0, lba, start);
    }
  }

  lemma ReadEndsIff(c: Call, d: Data, total: nat, lba: nat, start: nat)
    requires c.qlen > 0 && c.buffer + BatchChunkLen(0, total) <= |d.mem|
    ensures (exists e: Data, out: seq<Byte> :: ReadCall(c, d, e, out, total, 0, lba, start))
            <==> NoEmptyBatch(total, c.batchLen)
  {
    hide ReadCall, CommandsFrom, NoEmptyBatch;
    CommandsFromIff(0, total, c.batchLen);
    if NoEmptyBatch(total, c.batchLen) {
      var e, out := ReadEnds(c, d, total, 0, lba, start);
    } else if e: Data, out: seq<Byte> :| ReadCall(c, d, e, out, total, 0, lba, start) {
      ReadCommands(c, d, e, out, total, 0, lba, start);
    }
  }

  // ---------------------------------------------------------------- calls that go wrong

  /** Byte x of the data is one that the batch of its chunk does not move. */
  ghost predicate LostAt(c: Call, total: nat, off: nat, x: nat)
    requires off <= total
    decreases total - off
  {
    off < total &&
    var len := BatchChunkLen(off, total);
    var n := BatchLen(c.batchLen, len);
    && n > 0 && off <= x
    && if x < off + len then Lost(c.buffer, n, len, x - off) else LostAt(c, total, off + len, x)
  }

  lemma {:induction false} FindLost(c: Call, total: nat, off: nat) returns (x: nat)
    requires off <= total && c.buffer % PAGE == 0
    requires DividesFrom(off, total, c.batchLen) && !TilesFrom(off, total, c.batchLen, true)
    ensures off <= x < total && LostAt(c, total, off, x)
    decreases total - off
  {
    hide Tiles, LostBy, BatchSize, BatchBlocks;
    var len := BatchChunkLen(off, total);
    var n := BatchLen(c.batchLen, len);
    if !Tiles(n, len) {
      var j := LostByte(c.buffer, n, len);
      x := off + j;
    } else {
      x := FindLost(c, total, off + len);
    }
  }

  /** Whatever the orders, a write changes no more than the blocks its batches advance by. */
  lemma {:induction false} WriteTouches(c: Call, d: Data, e: Data, bytes: seq<Byte>, off: nat, lba: nat, start: nat)
    requires c.qlen > 0 && off <= |bytes| && WriteCall(c, d, e, bytes, off, lba, start)
    requires lba + (|bytes| - off) / BLOCK <= U64
    ensures Kept(d.disk, e.disk, lba, BlocksFrom(off, |bytes|, c.batchLen), true)
    decreases |bytes| - off
  {
    hide WriteCall, BatchRun, BatchAdvance, BatchLen, BatchChunkLen, OnlyBlocks, Kept, Splice;
    if off == |bytes| {
      WriteEnd(c, d, e, bytes, lba, start);
      KeptSame(d.disk, lba);
    } else {
      var d1, d2 := WriteNextCall(c, d, e, bytes, off, lba, start);
      var len := BatchChunkLen(off, |bytes|);
      var n := BatchLen(c.batchLen, len);
      ChunkFacts(c, |bytes|, off, lba);
      RunTouches(c, d1, d2, start, lba, n, len, true);
      OnlyBlocksKept(d1, d2, lba, BatchAdvance(n, len), true);
      var next := lba + BatchAdvance(n, len);
      WriteTouches(c, d2, e, bytes, off + len, next, start + n);
      KeptMore(d.disk, d2.disk, e.disk, lba, next, BlocksFrom(off + len, |bytes|, c.batchLen), true);
    }
  }

  lemma KeptSame(disk: seq<Byte>, lba: nat)
    ensures Kept(disk, disk, lba, 0, true)
  {
  }

  /** Zeros but for byte x. */
  ghost predicate OnlyAt(s: seq<Byte>, x: nat) { forall k :: 0 <= k < |s| && k != x ==> s[k] == 0 }

  /** A blank state with the list as init filled it, for chunks of `len` bytes. */
  ghost predicate BlankList(d: Data, buffer: nat, len: nat) {
    Zeros(d.mem) && buffer % PAGE == 0 && buffer + len <= |d.mem| && Apart(d, buffer, len) && InitFill(d, buffer)
  }

  lemma CopiedAlone(d: Data, d1: Data, buffer: nat, lba: nat, chunk: seq<Byte>, j: nat)
    requires BlankList(d, buffer, |chunk|) && d1 == d.(mem := Splice(d.mem, buffer, chunk))
    requires j < |chunk| && OnlyAt(chunk, j) && Zeros(d.disk) && lba * BLOCK + j < |d.disk|
    ensures Alone(d1, buffer, lba, |chunk|, true, j) && Unmoved(d1, d1, buffer, lba, true, j)
  {
  }

  lemma CopiedBlank(d: Data, d1: Data, buffer: nat, lba: nat, blocks: int, chunk: seq<Byte>)
    requires BlankList(d, buffer, |chunk|) && d1 == d.(mem := Splice(d.mem, buffer, chunk))
    requires Zeros(chunk) && Zeros(d.disk)
    ensures Blank(d1, lba, blocks, true)
  {
  }

  lemma BlankKept(d: Data, d': Data, buffer: nat, len: nat, len': nat)
    requires BlankList(d, buffer, len) && SameShape(d, d') && len' <= len && Zeros(d'.mem)
    ensures BlankList(d', buffer, len')
  {
  }

  lemma TouchedShape(d: Data, e: Data, lba: nat, blocks: int, write: bool)
    requires OnlyBlocks(d, e, lba, blocks, write)
    ensures SameShape(d, e) && (write ==> e.mem == d.mem) && (!write ==> e.disk == d.disk)
  {
  }

  lemma BlankIs(d: Data, lba: nat, blocks: int, write: bool)
    requires Blank(d, lba, blocks, write)
    ensures Zeros(d.mem) && (write ==> Zeros(d.disk))
  {
  }

  lemma LostNext(c: Call, total: nat, off: nat, x: nat)
    requires off <= total && LostAt(c, total, off, x) && DividesFrom(off, total, c.batchLen)
    ensures off < total && off <= x
    ensures var len := BatchChunkLen(off, total);
      var n := BatchLen(c.batchLen, len);
      && 0 < n && 0 < len <= total - off && n * BLOCK <= len && BatchAdvance(n, len) * BLOCK == len
      && (if x < off + len then Lost(c.buffer, n, len, x - off) else LostAt(c, total, off + len, x))
      && DividesFrom(off + len, total, c.batchLen)
  {
    hide Lost, BatchBlocks;
    var len := BatchChunkLen(off, total);
    var n := BatchLen(c.batchLen, len);
    DividesIff(n, len);
  }

  /** Byte x of the data does not reach its place on a blank disk. */
  lemma {:induction false} WriteLost(c: Call, d: Data, e: Data, bytes: seq<Byte>, off: nat, lba: nat, start: nat,
                                     x: nat)
    requires c.qlen > 0 && off <= |bytes| && WriteCall(c, d, e, bytes, off, lba, start)
    requires DividesFrom(off, |bytes|, c.batchLen) && LostAt(c, |bytes|, off, x)
    requires BlankList(d, c.buffer, BatchChunkLen(off, |bytes|)) && Zeros(d.disk) && OnlyAt(bytes, x)
    requires lba + (|bytes| - off) / BLOCK <= U64 && lba * BLOCK + (|bytes| - off) <= |d.disk|
    ensures off <= x < |bytes| && lba * BLOCK + (x - off) < |e.disk| && e.disk[lba * BLOCK + (x - off)] == 0
    decreases |bytes| - off
  {
    hide WriteCall, BatchRun, BatchAdvance, BatchLen, BatchChunkLen, OnlyBlocks, Splice, Lost, LostAt, DividesFrom,
         Apart, InitFill, BlankList, Alone, Blank, BlocksFrom;
    LostNext(c, |bytes|, off, x);
    var d1, d2 := WriteNextCall(c, d, e, bytes, off, lba, start);
    var len := BatchChunkLen(off, |bytes|);
    var n := BatchLen(c.batchLen, len);
    var chunk := bytes[off..off + len];
    ChunkFacts(c, |bytes|, off, lba);
    RunTouches(c, d1, d2, start, lba, n, len, true);
    TouchedShape(d1, d2, lba, BatchAdvance(n, len), true);
    var next := lba + BatchAdvance(n, len);
    if x < off + len {
      CopiedAlone(d, d1, c.buffer, lba, chunk, x - off);
      RunUnmoved(c, d1, d2, start, lba, n, len, true, x - off);
      WriteTouches(c, d2, e, bytes, off + len, next, start + n);
    } else {
      assert Zeros(chunk);
      CopiedBlank(d, d1, c.buffer, lba, BatchAdvance(n, len), chunk);
      RunBlank(c, d1, d2, start, lba, n, len, true);
      BlankIs(d2, lba, BatchAdvance(n, len), true);
      Shorter(off, |bytes|);
      BlankKept(d, d2, c.buffer, len, BatchChunkLen(off + len, |bytes|));
      WriteLost(c, d2, e, bytes, off + len, next, start + n, x);
    }
  }

  lemma Shorter(off: nat, total: nat)
    requires off < total
    ensures BatchChunkLen(off + BatchChunkLen(off, total), total) <= BatchChunkLen(off, total)
  {
  }

  lemma ReadAlone(d: Data, buffer: nat, lba: nat, len: nat, j: nat)
    requires BlankList(d, buffer, len) && j < len && lba * BLOCK + j < |d.disk| && OnlyAt(d.disk, lba * BLOCK + j)
    ensures Alone(d, buffer, lba, len, false, j) && Unmoved(d, d, buffer, lba, false, j)
  {
  }

  lemma ReadBlank(d: Data, buffer: nat, len: nat, lba: nat, blocks: int, at: nat)
    requires BlankList(d, buffer, len) && OnlyAt(d.disk, at) && (lba + blocks) * BLOCK <= at
    ensures Blank(d, lba, blocks, false)
  {
  }

  lemma HeldByte(d: Data, buffer: nat, chunk: seq<Byte>, j: nat)
    requires Holds(d, buffer, chunk) && j < |chunk|
    ensures buffer + j < |d.mem| && chunk[j] == d.mem[buffer + j]
  {
  }

  /** The byte of a blank disk that is to become byte x of the data does not arrive. */
  lemma {:induction false} ReadLost(c: Call, d: Data, e: Data, out: seq<Byte>, total: nat, off: nat, lba: nat,
                                    start: nat, x: nat)
    requires c.qlen > 0 && off <= total && ReadCall(c, d, e, out, total, off, lba, start)
    requires DividesFrom(off, total, c.batchLen) && LostAt(c, total, off, x)
    requires BlankList(d, c.buffer, BatchChunkLen(off, total)) && off <= x && OnlyAt(d.disk, lba * BLOCK + (x - off))
    requires lba + (total - off) / BLOCK <= U64 && lba * BLOCK + (total - off) <= |d.disk| && x < total
    ensures x - off < |out| && out[x - off] == 0
    decreases total - off
  {
    hide ReadCall, BatchRun, BatchAdvance, BatchLen, BatchChunkLen, OnlyBlocks, Lost, LostAt, DividesFrom, Apart,
         InitFill, BlankList, Alone, Blank, BlocksFrom, Holds, OnlyAt;
    LostNext(c, total, off, x);
    var d2 := ReadNextCall(c, d, e, out, total, off, lba, start);
    var len := BatchChunkLen(off, total);
    var n := BatchLen(c.batchLen, len);
    ChunkFacts(c, total, off, lba);
    var next := lba + BatchAdvance(n, len);
    if x < off + len {
      ReadAlone(d, c.buffer, lba, len, x - off);
      RunUnmoved(c, d, d2, start, lba, n, len, false, x - off);
      HeldByte(d2, c.buffer, out[..len], x - off);
    } else {
      RunTouches(c, d, d2, start, lba, n, len, false);
      TouchedShape(d, d2, lba, BatchAdvance(n, len), false);
      ReadBlank(d, c.buffer, len, lba, BatchAdvance(n, len), lba * BLOCK + (x - off));
      RunBlank(c, d, d2, start, lba, n, len, false);
      BlankIs(d2, lba, BatchAdvance(n, len), false);
      Shorter(off, total);
      BlankKept(d, d2, c.buffer, len, BatchChunkLen(off + len, total));
      ReadLost(c, d2, e, out[len..], total, off + len, next, start + n, x);
    }
  }

  /** A byte of the disk behind the blocks the batches advance by does not arrive anywhere. */
  lemma {:induction false} ReadShort(c: Call, d: Data, e: Data, out: seq<Byte>, total: nat, off: nat, lba: nat,
                                     start: nat, at: nat)
    requires c.qlen > 0 && off <= total && ReadCall(c, d, e, out, total, off, lba, start)
    requires BlankList(d, c.buffer, BatchChunkLen(off, total)) && OnlyAt(d.disk, at)
    requires lba + (total - off) / BLOCK <= U64 && (lba + BlocksFrom(off, total, c.batchLen)) * BLOCK <= at
    ensures |out| == total - off && Zeros(out)
    decreases total - off
  {
    hide ReadCall, BatchRun, BatchAdvance, BatchLen, BatchChunkLen, OnlyBlocks, Apart, InitFill, BlankList, Alone,
         Blank, BlocksFrom, Holds, OnlyAt;
    if off == total {
      ReadEnd(c, d, e, out, total, lba, start);
    } else {
      var d2 := ReadNextCall(c, d, e, out, total, off, lba, start);
      var len := BatchChunkLen(off, total);
      var n := BatchLen(c.batchLen, len);
      ChunkFacts(c, total, off, lba);
      RunTouches(c, d, d2, start, lba, n, len, false);
      TouchedShape(d, d2, lba, BatchAdvance(n, len), false);
      ReadBlank(d, c.buffer, len, lba, BatchAdvance(n, len), at);
      RunBlank(c, d, d2, start, lba, n, len, false);
      BlankIs(d2, lba, BatchAdvance(n, len), false);
      Shorter(off, total);
      BlankKept(d, d2, c.buffer, len, BatchChunkLen(off + len, total));
      ReadShort(c, d2, e, out[len..], total, off + len, lba + BatchAdvance(n, len), start + n, at);
      ZerosHeld(d2, c.buffer, out[..len]);
      assert out == out[..len] + out[len..];
    }
  }

  lemma ZerosHeld(d: Data, buffer: nat, chunk: seq<Byte>)
    requires Zeros(d.mem) && Holds(d, buffer, chunk)
    ensures Zeros(chunk)
  {
  }

  // ---------------------------------------------------------------- exactly when a call is right

  /** For all data and all orders, the call ends, and the disk holds what was to be written. */
  ghost predicate WriteRight(c: Call, listPhys: nat, lba: nat, total: nat, start: nat)
    requires c.qlen > 0
  {
    forall d: Data, bytes: seq<Byte> | d.listPhys == listPhys && |bytes| == total && CallReady(c, d, lba, total) ::
      && (exists e: Data :: WriteCall(c, d, e, bytes, 0, lba, start))
      && forall e: Data | WriteCall(c, d, e, bytes, 0, lba, start) :: WriteOutcome(d, e, lba, bytes)
  }

  ghost predicate ReadRight(c: Call, listPhys: nat, lba: nat, total: nat, start: nat)
    requires c.qlen > 0
  {
    forall d: Data | d.listPhys == listPhys && CallReady(c, d, lba, total) ::
      && (exists e: Data, out: seq<Byte> :: ReadCall(c, d, e, out, total, 0, lba, start))
      && forall e: Data, out: seq<Byte> | ReadCall(c, d, e, out, total, 0, lba, start) ::
           |out| == total && ReadOutcome(d, e, lba, out)
  }

  lemma ReadyPlaced(c: Call, d: Data, lba: nat, total: nat)
    requires CallReady(c, d, lba, total) && TilesFrom(0, total, c.batchLen, true)
    ensures CallPlaced(d, c.buffer, BatchChunkLen(0, total), lba, total, c.batchLen)
    ensures DividesFrom(0, total, c.batchLen) && PlacedFrom(0, total, c.batchLen, true)
  {
    hide TilesFrom, PlacedFrom, Apart, InitFill, BatchChunkLen;
    TilesFromIff(0, total, c.batchLen, true);
    BlocksFromIff(0, total, c.batchLen);
  }

  lemma TiledWrite(c: Call, d: Data, e: Data, bytes: seq<Byte>, lba: nat, start: nat)
    requires CallReady(c, d, lba, |bytes|) && TilesFrom(0, |bytes|, c.batchLen, true)
    requires WriteCall(c, d, e, bytes, 0, lba, start)
    ensures WriteOutcome(d, e, lba, bytes)
  {
    hide TilesFrom, CallReady, CallPlaced, WriteCall, DividesFrom, BlocksFrom, KeptFrom, Writing, Splice;
    ReadyPlaced(c, d, lba, |bytes|);
    ReadyRoom(c, d, lba, |bytes|);
    var size := BatchChunkLen(0, |bytes|);
    WritingStart(d, c.buffer, size, lba, bytes, c.batchLen);
    PlacedWrite(c, d, size, lba, d, e, bytes, 0, lba, start);
    KeptIff(bytes, c.batchLen, 0);
    assert bytes[0..] == bytes;
  }

  lemma TiledRead(c: Call, d: Data, e: Data, out: seq<Byte>, total: nat, lba: nat, start: nat)
    requires CallReady(c, d, lba, total) && TilesFrom(0, total, c.batchLen, true)
    requires ReadCall(c, d, e, out, total, 0, lba, start)
    ensures |out| == total && ReadOutcome(d, e, lba, out)
  {
    hide TilesFrom, CallReady, CallPlaced, ReadCall, DividesFrom, BlocksFrom, ReadFrom, Reading, BlockBytes;
    ReadyPlaced(c, d, lba, total);
    ReadyRoom(c, d, lba, total);
    var size := BatchChunkLen(0, total);
    ReadingStart(d, c.buffer, size, lba, total, c.batchLen);
    PlacedRead(c, d, size, lba, [], d, e, out, total, lba, start);
    ReadWhole(d.disk, lba, total, c.batchLen, 0, Buffered(d, c.buffer, size));
    assert [] + out == out;
  }

  /** A blank disk and memory, with the list as init filled it; the disk has a one at `at`. */
  function BlankProbe(listPhys: nat, c: Call, disk: nat, len: nat, at: nat): Data {
    Data(OneAt(disk, at), OneAt(c.buffer + len, c.buffer + len), listPhys, seq(512, i => c.buffer + (i + 1) * PAGE))
  }

  lemma ProbeBlank(listPhys: nat, c: Call, lba: nat, total: nat, at: nat)
    requires c.qlen > 0 && lba + total / BLOCK <= U64 && c.buffer % PAGE == 0
    requires Clear(listPhys, c.buffer, BatchChunkLen(0, total))
    ensures var d := BlankProbe(listPhys, c, lba * BLOCK + total, BatchChunkLen(0, total), at);
      && d.listPhys == listPhys && CallReady(c, d, lba, total) && BlankList(d, c.buffer, BatchChunkLen(0, total))
      && OnlyAt(d.disk, at) && (at >= |d.disk| ==> Zeros(d.disk)) && (at < |d.disk| ==> d.disk[at] == 1)
  {
  }

  /** A call with a batch that does not tile its chunk has a byte of data that it does not write,
      whatever the orders. */
  lemma UntiledWrite(c: Call, listPhys: nat, lba: nat, total: nat, start: nat) returns (d: Data, bytes: seq<Byte>)
    requires c.qlen > 0 && lba + total / BLOCK <= U64 && c.buffer % PAGE == 0
    requires Clear(listPhys, c.buffer, BatchChunkLen(0, total)) && !TilesFrom(0, total, c.batchLen, true)
    ensures d.listPhys == listPhys && CallReady(c, d, lba, total) && |bytes| == total
    ensures forall e: Data | WriteCall(c, d, e, bytes, 0, lba, start) :: !WriteOutcome(d, e, lba, bytes)
  {
    hide TilesFrom, DividesFrom, CallReady, WriteCall, BlankProbe, BlankList, LostAt, BlocksFrom, Kept, WriteOutcome,
         OnlyAt, BatchChunkLen;
    var disk := lba * BLOCK + total;
    d := BlankProbe(listPhys, c, disk, BatchChunkLen(0, total), disk);
    ProbeBlank(listPhys, c, lba, total, disk);
    assert |d.disk| == disk by { ProbeSize(listPhys, c, disk, BatchChunkLen(0, total), disk); }
    if DividesFrom(0, total, c.batchLen) {
      var x := FindLost(c, total, 0);
      bytes := OneAt(total, x);
      OneOnly(total, x);
      forall e: Data | WriteCall(c, d, e, bytes, 0, lba, start)
        ensures !WriteOutcome(d, e, lba, bytes)
      {
        WriteLost(c, d, e, bytes, 0, lba, start, x);
        WrongByte(d, e, lba, bytes, x);
      }
    } else {
      BlocksFromIff(0, total, c.batchLen);
      NoneLeft(total, c.batchLen);
      bytes := OneAt(total, total - 1);
      OneOnly(total, total - 1);
      forall e: Data | WriteCall(c, d, e, bytes, 0, lba, start)
        ensures !WriteOutcome(d, e, lba, bytes)
      {
        WriteTouches(c, d, e, bytes, 0, lba, start);
        KeptByte(d, e, lba, BlocksFrom(0, total, c.batchLen), lba * BLOCK + (total - 1));
        WrongByte(d, e, lba, bytes, total - 1);
      }
    }
  }

  lemma ProbeSize(listPhys: nat, c: Call, disk: nat, len: nat, at: nat)
    ensures |BlankProbe(listPhys, c, disk, len, at).disk| == disk
  {
  }

  lemma OneOnly(size: nat, x: nat)
    requires x < size
    ensures OnlyAt(OneAt(size, x), x) && OneAt(size, x)[x] == 1
  {
  }

  lemma NoneLeft(total: nat, batchLen: nat)
    requires !DividesFrom(0, total, batchLen)
    ensures total > 0
  {
  }

  lemma WrongByte(d: Data, e: Data, lba: nat, bytes: seq<Byte>, x: nat)
    requires x < |bytes| && bytes[x] == 1 && lba * BLOCK + x < |e.disk| && e.disk[lba * BLOCK + x] == 0
    ensures !WriteOutcome(d, e, lba, bytes)
  {
  }

  lemma KeptByte(d: Data, e: Data, lba: nat, blocks: int, k: nat)
    requires Kept(d.disk, e.disk, lba, blocks, true) && Zeros(d.disk) && (lba + blocks) * BLOCK <= k < |d.disk|
    ensures k < |e.disk| && e.disk[k] == 0
  {
  }

  lemma UntiledRead(c: Call, listPhys: nat, lba: nat, total: nat, start: nat) returns (d: Data)
    requires c.qlen > 0 && lba + total / BLOCK <= U64 && c.buffer % PAGE == 0
    requires Clear(listPhys, c.buffer, BatchChunkLen(0, total)) && !TilesFrom(0, total, c.batchLen, true)
    ensures d.listPhys == listPhys && CallReady(c, d, lba, total)
    ensures forall e: Data, out: seq<Byte> | ReadCall(c, d, e, out, total, 0, lba, start) ::
              |out| != total || !ReadOutcome(d, e, lba, out)
  {
    hide TilesFrom, DividesFrom, CallReady, ReadCall, BlankProbe, BlankList, LostAt, BlocksFrom, ReadOutcome, OnlyAt,
         BatchChunkLen;
    var disk := lba * BLOCK + total;
    if DividesFrom(0, total, c.batchLen) {
      var x := FindLost(c, total, 0);
      var at := lba * BLOCK + x;
      d := BlankProbe(listPhys, c, disk, BatchChunkLen(0, total), at);
      ProbeBlank(listPhys, c, lba, total, at);
      ProbeSize(listPhys, c, disk, BatchChunkLen(0, total), at);
      forall e: Data, out: seq<Byte> | ReadCall(c, d, e, out, total, 0, lba, start)
        ensures |out| != total || !ReadOutcome(d, e, lba, out)
      {
        ReadLost(c, d, e, out, total, 0, lba, start, x);
        WrongRead(d, e, lba, out, x);
      }
    } else {
      BlocksFromIff(0, total, c.batchLen);
      NoneLeft(total, c.batchLen);
      var at := lba * BLOCK + (total - 1);
      d := BlankProbe(listPhys, c, disk, BatchChunkLen(0, total), at);
      ProbeBlank(listPhys, c, lba, total, at);
      ProbeSize(listPhys, c, disk, BatchChunkLen(0, total), at);
      forall e: Data, out: seq<Byte> | ReadCall(c, d, e, out, total, 0, lba, start)
        ensures |out| != total || !ReadOutcome(d, e, lba, out)
      {
        ReadShort(c, d, e, out, total, 0, lba, start, at);
        WrongRead(d, e, lba, out, total - 1);
      }
    }
  }

  lemma WrongRead(d: Data, e: Data, lba: nat, out: seq<Byte>, x: nat)
    requires x < |out| && out[x] == 0 && lba * BLOCK + x < |d.disk| && d.disk[lba * BLOCK + x] == 1
    ensures !ReadOutcome(d, e, lba, out)
  {
    if lba * BLOCK + |out| <= |d.disk| {
      assert BlockBytes(d.disk, lba, |out|)[x] == 1;
    }
  }

  /** A call of batched_write is right for all data and all orders of execution exactly if every batch
      tiles its chunk. */
  lemma WriteRightIff(c: Call, listPhys: nat, lba: nat, total: nat, start: nat)
    requires c.qlen > 0 && lba + total / BLOCK <= U64 && c.buffer % PAGE == 0
    requires Clear(listPhys, c.buffer, BatchChunkLen(0, total))
    ensures WriteRight(c, listPhys, lba, total, start) <==> TilesFrom(0, total, c.batchLen, true)
  {
    hide TilesFrom, DividesFrom, CallReady, WriteCall, WriteOutcome;
    if TilesFrom(0, total, c.batchLen, true) {
      forall d: Data, bytes: seq<Byte> | d.listPhys == listPhys && |bytes| == total && CallReady(c, d, lba, total)
        ensures exists e: Data :: WriteCall(c, d, e, bytes, 0, lba, start)
        ensures forall e: Data | WriteCall(c, d, e, bytes, 0, lba, start) :: WriteOutcome(d, e, lba, bytes)
      {
        ReadyPlaced(c, d, lba, total);
        ReadyRoom(c, d, lba, total);
        PlacedCommands(0, total, c.batchLen, true);
        var e := WriteEnds(c, d, bytes, 0, lba, start);
        forall e: Data | WriteCall(c, d, e, bytes, 0, lba, start)
          ensures WriteOutcome(d, e, lba, bytes)
        {
          TiledWrite(c, d, e, bytes, lba, start);
        }
      }
    } else {
      var d, bytes := UntiledWrite(c, listPhys, lba, total, start);
    }
  }

  lemma ReadyRoom(c: Call, d: Data, lba: nat, total: nat)
    requires CallReady(c, d, lba, total)
    ensures c.qlen > 0 && c.buffer + BatchChunkLen(0, total) <= |d.mem|
  {
  }

  /** Likewise for batched_read. */
  lemma ReadRightIff(c: Call, listPhys: nat, lba: nat, total: nat, start: nat)
    requires c.qlen > 0 && lba + total / BLOCK <= U64 && c.buffer % PAGE == 0
    requires Clear(listPhys, c.buffer, BatchChunkLen(0, total))
    ensures ReadRight(c, listPhys, lba, total, start) <==> TilesFrom(0, total, c.batchLen, true)
  {
    hide TilesFrom, DividesFrom, CallReady, ReadCall, ReadOutcome;
    if TilesFrom(0, total, c.batchLen, true) {
      forall d: Data | d.listPhys == listPhys && CallReady(c, d, lba, total)
        ensures exists e: Data, out: seq<Byte> :: ReadCall(c, d, e, out, total, 0, lba, start)
        ensures forall e: Data, out: seq<Byte> | ReadCall(c, d, e, out, total, 0, lba, start) ::
                  |out| == total && ReadOutcome(d, e, lba, out)
      {
        ReadyPlaced(c, d, lba, total);
        ReadyRoom(c, d, lba, total);
        PlacedCommands(0, total, c.batchLen, true);
        var e, out := ReadEnds(c, d, total, 0, lba, start);
        forall e: Data, out: seq<Byte> | ReadCall(c, d, e, out, total, 0, lba, start)
          ensures |out| == total && ReadOutcome(d, e, lba, out)
        {
          TiledRead(c, d, e, out, total, lba, start);
        }
      }
    } else {
      var d := UntiledRead(c, listPhys, lba, total, start);
    }
  }
}
