/** What a batch does when it does not tile its chunk, and so the exact condition under which
    batched_write and batched_read move what they were given. */
module BatchLimits {
  import opened Arithmetic
  import opened Ring
  import opened Commands
  import opened Transfers
  import opened Prps
  import opened Layout
  import opened Batches

  /** What the caller of a batch provides: the blocks exist, the buffer is aligned and large enough,
      and for commands of more than two pages the list is still as init filled it. */
  ghost predicate BatchReady(d: Data, buffer: nat, lba: nat, n: nat, len: nat, write: bool)
    requires n > 0
  {
    && lba + len / BLOCK <= U64 && Fits(d, Io(write, lba * BLOCK, buffer, len))
    && buffer % PAGE == 0 && Apart(d, buffer, len)
    && (BatchSize(n, len) > 2 * PAGE ==> InitFill(d, buffer))
  }

  // ---------------------------------------------------------------- the remainder

  lemma Scaled(n: nat, q: nat, b: nat, s: nat)
    requires q == BLOCK * b + s
    ensures n * q == BLOCK * (n * b) + n * s
  {
  }

  lemma LessThanABlock(n: nat, s: nat)
    requires s < BLOCK
    ensures n * s <= (BLOCK - 1) * n
  {
    var t: nat := BLOCK - 1 - s;
    assert n * (s + t) == n * s + n * t;
  }

  /** How much of the chunk the blocks of the batch leave over. */
  lemma Remainder(n: nat, len: nat) returns (rest: nat)
    requires n > 0
    ensures len == BLOCK * (n * BatchBlocks(n, len)) + rest && rest < BLOCK * n
  {
    var q, r := len / n, len % n;
    Quotient(len, n);
    var b, s := q / BLOCK, q % BLOCK;
    Quotient(q, BLOCK);
    Scaled(n, q, b, s);
    LessThanABlock(n, s);
    rest := n * s + r;
  }

  /** The blocks of the batch are the whole multiples of one block per command, and they are the
      whole chunk exactly if its length is such a multiple. */
  lemma DividesIff(n: nat, len: nat)
    requires n > 0
    ensures BatchBlocks(n, len) == len / (n * BLOCK)
    ensures n * BatchBlocks(n, len) * BLOCK <= len < n * BatchBlocks(n, len) * BLOCK + n * BLOCK
    ensures n * BatchBlocks(n, len) * BLOCK == len <==> len % (n * BLOCK) == 0
  {
    hide BatchBlocks;
    var rest := Remainder(n, len);
    var b := BatchBlocks(n, len);
    Regroup(n, b);
    DivModUnique(len, n * BLOCK, b, rest);
  }

  /** Tiling, as a caller can check it before the call. */
  lemma TilesIff(n: nat, len: nat)
    requires n > 0
    ensures Tiles(n, len) <==>
            len % (n * BLOCK) == 0 && forall i :: 0 <= i < n ==> Placed(i * BatchSize(n, len), BatchSize(n, len))
  {
    hide BatchBlocks, BatchSize, Placed;
    DividesIff(n, len);
    Regroup(n, BatchBlocks(n, len));
  }

  // ---------------------------------------------------------------- what no batch touches

  /** Command m, as the controller decodes it. */
  ghost predicate Decoded(c: Command, listPhys: nat, buffer: nat, lba: nat, step: nat, blocks: nat, m: nat,
                          write: bool) {
    var addr := buffer + m * step;
    && Lba(c) == lba + m * blocks && Blocks(c) == blocks && c.opcode == (if write then OP_WRITE else OP_READ)
    && c.ptr0 == addr && buffer <= addr && c.ptr1 == BatchPtr(listPhys, buffer, addr, blocks * BLOCK)
  }

  lemma BatchDecode(listPhys: nat, buffer: nat, start: nat, qlen: nat, nsid: nat, lba: nat, n: nat, len: nat,
                    write: bool, m: nat)
    requires qlen > 0 && 0 < n && n * BLOCK <= len <= BATCH_CHUNK && lba + len / BLOCK <= U64 && m < n
    ensures Decoded(BatchCommands(listPhys, buffer, start, qlen, nsid, lba, n, len, write)[m],
                    listPhys, buffer, lba, BatchSize(n, len), BatchBlocks(n, len), m, write)
  {
    hide BatchPtr, IoCommand, Slot, BatchSize, BatchBlocks;
    SizeBounds(n, len);
    BlocksInChunk(n, len, m);
    var blocks := BatchBlocks(n, len);
    var addr := buffer + m * BatchSize(n, len);
    IoRoundTrip(write, Slot(start + m, qlen) % U16, nsid, lba + m * blocks, blocks, addr,
                BatchPtr(listPhys, buffer, addr, blocks * BLOCK));
  }

  /** Command i of a batch in full: the i-th stretch of the buffer, the i-th run of blocks, the
      namespace, the slot as the identifier, and a second PRP only if it needs one. */
  lemma BatchFields(listPhys: nat, buffer: nat, start: nat, qlen: nat, nsid: nat, lba: nat, n: nat, len: nat,
                    write: bool, i: nat)
    requires 0 < qlen <= U16 && 0 < n && n * BLOCK <= len <= BATCH_CHUNK && lba + len / BLOCK <= U64 && i < n
    ensures var c := BatchCommands(listPhys, buffer, start, qlen, nsid, lba, n, len, write)[i];
      && c.ptr0 == buffer + i * (len / n) && Lba(c) == lba + i * (len / n / 512) && Blocks(c) == len / n / 512
      && (c.opcode == OP_WRITE <==> write) && (c.opcode == OP_READ <==> !write)
      && c.nsid == nsid && c.cid == (start + i) % qlen && (len / n < 4608 ==> c.ptr1 == 0)
  {
    hide BatchCommands, IoCommand, Slot, BatchSize, BatchBlocks, Lba, Blocks, BatchPtr, BatchCommand;
    SizeBounds(n, len);
    BlocksInChunk(n, len, i);
    SlotIsRemainder(start + i, qlen);
    SizeIs(n, len);
    var blocks, size := BatchBlocks(n, len), BatchSize(n, len);
    SameProduct(i, size, len / n);
    SameProduct(i, blocks, len / n / 512);
    BatchAt(listPhys, buffer, start, qlen, nsid, lba, n, len, write, i);
    OneBatchCommand(listPhys, buffer, Slot(start + i, qlen), nsid, lba + i * blocks, i * size, blocks, write);
  }

  lemma BatchAt(listPhys: nat, buffer: nat, start: nat, qlen: nat, nsid: nat, lba: nat, n: nat, len: nat, write: bool,
                i: nat)
    requires qlen > 0 && i < n
    ensures BatchCommands(listPhys, buffer, start, qlen, nsid, lba, n, len, write)[i]
            == BatchCommand(listPhys, buffer, Slot(start + i, qlen), nsid, lba + i * BatchBlocks(n, len),
                            i * BatchSize(n, len), BatchBlocks(n, len), write)
  {
    hide BatchCommand, Slot, BatchSize, BatchBlocks;
  }

  lemma OneBatchCommand(listPhys: nat, buffer: nat, tail: nat, nsid: nat, lba: nat, offset: nat, blocks: nat,
                        write: bool)
    requires lba < U64 && 1 <= blocks <= U16 && tail < U16
    ensures var c := BatchCommand(listPhys, buffer, tail, nsid, lba, offset, blocks, write);
      && c.ptr0 == buffer + offset && Lba(c) == lba && Blocks(c) == blocks && c.nsid == nsid && c.cid == tail
      && (c.opcode == OP_WRITE <==> write) && (c.opcode == OP_READ <==> !write)
      && (blocks * BLOCK <= 4096 ==> c.ptr1 == 0)
  {
    hide IoCommand, Lba, Blocks;
    var addr := buffer + offset;
    IoRoundTrip(write, tail % U16, nsid, lba, blocks, addr, BatchPtr(listPhys, buffer, addr, blocks * BLOCK));
  }

  lemma SameProduct(i: nat, a: nat, b: nat)
    requires a == b
    ensures i * a == i * b >= 0
  {
  }

  lemma SizeIs(n: nat, len: nat)
    requires n > 0
    ensures BatchSize(n, len) == len / n && BatchBlocks(n, len) == len / n / 512
    ensures len / n < 4608 ==> BatchBlocks(n, len) * BLOCK <= 4096
  {
  }

  /** The commands of a batch carry different identifiers; the ring was drained before, so they are all
      that is under way. */
  lemma BatchIdsDistinct(listPhys: nat, buffer: nat, start: nat, qlen: nat, nsid: nat, lba: nat, n: nat, len: nat,
                         write: bool, i: nat, j: nat)
    requires 0 < qlen <= U16 && 0 < n <= qlen && n * BLOCK <= len <= BATCH_CHUNK && lba + len / BLOCK <= U64
    requires i < j < n
    ensures var cmds := BatchCommands(listPhys, buffer, start, qlen, nsid, lba, n, len, write);
      cmds[i].cid != cmds[j].cid
  {
    hide BatchCommands, Slot;
    BatchFields(listPhys, buffer, start, qlen, nsid, lba, n, len, write, i);
    BatchFields(listPhys, buffer, start, qlen, nsid, lba, n, len, write, j);
    SlotIsRemainder(start + i, qlen);
    SlotIsRemainder(start + j, qlen);
    SlotInjective(start + i, start + j, qlen);
  }

  lemma BlocksInChunk(n: nat, len: nat, m: nat)
    requires n > 0 && m < n && n * BLOCK <= len
    ensures var blocks := BatchBlocks(n, len);
      m * blocks + blocks <= n * blocks <= len / BLOCK
  {
    hide BatchBlocks;
    var blocks := BatchBlocks(n, len);
    DividesIff(n, len);
    Multiple(m, n, blocks);
  }

  /** Outside the blocks the commands name nothing changes. */
  ghost predicate OnlyBlocks(d: Data, e: Data, lba: nat, blocks: int, write: bool) {
    && |e.disk| == |d.disk| && |e.mem| == |d.mem| && e.list == d.list && e.listPhys == d.listPhys
    && (write ==> e.mem == d.mem) && (!write ==> e.disk == d.disk)
    && forall k :: 0 <= k < |d.disk| && !(lba * BLOCK <= k < (lba + blocks) * BLOCK) ==> e.disk[k] == d.disk[k]
  }

  lemma OnlyBlocksStep(d: Data, e: Data, c: Command, lba: nat, blocks: int, write: bool)
    requires OnlyBlocks(d, e, lba, blocks, write) && c.opcode == (if write then OP_WRITE else OP_READ)
    requires lba <= Lba(c) && Lba(c) + Blocks(c) <= lba + blocks
    ensures OnlyBlocks(d, Exec(e, c).data, lba, blocks, write)
  {
    hide Exec, Lba, Blocks;
    ExecFrame(e, c);
  }

  /** No execution of commands of a batch, in any order and however often, changes a byte of the
      disk outside the first n * BatchBlocks blocks from lba: a remainder of the chunk stays unwritten. */
  lemma {:induction false} BatchTouches(d: Data, listPhys: nat, buffer: nat, start: nat, qlen: nat, nsid: nat, lba: nat,
                                        n: nat, len: nat, write: bool, order: seq<nat>)
    requires qlen > 0 && 0 < n && n * BLOCK <= len <= BATCH_CHUNK && lba + len / BLOCK <= U64
    requires forall k :: 0 <= k < |order| ==> order[k] < n
    ensures OnlyBlocks(d, ExecAll(d, Pick(BatchCommands(listPhys, buffer, start, qlen, nsid, lba, n, len, write),
                                          order)),
                       lba, BatchAdvance(n, len), write)
  {
    hide BatchCommands, BatchAdvance, BatchPtr, Exec, OnlyBlocks;
    if order == [] {
      OnlyBlocksSelf(d, lba, BatchAdvance(n, len), write);
    } else {
      var last := |order| - 1;
      BatchTouches(d, listPhys, buffer, start, qlen, nsid, lba, n, len, write, order[..last]);
      var cmds := BatchCommands(listPhys, buffer, start, qlen, nsid, lba, n, len, write);
      assert Pick(cmds, order)[..last] == Pick(cmds, order[..last]);
      CommandBlocks(listPhys, buffer, start, qlen, nsid, lba, n, len, write, order[last]);
      OnlyBlocksStep(d, ExecAll(d, Pick(cmds, order[..last])), cmds[order[last]], lba, BatchAdvance(n, len), write);
    }
  }

  lemma OnlyBlocksSelf(d: Data, lba: nat, blocks: int, write: bool)
    ensures OnlyBlocks(d, d, lba, blocks, write)
  {
  }

  /** The blocks of command m are among those of the batch. */
  lemma CommandBlocks(listPhys: nat, buffer: nat, start: nat, qlen: nat, nsid: nat, lba: nat, n: nat, len: nat,
                      write: bool, m: nat)
    requires qlen > 0 && 0 < n && n * BLOCK <= len <= BATCH_CHUNK && lba + len / BLOCK <= U64 && m < n
    ensures var c := BatchCommands(listPhys, buffer, start, qlen, nsid, lba, n, len, write)[m];
      && c.opcode == (if write then OP_WRITE else OP_READ)
      && lba <= Lba(c) && Lba(c) + Blocks(c) <= lba + BatchAdvance(n, len)
  {
    hide BatchCommands, BatchBlocks, BatchSize, BatchPtr;
    BatchDecode(listPhys, buffer, start, qlen, nsid, lba, n, len, write, m);
    BlocksInChunk(n, len, m);
  }

  // ---------------------------------------------------------------- when a batch is correct

  /** A badly placed command is refused, or looks elsewhere for its second page. */
  lemma MisplacedMisses(d: Data, buffer: nat, size: nat, offset: nat, bytes: nat)
    requires buffer % PAGE == 0 && 0 < bytes && offset + bytes <= size <= 512 * PAGE && Apart(d, buffer, size)
    requires InitFill(d, buffer) && offset % DWORD == 0 && !Placed(offset, bytes)
    ensures var addr := buffer + offset;
      Misses(d, addr, BatchPtr(d.listPhys, buffer, addr, bytes), bytes, FirstPart(addr))
  {
    hide ListSegments;
    var addr := buffer + offset;
    SamePlace(buffer, offset);
    if bytes <= 2 * PAGE {
      ShortMisses(d, buffer, size, addr, bytes);
    } else {
      var ptr := BatchPtr(d.listPhys, buffer, addr, bytes);
      var more := ListSegments(d, ptr, bytes - FirstPart(addr));
      if more.Segments? {
        FirstEntry(d, ptr, bytes - FirstPart(addr));
        var k := offset / 8 / 8;
        WrongEntry(buffer, addr, k);
        assert d.list[(k + 1) - 1] == buffer + (k + 1) * PAGE;
        assert Expand(d, addr, ptr, bytes).segs == [Segment(addr, FirstPart(addr))] + more.segs;
      }
    }
  }

  lemma ShortMisses(d: Data, buffer: nat, size: nat, addr: nat, bytes: nat)
    requires buffer <= addr && addr + bytes <= buffer + size && Apart(d, buffer, size)
    requires addr % DWORD == 0 && addr % PAGE != 0 && PAGE < addr % PAGE + bytes && bytes <= 2 * PAGE
    ensures Misses(d, addr, NextPage(addr, bytes), bytes, FirstPart(addr))
  {
    var first := FirstPart(addr);
    if bytes - first > PAGE {
      assert ListEntry(d, addr + PAGE).Fault?;
    }
  }

  function OneAt(size: nat, k: nat): seq<Byte> {
    seq(size, i => if i == k then 1 else 0)
  }

  /** A disk and a memory of zeros but for byte j of what is to be moved. */
  function Probe(listPhys: nat, buffer: nat, lba: nat, len: nat, write: bool, j: nat): Data {
    var at := lba * BLOCK;
    Data(OneAt(at + len, if write then at + len else at + j),
         OneAt(buffer + len, if write then buffer + j else buffer + len),
         listPhys, seq(512, i => buffer + (i + 1) * PAGE))
  }

  lemma ProbeReady(listPhys: nat, buffer: nat, lba: nat, n: nat, len: nat, write: bool, j: nat)
    requires n > 0 && j < len && lba + len / BLOCK <= U64 && buffer % PAGE == 0 && Clear(listPhys, buffer, len)
    ensures var d := Probe(listPhys, buffer, lba, len, write, j);
      BatchReady(d, buffer, lba, n, len, write) && InitFill(d, buffer) && d.listPhys == listPhys
  {
  }

  /** The list page is apart from the buffer. */
  predicate Clear(listPhys: nat, buffer: nat, len: nat) {
    listPhys % PAGE == 0 && (listPhys + PAGE <= buffer || buffer + len <= listPhys)
  }

  /** Byte j is not among those of command m, or is the one command m looks for elsewhere. */
  predicate LostBy(buffer: nat, step: nat, blocks: nat, m: nat, j: nat) {
    || j < m * blocks * BLOCK || m * blocks * BLOCK + blocks * BLOCK <= j
    || (step == blocks * BLOCK && !Placed(m * step, step) && j == m * step + FirstPart(buffer + m * step))
  }

  /** Byte j of the chunk is moved by no command of the batch. */
  ghost predicate Lost(buffer: nat, n: nat, len: nat, j: nat)
    requires n > 0
  {
    j < len && forall m :: 0 <= m < n ==> LostBy(buffer, BatchSize(n, len), BatchBlocks(n, len), m, j)
  }

  /** e came from the probe d without byte j having been moved. */
  ghost predicate Unmoved(d: Data, e: Data, buffer: nat, lba: nat, write: bool, j: nat) {
    && e.list == d.list && e.listPhys == d.listPhys && |e.disk| == |d.disk| && |e.mem| == |d.mem|
    && lba * BLOCK + j < |d.disk| && buffer + j < |d.mem|
    && (if write then e.mem == d.mem && e.disk[lba * BLOCK + j] == 0
        else e.disk == d.disk && e.mem[buffer + j] == 0)
  }

  /** All of the source, memory or disk, is zeros but for byte j of what is to be moved, which the
      target does not have. */
  ghost predicate Alone(d: Data, buffer: nat, lba: nat, len: nat, write: bool, j: nat) {
    && j < len && buffer % PAGE == 0 && Apart(d, buffer, len) && InitFill(d, buffer)
    && (write ==> forall k :: 0 <= k < |d.mem| && k != buffer + j ==> d.mem[k] == 0)
    && (!write ==> forall k :: 0 <= k < |d.disk| && k != lba * BLOCK + j ==> d.disk[k] == 0)
  }

  lemma UnmovedStep(d: Data, e: Data, c: Command, buffer: nat, lba: nat, len: nat, step: nat, blocks: nat, m: nat,
                    write: bool, j: nat)
    requires Alone(d, buffer, lba, len, write, j) && len <= BATCH_CHUNK && blocks > 0 && m * step + step <= len
    requires Decoded(c, d.listPhys, buffer, lba, step, blocks, m, write) && Unmoved(d, e, buffer, lba, write, j)
    requires LostBy(buffer, step, blocks, m, j)
    ensures Unmoved(d, Exec(e, c).data, buffer, lba, write, j)
  {
    hide Exec, Placed, BatchPtr, FirstPart, Misses;
    ExecFrame(e, c);
    assert (lba + m * blocks) * BLOCK == lba * BLOCK + m * blocks * BLOCK;
    if j < m * blocks * BLOCK || m * blocks * BLOCK + blocks * BLOCK <= j {
      if !write {
        ReadZeros(e, c, buffer + j);
      }
    } else {
      assert m * step == m * blocks * BLOCK;
      DwordMultiple(m, blocks);
      MisplacedMisses(e, buffer, len, m * step, step);
      var first := FirstPart(buffer + m * step);
      if write {
        MissedWrite(e, c, first);
      } else {
        MissedRead(e, c, first);
      }
    }
  }

  /** A byte that each command leaves behind is left behind by all of them, in whatever order. */
  lemma {:induction false} Unmoving(d: Data, buffer: nat, start: nat, qlen: nat, nsid: nat, lba: nat, n: nat, len: nat,
                                    write: bool, j: nat, order: seq<nat>)
    requires Alone(d, buffer, lba, len, write, j) && Unmoved(d, d, buffer, lba, write, j)
    requires qlen > 0 && 0 < n && n * BLOCK <= len <= BATCH_CHUNK && lba + len / BLOCK <= U64
    requires Lost(buffer, n, len, j) && forall k :: 0 <= k < |order| ==> order[k] < n
    ensures var cmds := BatchCommands(d.listPhys, buffer, start, qlen, nsid, lba, n, len, write);
      Unmoved(d, ExecAll(d, Pick(cmds, order)), buffer, lba, write, j)
  {
    hide Exec, Decoded, LostBy, BatchSize, BatchBlocks, BatchCommands, Alone, Unmoved;
    if order != [] {
      var last := |order| - 1;
      var m := order[last];
      Unmoving(d, buffer, start, qlen, nsid, lba, n, len, write, j, order[..last]);
      var cmds := BatchCommands(d.listPhys, buffer, start, qlen, nsid, lba, n, len, write);
      assert Pick(cmds, order)[..last] == Pick(cmds, order[..last]);
      SizeBounds(n, len);
      StepsInChunk(n, len, m);
      BatchDecode(d.listPhys, buffer, start, qlen, nsid, lba, n, len, write, m);
      UnmovedStep(d, ExecAll(d, Pick(cmds, order[..last])), cmds[m], buffer, lba, len, BatchSize(n, len),
                  BatchBlocks(n, len), m, write, j);
    }
  }

  lemma StepsInChunk(n: nat, len: nat, m: nat)
    requires n > 0 && m < n
    ensures m * BatchSize(n, len) + BatchSize(n, len) <= len
  {
    Quotient(len, n);
    Multiple(m, n, len / n);
  }

  /** A byte of the chunk that no command of the batch moves, if it does not tile the chunk: the
      last one, or the first of the second page of a badly placed command. */
  lemma LostByte(buffer: nat, n: nat, len: nat) returns (j: nat)
    requires n > 0 && n * BLOCK <= len && buffer % PAGE == 0 && !Tiles(n, len)
    ensures Lost(buffer, n, len, j)
  {
    hide Placed, FirstPart;
    var step, blocks := BatchSize(n, len), BatchBlocks(n, len);
    hide BatchSize, BatchBlocks;
    DividesIff(n, len);
    SizeBounds(n, len);
    if n * blocks * BLOCK != len {
      j := len - 1;
      forall m | 0 <= m < n
        ensures LostBy(buffer, step, blocks, m, j)
      {
        Multiple(m, n, blocks);
      }
    } else {
      TilesIff(n, len);
      var i :| 0 <= i < n && !Placed(i * step, step);
      WholeStep(n, len);
      StepsInChunk(n, len, i);
      j := i * step + FirstPart(buffer + i * step);
      DwordMultiple(i, blocks);
      InsideStep(buffer, i * step, step);
      forall m | 0 <= m < n
        ensures LostBy(buffer, step, blocks, m, j)
      {
        OtherCommand(m, i, blocks, step);
      }
    }
  }

  lemma WholeStep(n: nat, len: nat)
    requires n > 0 && n * BatchBlocks(n, len) * BLOCK == len
    ensures BatchSize(n, len) == BatchBlocks(n, len) * BLOCK
  {
    hide BatchBlocks;
    var b := BatchBlocks(n, len);
    Regroup(n, b);
    DivModUnique(len, n, b * BLOCK, 0);
  }

  /** Commands of whole blocks, one behind the other, are dword-aligned. */
  lemma DwordMultiple(m: nat, blocks: nat)
    ensures m * (blocks * BLOCK) % DWORD == 0
  {
    BlockMultiple(m, blocks);
    assert m * blocks * BLOCK == DWORD * (128 * (m * blocks));
  }

  /** A badly placed command starts inside a page and reaches into the next. */
  lemma InsideStep(buffer: nat, offset: nat, step: nat)
    requires buffer % PAGE == 0 && offset % DWORD == 0 && !Placed(offset, step)
    ensures FirstPart(buffer + offset) < step
  {
    SamePlace(buffer, offset);
  }

  lemma OtherCommand(m: nat, i: nat, blocks: nat, step: nat)
    requires step == blocks * BLOCK
    ensures m * blocks * BLOCK == m * step && i * blocks * BLOCK == i * step
    ensures m < i ==> m * step + step <= i * step
    ensures i < m ==> i * step + step <= m * step
  {
    if m < i {
      Multiple(m, i, step);
    } else if i < m {
      Multiple(i, m, step);
    }
  }

  /** One batch moves its chunk, whatever is on the disk and in memory. */
  ghost predicate BatchCorrect(listPhys: nat, buffer: nat, start: nat, qlen: nat, nsid: nat, lba: nat, n: nat,
                               len: nat, write: bool)
    requires qlen > 0 && n > 0
  {
    forall d: Data | d.listPhys == listPhys && BatchReady(d, buffer, lba, n, len, write) ::
      ExecAll(d, BatchCommands(listPhys, buffer, start, qlen, nsid, lba, n, len, write))
      == Whole(d, Io(write, lba * BLOCK, buffer, len))
  }

  /** One batch is correct for all data exactly if its commands tile the chunk (see TilesIff): no
      remainder, and no command badly placed. */
  lemma BatchCorrectIff(listPhys: nat, buffer: nat, start: nat, qlen: nat, nsid: nat, lba: nat, n: nat, len: nat,
                        write: bool)
    requires qlen > 0 && 0 < n && n * BLOCK <= len <= BATCH_CHUNK && lba + len / BLOCK <= U64
    requires buffer % PAGE == 0 && Clear(listPhys, buffer, len)
    ensures BatchCorrect(listPhys, buffer, start, qlen, nsid, lba, n, len, write) <==> Tiles(n, len)
  {
    hide BatchCommands, Tiles, BatchSize, BatchBlocks, ExecAll, MovesAll, Apart, InitFill, Probe;
    var cmds := BatchCommands(listPhys, buffer, start, qlen, nsid, lba, n, len, write);
    var io := Io(write, lba * BLOCK, buffer, len);
    if Tiles(n, len) {
      var inOrder := seq(n, k => k);
      forall d: Data | d.listPhys == listPhys && BatchReady(d, buffer, lba, n, len, write)
        ensures ExecAll(d, cmds) == Whole(d, io)
      {
        BatchMoves(d, buffer, start, qlen, nsid, lba, n, len, write);
        forall i | 0 <= i < n
          ensures i in inOrder
        {
          assert inOrder[i] == i;
        }
        OrderIndependent(d, cmds, io, Multiples(n, BatchSize(n, len)), inOrder);
      }
    } else {
      var j := LostByte(buffer, n, len);
      var d := Probe(listPhys, buffer, lba, len, write, j);
      ProbeReady(listPhys, buffer, lba, n, len, write, j);
      ProbeAlone(listPhys, buffer, lba, len, write, j);
      var inOrder := seq(n, k => k);
      Unmoving(d, buffer, start, qlen, nsid, lba, n, len, write, j, inOrder);
      assert Pick(cmds, inOrder) == cmds;
      ProbeMoved(listPhys, buffer, lba, len, write, j, ExecAll(d, cmds));
    }
  }

  lemma ProbeAlone(listPhys: nat, buffer: nat, lba: nat, len: nat, write: bool, j: nat)
    requires j < len && buffer % PAGE == 0 && Clear(listPhys, buffer, len)
    ensures var d := Probe(listPhys, buffer, lba, len, write, j);
      Alone(d, buffer, lba, len, write, j) && Unmoved(d, d, buffer, lba, write, j)
  {
  }

  lemma ProbeMoved(listPhys: nat, buffer: nat, lba: nat, len: nat, write: bool, j: nat, e: Data)
    requires j < len && Unmoved(Probe(listPhys, buffer, lba, len, write, j), e, buffer, lba, write, j)
    ensures var d := Probe(listPhys, buffer, lba, len, write, j);
      var io := Io(write, lba * BLOCK, buffer, len);
      Fits(d, io) && e != Whole(d, io)
  {
    var d := Probe(listPhys, buffer, lba, len, write, j);
    if write {
      assert d.mem[buffer..buffer + len][j] == 1;
    } else {
      assert d.disk[lba * BLOCK..lba * BLOCK + len][j] == 1;
    }
  }

  // ---------------------------------------------------------------- a whole call

  /** How many blocks the batches from `off` on advance by. An empty batch ends the call. */
  function BlocksFrom(off: nat, total: nat, batchLen: nat): nat
    requires off <= total
    decreases total - off
  {
    if off == total then 0
    else
      var len := BatchChunkLen(off, total);
      var n := BatchLen(batchLen, len);
      if n == 0 then 0 else BatchAdvance(n, len) + BlocksFrom(off + len, total, batchLen)
  }

  /** Every batch from `off` on divides its chunk into whole blocks. */
  ghost predicate DividesFrom(off: nat, total: nat, batchLen: nat)
    requires off <= total
    decreases total - off
  {
    off == total ||
    var len := BatchChunkLen(off, total);
    var n := BatchLen(batchLen, len);
    n > 0 && len % (n * BLOCK) == 0 && DividesFrom(off + len, total, batchLen)
  }

  /** The batches never advance by more than the data, and by all of it exactly if each divides
      its chunk. */
  lemma {:induction false} BlocksFromIff(off: nat, total: nat, batchLen: nat)
    requires off <= total
    ensures BlocksFrom(off, total, batchLen) * BLOCK <= total - off
    ensures BlocksFrom(off, total, batchLen) * BLOCK == total - off <==> DividesFrom(off, total, batchLen)
    decreases total - off
  {
    hide BatchLen, BatchBlocks;
    if off < total {
      var len := BatchChunkLen(off, total);
      var n := BatchLen(batchLen, len);
      if n > 0 {
        DividesIff(n, len);
        BlocksFromIff(off + len, total, batchLen);
      }
    }
  }

  /** The disk is unchanged, or for a write unchanged outside `blocks` blocks from lba. */
  ghost predicate Kept(disk: seq<Byte>, disk': seq<Byte>, lba: nat, blocks: int, write: bool) {
    && |disk'| == |disk|
    && forall k :: 0 <= k < |disk| && !(write && lba * BLOCK <= k < (lba + blocks) * BLOCK) ==> disk'[k] == disk[k]
  }

  lemma KeptMore(a: seq<Byte>, b: seq<Byte>, c: seq<Byte>, lba: nat, lba': nat, more: nat, write: bool)
    requires lba <= lba' && Kept(a, b, lba, lba' - lba, write) && Kept(b, c, lba', more, write)
    ensures Kept(a, c, lba, lba' + more - lba, write)
  {
  }

  lemma KeptWider(a: seq<Byte>, b: seq<Byte>, lba: nat, blocks: int, blocks': int, write: bool)
    requires Kept(a, b, lba, blocks, write) && blocks <= blocks'
    ensures Kept(a, b, lba, blocks', write)
  {
  }

  lemma OnlyBlocksKept(d: Data, e: Data, lba: nat, blocks: int, write: bool)
    requires OnlyBlocks(d, e, lba, blocks, write)
    ensures Kept(d.disk, e.disk, lba, blocks, write)
  {
  }

  /** After `off` bytes of a call the next block is lba', counting what is still to come. */
  ghost predicate Advanced(lba: nat, total: nat, batchLen: nat, off: nat, lba': nat) {
    && off <= total && lba <= lba' && (lba' - lba) * BLOCK <= off
    && lba' + BlocksFrom(off, total, batchLen) == lba + BlocksFrom(0, total, batchLen)
  }

  lemma AdvancedStep(lba: nat, total: nat, batchLen: nat, off: nat, lba': nat)
    requires Advanced(lba, total, batchLen, off, lba') && off < total
    requires BatchLen(batchLen, BatchChunkLen(off, total)) > 0
    ensures var len := BatchChunkLen(off, total);
      var n := BatchLen(batchLen, len);
      && Advanced(lba, total, batchLen, off + len, lba' + BatchAdvance(n, len))
      && lba' + len / BLOCK <= lba + total / BLOCK
  {
    var len := BatchChunkLen(off, total);
    var n := BatchLen(batchLen, len);
    hide BatchLen, BatchBlocks;
    DividesIff(n, len);
  }

  /** ... and nothing else was touched, for addresses that do not overflow. */
  ghost predicate Within(disk: seq<Byte>, disk': seq<Byte>, lba: nat, total: nat, batchLen: nat, off: nat, lba': nat,
                         write: bool) {
    && Advanced(lba, total, batchLen, off, lba')
    && (lba + total / BLOCK <= U64 ==> Kept(disk, disk', lba, lba' - lba, write))
  }

  /** What a call may touch at all, whether it succeeds or not. */
  ghost predicate Spared(disk: seq<Byte>, disk': seq<Byte>, lba: nat, total: nat, batchLen: nat, write: bool) {
    lba + total / BLOCK <= U64 ==> Kept(disk, disk', lba, BlocksFrom(0, total, batchLen), write)
  }

  lemma WithinStart(disk: seq<Byte>, lba: nat, total: nat, batchLen: nat, write: bool)
    ensures Within(disk, disk, lba, total, batchLen, 0, lba, write)
  {
  }

  lemma WithinStep(d0: Data, d: Data, e: Data, lba: nat, total: nat, batchLen: nat, off: nat, lba': nat, write: bool)
    requires Within(d0.disk, d.disk, lba, total, batchLen, off, lba', write) && off < total
    requires BatchLen(batchLen, BatchChunkLen(off, total)) > 0
    requires var len := BatchChunkLen(off, total);
      var n := BatchLen(batchLen, len);
      lba' + len / BLOCK <= U64 ==> OnlyBlocks(d, e, lba', BatchAdvance(n, len), write)
    ensures var len := BatchChunkLen(off, total);
      var n := BatchLen(batchLen, len);
      Within(d0.disk, e.disk, lba, total, batchLen, off + len, lba' + BatchAdvance(n, len), write)
  {
    hide BatchLen, BatchBlocks, BatchChunkLen, Advanced, Kept, OnlyBlocks;
    AdvancedStep(lba, total, batchLen, off, lba');
    AdvancedOnward(lba, total, batchLen, off, lba');
    var len := BatchChunkLen(off, total);
    var n := BatchLen(batchLen, len);
    var more := BatchAdvance(n, len);
    if lba + total / BLOCK <= U64 {
      OnlyBlocksKept(d, e, lba', more, write);
      KeptMore(d0.disk, d.disk, e.disk, lba, lba', more, write);
    }
  }

  lemma AdvancedOnward(lba: nat, total: nat, batchLen: nat, off: nat, lba': nat)
    requires Advanced(lba, total, batchLen, off, lba')
    ensures off <= total && lba <= lba' <= lba + BlocksFrom(0, total, batchLen)
  {
  }

  lemma WithinDone(disk: seq<Byte>, disk': seq<Byte>, lba: nat, total: nat, batchLen: nat, off: nat, lba': nat,
                   write: bool)
    requires Within(disk, disk', lba, total, batchLen, off, lba', write)
    ensures Spared(disk, disk', lba, total, batchLen, write)
  {
    hide Kept, Advanced;
    AdvancedOnward(lba, total, batchLen, off, lba');
    if lba + total / BLOCK <= U64 {
      KeptWider(disk, disk', lba, lba' - lba, BlocksFrom(0, total, batchLen), write);
    }
  }

  /** A call that leaves a remainder does not write what it was given, unless the disk happened
      to hold its last byte already. */
  lemma RemainderLost(disk: seq<Byte>, disk': seq<Byte>, lba: nat, bytes: seq<Byte>, batchLen: nat)
    requires Spared(disk, disk', lba, |bytes|, batchLen, true) && lba * BLOCK + |bytes| <= |disk| <= U64 * BLOCK
    requires !DividesFrom(0, |bytes|, batchLen) && disk[lba * BLOCK + |bytes| - 1] != bytes[|bytes| - 1]
    ensures disk' != Splice(disk, lba * BLOCK, bytes)
  {
    BlocksFromIff(0, |bytes|, batchLen);
    var last := lba * BLOCK + |bytes| - 1;
    assert disk'[last] == disk[last] != Splice(disk, lba * BLOCK, bytes)[last];
  }
}
