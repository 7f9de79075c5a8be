/** The commands of one batch of batched_write or batched_read: `len` bytes of the driver's
    buffer cut into batch_len equal commands. */
module Batches {
  import opened Arithmetic
  import opened Ring
  import opened Commands
  import opened Transfers
  import opened Prps
  import opened Layout

  const BATCH_CHUNK: nat := 0x20_0000

  /** `min(batch_len, len / 512)` */
  function BatchLen(batchLen: nat, len: nat): nat { if batchLen < len / BLOCK then batchLen else len / BLOCK }

  /** A batch has as many commands as were asked for, or one for each whole block of its chunk if that
      is fewer; none at all exactly if none was asked for or the chunk has no whole block. */
  lemma BatchLenExact(batchLen: nat, len: nat)
    ensures var n := BatchLen(batchLen, len);
      && n <= batchLen && n * 512 <= len && (n == batchLen || len < (n + 1) * 512)
      && (n > 0 <==> batchLen > 0 && len >= 512)
  {
  }

  /** `len / batch_len` bytes from one command to the next. */
  function BatchSize(n: nat, len: nat): nat
    requires n > 0
  {
    len / n
  }

  /** The stretches are as long as the chunk allows, all of the same length. */
  lemma BatchSizeExact(n: nat, len: nat)
    requires n > 0
    ensures n * BatchSize(n, len) <= len < n * BatchSize(n, len) + n
  {
    Quotient(len, n);
  }

  function BatchBlocks(n: nat, len: nat): nat
    requires n > 0
  {
    BatchSize(n, len) / BLOCK
  }

  /** The blocks of the batch. */
  function BatchAdvance(n: nat, len: nat): nat
    requires n > 0
  {
    n * BatchBlocks(n, len)
  }

  function BatchCommand(listPhys: nat, buffer: nat, tail: nat, nsid: nat, lba: nat, offset: nat, blocks: nat,
                        write: bool): Command {
    var addr := buffer + offset;
    IoCommand(write, tail % U16, nsid, lba, blocks, addr, BatchPtr(listPhys, buffer, addr, blocks * BLOCK))
  }

  /** Command i is for the i-th stretch of the buffer and the i-th stretch of blocks. */
  function BatchCommands(listPhys: nat, buffer: nat, start: nat, qlen: nat, nsid: nat, lba: nat, n: nat, len: nat,
                         write: bool): (r: seq<Command>)
    requires n > 0 && qlen > 0
    ensures |r| == n
  {
    seq(n, i requires 0 <= i < n =>
      BatchCommand(listPhys, buffer, Slot(start + i, qlen), nsid, lba + i * BatchBlocks(n, len),
                   i * BatchSize(n, len), BatchBlocks(n, len), write))
  }

  /** A command of `bytes` bytes `offset` bytes into the buffer has PRPs that describe it. */
  predicate Placed(offset: nat, bytes: nat) {
    && offset % DWORD == 0
    && if bytes <= 2 * PAGE then offset % PAGE == 0 || offset % PAGE + bytes <= PAGE else offset < 8
  }

  /** The batch is exactly the chunk: whole blocks, no remainder, and every command well placed. */
  ghost predicate Tiles(n: nat, len: nat) {
    && n > 0 && BatchBlocks(n, len) * n * BLOCK == len
    && forall i :: 0 <= i < n ==> Placed(i * BatchSize(n, len), BatchSize(n, len))
  }

  lemma SizeBounds(n: nat, len: nat)
    requires 0 < n && n * BLOCK <= len
    ensures BLOCK <= BatchSize(n, len) <= len && 0 < BatchBlocks(n, len) <= len / BLOCK
  {
    Commute(n, BLOCK);
    DivAtLeast(len, n, BLOCK);
    DivAtMost(len, n);
    WholeBlocks(len / n, len);
  }

  lemma WholeBlocks(q: nat, len: nat)
    requires BLOCK <= q <= len
    ensures 0 < q / BLOCK <= len / BLOCK
  {
  }

  lemma Regroup(n: nat, b: nat)
    ensures b * (n * BLOCK) == BLOCK * (n * b) && b * n * BLOCK == BLOCK * (n * b) && n * (b * BLOCK) == BLOCK * (n * b)
  {
  }

  lemma TilesSize(n: nat, len: nat)
    requires Tiles(n, len)
    ensures BatchSize(n, len) == BatchBlocks(n, len) * BLOCK && n * BatchSize(n, len) == len
  {
    hide BatchBlocks, Placed;
    var b := BatchBlocks(n, len);
    Regroup(n, b);
    Commute(n, b * BLOCK);
    DivModUnique(len, n, b * BLOCK, 0);
  }

  function Multiples(n: nat, step: nat): (r: seq<nat>)
    ensures |r| == n + 1
  {
    seq(n + 1, i => i * step)
  }

  lemma MultiplesTile(n: nat, step: nat)
    requires step > 0
    ensures Tiling(Multiples(n, step), n * step)
  {
    forall i, j | 0 <= i < j < n + 1
      ensures i * step < j * step
    {
      Multiple(i, j, step);
    }
  }

  /** Product of a command number and a command size, `per` commands to a page. */
  lemma WithinPage(i: nat, bytes: nat, per: nat)
    requires per * bytes == PAGE && per > 0 && bytes > 0
    ensures i * bytes % PAGE + bytes <= PAGE
  {
    var a, b := i / per, i % per;
    Quotient(i, per);
    SplitProduct(i, per, a, b, bytes);
    Multiple(b, per, bytes);
    DivModUnique(i * bytes, PAGE, a, b * bytes);
  }

  lemma SplitProduct(i: nat, per: nat, a: nat, b: nat, bytes: nat)
    requires i == per * a + b
    ensures i * bytes == a * (per * bytes) + b * bytes
  {
  }

  lemma MultipleOf(i: nat, c: nat, m: nat)
    requires m > 0
    ensures i * (c * m) % m == 0
  {
    assert i * (c * m) == (i * c) * m;
    DivModUnique(i * (c * m), m, i * c, 0);
  }

  /** For a command size of a power of two up to 8192, every command is well placed. */
  lemma PowersPlaced(i: nat, bytes: nat)
    requires bytes in {512, 1024, 2048, 4096, 8192}
    ensures Placed(i * bytes, bytes)
  {
    MultipleOf(i, bytes / DWORD, DWORD);
    if bytes == 8192 {
      MultipleOf(i, 2, PAGE);
    } else {
      WithinPage(i, bytes, PAGE / bytes);
    }
  }

  /** The PRPs of a command anywhere in the buffer describe it exactly if it is well placed. */
  lemma PlacedIff(d: Data, buffer: nat, size: nat, offset: nat, bytes: nat)
    requires buffer % PAGE == 0 && 0 < bytes && offset + bytes <= size <= 512 * PAGE && Apart(d, buffer, size)
    requires bytes > 2 * PAGE ==> InitFill(d, buffer)
    ensures Describes(d, buffer + offset, BatchPtr(d.listPhys, buffer, buffer + offset, bytes), buffer + offset, bytes)
            <==> Placed(offset, bytes)
  {
    hide Describes;
    SamePlace(buffer, offset);
    if bytes <= 2 * PAGE {
      NextPageIff(d, buffer + offset, bytes);
    } else {
      BatchDescribedIff(d, buffer, buffer + offset, bytes);
    }
  }

  lemma SamePlace(buffer: nat, offset: nat)
    requires buffer % PAGE == 0
    ensures (buffer + offset) % PAGE == offset % PAGE && (buffer + offset) % DWORD == offset % DWORD
  {
    var p := buffer / PAGE;
    DivModUnique(buffer + offset, PAGE, p + offset / PAGE, offset % PAGE);
    DivModUnique(buffer + offset, DWORD, 1024 * p + offset / DWORD, offset % DWORD);
  }

  /** For the i-th of several commands over two pages: exactly if it is the first. */
  lemma LongPlacedIff(i: nat, step: nat)
    requires step > 2 * PAGE
    ensures Placed(i * step, step) <==> i == 0
  {
    if i > 0 {
      AtLeastOne(i, step);
    }
  }

  /** A batch that tiles its chunk moves it piece by piece, over a contiguous range of blocks. */
  lemma BatchMoves(d: Data, buffer: nat, start: nat, qlen: nat, nsid: nat, lba: nat, n: nat, len: nat, write: bool)
    requires qlen > 0 && Tiles(n, len) && 0 < len <= BATCH_CHUNK && lba + len / BLOCK <= U64
    requires buffer % PAGE == 0 && Apart(d, buffer, len)
    requires BatchSize(n, len) > 2 * PAGE ==> InitFill(d, buffer)
    ensures MovesAll(d, BatchCommands(d.listPhys, buffer, start, qlen, nsid, lba, n, len, write),
                     Io(write, lba * BLOCK, buffer, len), Multiples(n, BatchSize(n, len)))
  {
    hide Describes, Slot, Moves, BatchCommand, Tiles, Placed, BatchSize, BatchBlocks;
    TilesSize(n, len);
    TilesPositive(n, len);
    var step := BatchSize(n, len);
    MultiplesTile(n, step);
    var cmds := BatchCommands(d.listPhys, buffer, start, qlen, nsid, lba, n, len, write);
    var cuts := Multiples(n, step);
    forall i | 0 <= i < n
      ensures Moves(d, cmds[i], Io(write, lba * BLOCK, buffer, len), cuts[i], cuts[i + 1])
    {
      BatchPiece(d, buffer, Slot(start + i, qlen), nsid, lba, n, len, i, write);
    }
  }

  lemma TilesPositive(n: nat, len: nat)
    requires Tiles(n, len) && len > 0
    ensures n > 0 && BatchSize(n, len) > 0
  {
    TilesSize(n, len);
  }

  lemma BatchPiece(d: Data, buffer: nat, tail: nat, nsid: nat, lba: nat, n: nat, len: nat, i: nat, write: bool)
    requires Tiles(n, len) && 0 < len <= BATCH_CHUNK && lba + len / BLOCK <= U64 && i < n
    requires buffer % PAGE == 0 && Apart(d, buffer, len)
    requires BatchSize(n, len) > 2 * PAGE ==> InitFill(d, buffer)
    ensures var step, blocks := BatchSize(n, len), BatchBlocks(n, len);
      Moves(d, BatchCommand(d.listPhys, buffer, tail, nsid, lba + i * blocks, i * step, blocks, write),
            Io(write, lba * BLOCK, buffer, len), i * step, (i + 1) * step)
  {
    hide Describes, BatchPtr, IoCommand, Apart, InitFill;
    var step, blocks := BatchSize(n, len), BatchBlocks(n, len);
    TilesSize(n, len);
    TilesPositive(n, len);
    assert Placed(i * step, step);
    hide Tiles, Placed, BatchSize, BatchBlocks;
    StretchBounds(n, step, blocks, len, i);
    PlacedIff(d, buffer, len, i * step, step);
    var addr := buffer + i * step;
    IoRoundTrip(write, tail % U16, nsid, lba + i * blocks, blocks, addr, BatchPtr(d.listPhys, buffer, addr, step));
  }

  lemma StretchBounds(n: nat, step: nat, blocks: nat, len: nat, i: nat)
    requires i < n && n * step == len <= BATCH_CHUNK && step == blocks * BLOCK > 0
    ensures (i + 1) * step == i * step + step <= len
    ensures i * blocks * BLOCK == i * step && i * blocks < len / BLOCK && 1 <= blocks <= U16
  {
    Multiple(i, n, step);
    NextMultiple(i, step);
    BlockMultiple(i, blocks);
    BelowBlocks(i * blocks, blocks, len);
  }

  lemma NextMultiple(i: nat, step: nat)
    ensures (i + 1) * step == i * step + step
  {
  }

  lemma BlockMultiple(i: nat, blocks: nat)
    ensures i * (blocks * BLOCK) == i * blocks * BLOCK
  {
  }

  lemma BelowBlocks(a: nat, blocks: nat, len: nat)
    requires 0 < blocks && a * BLOCK + blocks * BLOCK <= len <= BATCH_CHUNK
    ensures a < len / BLOCK && blocks <= U16
  {
  }

  function BatchChunkLen(off: nat, total: nat): nat
    requires off <= total
  {
    if total - off < BATCH_CHUNK then total - off else BATCH_CHUNK
  }

  /** Every chunk from `off` on is tiled by its batch; `listed` says whether the list can be used. */
  ghost predicate TilesFrom(off: nat, total: nat, batchLen: nat, listed: bool)
    requires off <= total
    decreases total - off
  {
    off == total ||
    var len := BatchChunkLen(off, total);
    var n := BatchLen(batchLen, len);
    Tiles(n, len) && (BatchSize(n, len) <= 2 * PAGE || listed) && TilesFrom(off + len, total, batchLen, listed)
  }

  /** A batch with commands in it has at most one for each block, and at most 4096. */
  lemma BatchNotEmpty(batchLen: nat, len: nat)
    requires len <= BATCH_CHUNK && BatchLen(batchLen, len) > 0
    ensures var n := BatchLen(batchLen, len);
      n <= batchLen && n * BLOCK <= len && n <= 4096
  {
  }
}
