/** The commands NvmeQueuePair::submit_io queues for a buffer, in closed form. */
module PairIo {
  import opened Arithmetic
  import opened Options
  import opened Ring
  import opened Commands
  import opened CommandIds
  import opened Transfers
  import opened Prps
  import opened Layout
  import opened Memory

  const PAIR_CHUNK: nat := 2 * 4096

  /** The command for one chunk, submitted when the tail is `tail`. */
  function PairCommand(id: nat, tail: nat, lba: nat, chunk: Chunk, write: bool): Command {
    var blocks := BlockCount(chunk.len);
    IoCommand(write, PairCid(id, tail), 1, lba, blocks, chunk.phys, NextPage(chunk.phys, blocks * BLOCK))
  }

  /** Chunk i of the buffer goes to the disk blocks right behind those of the chunks before it. */
  function PairCommands(id: nat, start: nat, len: nat, dma: Dma, lba: nat, write: bool): (r: seq<Command>)
    requires len > 0
    ensures |r| == |Cuts(dma.size, PAIR_CHUNK)| - 1
  {
    var cuts := Cuts(dma.size, PAIR_CHUNK);
    assert Tiling(cuts, dma.size) by { CutsTile(dma.size, PAIR_CHUNK); }
    seq(|cuts| - 1, i requires 0 <= i < |cuts| - 1 =>
      PairCommand(id, Slot(start + i, len), lba + cuts[i] / BLOCK, ChunkOf(dma, PAIR_CHUNK, i).value, write))
  }

  /** How many blocks the first k chunks take. */
  function BlocksBefore(size: nat, k: nat): nat
    requires k < |Cuts(RoundUp(size), PAIR_CHUNK)|
  {
    Cuts(RoundUp(size), PAIR_CHUNK)[k] / BLOCK
  }

  lemma BlocksStart(size: nat)
    ensures BlocksBefore(size, 0) == 0 && Cuts(size, PAIR_CHUNK)[0] == 0
  {
  }

  /** The running block address of the loop is that of the closed form. */
  lemma NextCommand(id: nat, start: nat, len: nat, dma: Dma, lba: nat, write: bool, k: nat)
    requires len > 0 && k + 1 < |Cuts(dma.size, PAIR_CHUNK)|
    ensures |Cuts(RoundUp(dma.size), PAIR_CHUNK)| == |Cuts(dma.size, PAIR_CHUNK)|
    ensures ChunkOf(dma, PAIR_CHUNK, k) != None
    ensures var chunk := ChunkOf(dma, PAIR_CHUNK, k).value;
      && PairCommand(id, Slot(start + k, len), lba + BlocksBefore(dma.size, k), chunk, write)
         == PairCommands(id, start, len, dma, lba, write)[k]
      && BlocksBefore(dma.size, k) + BlockCount(chunk.len) == BlocksBefore(dma.size, k + 1)
  {
    hide PairCommand, Cuts, Slot, RoundUp, BlockCount;
    PieceFacts(dma.size, PAIR_CHUNK, k);
    var r := Cuts(dma.size, PAIR_CHUNK);
    Piece512(r[k + 1] - r[k], Cuts(RoundUp(dma.size), PAIR_CHUNK)[k]);
  }

  lemma Piece512(len: nat, at: nat)
    requires at % BLOCK == 0
    ensures at / BLOCK + BlockCount(len) == (at + RoundUp(len)) / BLOCK
  {
  }

  /** For a page-aligned buffer these commands move it piece by piece: consecutive blocks, and
      PRPs that describe exactly the piece. */
  lemma PairCommandsMove(d: Data, id: nat, start: nat, len: nat, dma: Dma, lba: nat, write: bool)
    requires len > 0 && dma.phys % PAGE == 0 && lba + BlockCount(dma.size) <= U64
    requires Apart(d, dma.phys, RoundUp(dma.size))
    ensures MovesAll(d, PairCommands(id, start, len, dma, lba, write), TransferOf(dma, lba, write),
                     Cuts(RoundUp(dma.size), PAIR_CHUNK))
  {
    hide Describes, RoundUp, BlockCount, PairCid, Slot, Cuts, Moves, IoCommand, NextPage;
    var cmds := PairCommands(id, start, len, dma, lba, write);
    var io := TransferOf(dma, lba, write);
    var r, w := Cuts(dma.size, PAIR_CHUNK), Cuts(RoundUp(dma.size), PAIR_CHUNK);
    ChunkBlocks(dma.size, PAIR_CHUNK);
    CutsTile(RoundUp(dma.size), PAIR_CHUNK);
    forall i | 0 <= i < |cmds|
      ensures Moves(d, cmds[i], io, w[i], w[i + 1])
    {
      PieceFacts(dma.size, PAIR_CHUNK, i);
      PieceMoves(d, dma, lba, r, w, i, PairCid(id, Slot(start + i, len)), write);
    }
  }

  lemma PieceMoves(d: Data, dma: Dma, lba: nat, r: seq<nat>, w: seq<nat>, i: nat, cid: nat, write: bool)
    requires dma.phys % PAGE == 0 && lba + BlockCount(dma.size) <= U64 && Apart(d, dma.phys, RoundUp(dma.size))
    requires i + 1 < |r| == |w| && SamePiece(r, w, i) && w[i] % PAGE == 0
    requires w[i] < w[i + 1] <= w[i] + PAIR_CHUNK && w[i + 1] <= RoundUp(dma.size)
    ensures var blocks := BlockCount(r[i + 1] - r[i]);
      var addr := dma.phys + r[i];
      Moves(d, IoCommand(write, cid, 1, lba + r[i] / BLOCK, blocks, addr, NextPage(addr, blocks * BLOCK)),
            TransferOf(dma, lba, write), w[i], w[i + 1])
  {
    hide Describes, NextPage, IoCommand, Lba, Blocks;
    var bytes := w[i + 1] - w[i];
    var addr := dma.phys + w[i];
    WordAligned(dma.phys, w[i]);
    PiecePlace(lba, w[i]);
    PieceBlocks(w[i], r[i + 1] - r[i], dma.size);
    hide BlockCount, RoundUp;
    NextPageIff(d, addr, bytes);
    IoRoundTrip(write, cid, 1, lba + r[i] / BLOCK, BlockCount(r[i + 1] - r[i]), addr, NextPage(addr, bytes));
  }

  lemma PiecePlace(lba: nat, from: nat)
    requires from % PAGE == 0
    ensures (lba + from / BLOCK) * BLOCK == lba * BLOCK + from
  {
    Quotient(from, PAGE);
    DivModUnique(from, BLOCK, 8 * (from / PAGE), 0);
  }

  lemma PieceBlocks(from: nat, len: nat, size: nat)
    requires 0 < RoundUp(len) <= PAIR_CHUNK && from + RoundUp(len) <= RoundUp(size) && from % PAGE == 0
    ensures 1 <= BlockCount(len) <= U16 && from / BLOCK < BlockCount(size) && BlockCount(len) * BLOCK == RoundUp(len)
  {
  }

  // ---------------------------------------------------------------- identifiers and addresses

  /** Each 8 KiB of the buffer, the last of them perhaps less, makes one command. */
  lemma PairCommandsNumber(id: nat, start: nat, len: nat, dma: Dma, lba: nat, write: bool)
    requires len > 0
    ensures |PairCommands(id, start, len, dma, lba, write)| == (dma.size + 8191) / 8192
  {
    CutsNumber(dma.size, PAIR_CHUNK);
  }

  /** Command i in full: the first namespace, the identifier of the slot it goes to, the i-th 8 KiB of
      the buffer, the i-th 16 blocks, and a second PRP only if it needs one. */
  lemma PairCommandFields(id: nat, start: nat, len: nat, dma: Dma, lba: nat, write: bool, i: nat)
    requires len > 0 && 8192 * i < dma.size && lba + BlockCount(dma.size) <= U64
    ensures var cmds := PairCommands(id, start, len, dma, lba, write);
      i < |cmds| && var c := cmds[i];
      && c.nsid == 1 && c.cid == PairCid(id, Slot(start + i, len))
      && (c.opcode == OP_WRITE <==> write) && (c.opcode == OP_READ <==> !write)
      && Lba(c) == lba + 16 * i && c.ptr0 == dma.phys + 8192 * i
      && Blocks(c) == (if dma.size < 8192 * i + 8192 then (dma.size - 8192 * i + 511) / 512 else 16)
      && c.ptr1 == (if dma.size <= 8192 * i + 4096 then 0 else c.ptr0 + 4096)
  {
    hide Cuts, Slot, PairCid, IoCommand, Lba, Blocks;
    PairCommandsNumber(id, start, len, dma, lba, write);
    CutsAt(dma.size, PAIR_CHUNK, i);
    var size := if dma.size < 8192 * i + 8192 then dma.size - 8192 * i else 8192;
    assert ChunkOf(dma, PAIR_CHUNK, i) == Some(Chunk(dma.phys + 8192 * i, size));
    PieceCount(dma.size, i, size);
    var blocks := BlockCount(size);
    IoRoundTrip(write, PairCid(id, Slot(start + i, len)), 1, lba + 16 * i, blocks, dma.phys + 8192 * i,
                NextPage(dma.phys + 8192 * i, blocks * BLOCK));
  }

  lemma PieceCount(total: nat, i: nat, size: nat)
    requires 0 < size <= 8192 && 8192 * i + size <= total
    ensures 8192 * i / BLOCK == 16 * i && 1 <= BlockCount(size) <= 16 && 16 * i < BlockCount(total)
    ensures BlockCount(size) * BLOCK <= 4096 <==> size <= 4096
  {
  }

  /** For the queue ids and rings the identifiers were made for, those of a queued transfer are the
      pair of queue id and slot, and distinct as far apart as the ring allows. */
  lemma PairCommandIds(id: nat, start: nat, len: nat, dma: Dma, lba: nat, write: bool, i: nat, j: nat)
    requires 0 < len <= 2048 && id < 32 && i < j && 8192 * j < dma.size && j < i + len
    requires lba + BlockCount(dma.size) <= U64
    ensures var cmds := PairCommands(id, start, len, dma, lba, write);
      i < j < |cmds| && cmds[i].cid == id * 2048 + (start + i) % len && cmds[i].cid != cmds[j].cid
  {
    hide PairCommands, Slot, PairCid;
    PairCommandFields(id, start, len, dma, lba, write, i);
    PairCommandFields(id, start, len, dma, lba, write, j);
    SlotIsRemainder(start + i, len);
    PairCidValue(id, Slot(start + i, len));
    WindowIdsDistinct(id, start + i, id, start + j, len);
  }

  /** Whatever part of a transfer is queued, the commands of the pair stay identified by their slots. */
  lemma StayIdentified(cmds: seq<Command>, id: nat, len: nat, dma: Dma, lba: nat, write: bool, reqs: nat)
    requires len > 0 && Identified(cmds, id, len)
    requires reqs <= |PairCommands(id, |cmds|, len, dma, lba, write)|
    ensures Identified(cmds + PairCommands(id, |cmds|, len, dma, lba, write)[..reqs], id, len)
  {
    hide Slot, PairCid, Cuts;
    var more := PairCommands(id, |cmds|, len, dma, lba, write);
    forall k | 0 <= k < |cmds + more[..reqs]|
      ensures (cmds + more[..reqs])[k].cid == PairCid(id, Slot(k, len))
    {
      if k >= |cmds| {
        PairCommandCid(id, |cmds|, len, dma, lba, write, k - |cmds|);
      }
    }
  }

  lemma PairCommandCid(id: nat, start: nat, len: nat, dma: Dma, lba: nat, write: bool, i: nat)
    requires len > 0 && i < |PairCommands(id, start, len, dma, lba, write)|
    ensures PairCommands(id, start, len, dma, lba, write)[i].cid == PairCid(id, Slot(start + i, len))
  {
    hide Cuts, Slot, PairCid, PairCommand, ChunkOf, Tiling, Steps;
    ChunkOfSome(dma, PAIR_CHUNK, i);
    PairCommandId(id, Slot(start + i, len), lba + Cuts(dma.size, PAIR_CHUNK)[i] / BLOCK,
                  ChunkOf(dma, PAIR_CHUNK, i).value, write);
  }

  lemma PairCommandId(id: nat, tail: nat, lba: nat, chunk: Chunk, write: bool)
    ensures PairCommand(id, tail, lba, chunk, write).cid == PairCid(id, tail)
  {
    hide PairCid;
  }
}
