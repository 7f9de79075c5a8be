/** Submission queue entries (section 4.2 of NVM Express 1.4) as src/cmd.rs builds them,
    and the fields a controller decodes. Machine integers are written out: a cast to a
    narrower type is a remainder. The reserved words, which every constructor leaves
    zero, are omitted. */
module Commands {

  const U16: nat := 0x1_0000
  const U32: nat := 0x1_0000_0000
  const U64: nat := U32 * U32

  datatype Command = Command(
    opcode: nat, cid: nat, nsid: nat, ptr0: nat, ptr1: nat, cdw10: nat, cdw11: nat, cdw12: nat)

  const ZERO_COMMAND := Command(0, 0, 0, 0, 0, 0, 0, 0)

  const OP_WRITE := 1
  const OP_READ := 2

  // Status codes of any command; the other modules add those of their own commands.
  const SUCCESS := 0
  const INVALID_OPCODE := 0x01

  function IoRead(cid: nat, nsid: nat, lba: nat, blocks1: nat, ptr0: nat, ptr1: nat): Command {
    Command(OP_READ, cid, nsid, ptr0, ptr1, lba % U32, lba / U32 % U32, blocks1)
  }

  function IoWrite(cid: nat, nsid: nat, lba: nat, blocks1: nat, ptr0: nat, ptr1: nat): Command {
    Command(OP_WRITE, cid, nsid, ptr0, ptr1, lba % U32, lba / U32 % U32, blocks1)
  }

  /** `blocks as u16 - 1`, the zero-based count. For 0x1_0000 blocks the cast gives 0 and the
      subtraction wraps. */
  function ZeroBased(blocks: nat): nat {
    (blocks % U16 + U16 - 1) % U16
  }

  /** The command the drivers build for one transfer. */
  function IoCommand(write: bool, cid: nat, nsid: nat, lba: nat, blocks: nat, ptr0: nat, ptr1: nat): Command {
    if write then IoWrite(cid, nsid, lba, ZeroBased(blocks), ptr0, ptr1)
    else IoRead(cid, nsid, lba, ZeroBased(blocks), ptr0, ptr1)
  }

  // What the controller reads out of an entry.

  function Lba(c: Command): nat { c.cdw11 * U32 + c.cdw10 }

  function Blocks(c: Command): nat { c.cdw12 % U16 + 1 }

  /** Encoding and decoding are inverse for every 64-bit LBA and every legal block count,
      including the 0x1_0000 whose cast wraps. */
  lemma IoRoundTrip(write: bool, cid: nat, nsid: nat, lba: nat, blocks: nat, ptr0: nat, ptr1: nat)
    requires lba < U64 && 1 <= blocks <= U16
    ensures var c := IoCommand(write, cid, nsid, lba, blocks, ptr0, ptr1);
      && Lba(c) == lba && Blocks(c) == blocks && c.ptr0 == ptr0 && c.ptr1 == ptr1
      && c.cid == cid && c.nsid == nsid
      && (c.opcode == OP_WRITE <==> write) && (c.opcode == OP_READ <==> !write)
  {
    assert lba / U32 < U32;
    if blocks == U16 {
      assert ZeroBased(blocks) == U16 - 1;
    } else {
      assert ZeroBased(blocks) == blocks - 1;
    }
  }

  /** The entry word by word (section 6 of NVM Express 1.4, commands Read and Write). */
  lemma IoWords(write: bool, cid: nat, nsid: nat, lba: nat, blocks: nat, ptr0: nat, ptr1: nat)
    requires lba < 0x1_0000_0000_0000_0000 && 1 <= blocks <= 0x1_0000
    ensures IoCommand(write, cid, nsid, lba, blocks, ptr0, ptr1)
            == Command(if write then 1 else 2, cid, nsid, ptr0, ptr1, lba % 0x1_0000_0000, lba / 0x1_0000_0000,
                       blocks - 1)
  {
    IoRoundTrip(write, cid, nsid, lba, blocks, ptr0, ptr1);
    HighWord(lba);
  }

  lemma HighWord(lba: nat)
    requires lba < 0x1_0000_0000_0000_0000
    ensures lba / 0x1_0000_0000 < 0x1_0000_0000
  {
  }

  // Queue management (sections 5.3 to 5.6).

  function CreateIoCompletionQueue(cid: nat, qid: nat, ptr: nat, size: nat): Command {
    Command(5, cid, 0, ptr, 0, size % U16 * U16 + qid % U16, 1, 0)
  }

  function CreateIoSubmissionQueue(cid: nat, qid: nat, ptr: nat, size: nat, cqid: nat): Command {
    Command(1, cid, 0, ptr, 0, size % U16 * U16 + qid % U16, cqid % U16 * U16 + 1, 0)
  }

  function DeleteIoSubmissionQueue(cid: nat, qid: nat): Command {
    Command(0, cid, 0, 0, 0, qid % U16, 0, 0)
  }

  function DeleteIoCompletionQueue(cid: nat, qid: nat): Command {
    Command(4, cid, 0, 0, 0, qid % U16, 0, 0)
  }

  function QueueId(c: Command): nat { c.cdw10 % U16 }

  function QueueSize(c: Command): nat { c.cdw10 / U16 }

  function AttachedCq(c: Command): nat { c.cdw11 / U16 }

  /** The queue's memory is one piece, at the address in the first PRP. */
  predicate IsContiguous(c: Command) { c.cdw11 % 2 == 1 }
}
