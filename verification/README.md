# A model of the vroom NVMe driver

vroom is a userspace NVMe driver. This project models its queue engine, its data path, its queue
lifecycle and its DMA allocator in Dafny, together with the parties on the other side: an NVMe
controller after NVM Express 1.4, and a kernel that maps and unmaps memory. `dafny verify
dfyconfig.toml` checks all of it.

## How it is built

The driver's objects are classes with the driver's fields and loops. Each method is proved against
a state of a protocol between driver and controller, and the theorems are about every run of that
protocol.

- `Arithmetic`, `Ring`, `Commands`, `CommandIds`, `Memory`: products and quotients, wrapped indices and
  phase bits, submission entries, command identifiers, page rounding and the chunk iterator.
- `Protocol`: one queue pair as a state machine. A `State` holds the ring memories, the driver's
  indices, the doorbell registers and the controller's own indices, followed by unbounded logs of
  what was submitted, fetched, executed, posted and consumed. A `Step` is one atomic action of
  either party: the controller fetches below the tail doorbell, executes fetched commands in any
  order, and posts a completion with its phase and its current fetch head while the completion
  ring is not full by the last head doorbell. The invariant `Inv` is kept by every step.
- `ProtocolTheorems`: safety, refinement of `complete_n`, progress and the drain theorem, for all
  interleavings.
- `Transfers`, `Prps`, `Layout`: what a read or write command does to a disk of 512-byte blocks and
  a host memory of bytes, PRP expansion by the controller, and order independence.
- `Queues`, `ControllerModel`, `QueuePair`, `PairIo`: the two ring classes over real arrays, the
  controller as a nondeterministic peer object, and `NvmeQueuePair` running against it. Between any
  two actions of the driver, and between any two looks of a spinning wait, the peer takes any number
  of steps; the wait terminates because the controller owes finitely many.
- `ManyTransfers`, `ManyPairs`: several `submit_io` calls under way at once, on one queue pair and, by
  several threads, on pairs of their own over one disk.
- `Batches`, `BatchLimits`, `BatchCalls`, `CallLimits`, `Device`: the synchronous and the batched paths
  of `NvmeDevice`; what a batch and a whole batched call move, remainders included, and exactly when
  they move what they were given.
- `RoundTrip`, `Worker`: two clients, the read-back of `tests/simple_read_write.rs` and the worker
  loop of `examples/throughput.rs`. `InFlight`: what commands under way at once may share.
- `VfioModel`: `allocate`, `deallocate` and the aligned window over two address spaces.
- `AdminModel`, `AdminQueueModel`, `Lifecycle`: queue management commands, the admin ring that
  carries them, and queue creation and deletion against a controller that keeps its own account of
  live queues and may refuse any command.

Machine arithmetic is written out where it can wrap: casts to 16 bits, `id << 11 | tail`, the
zero-based block count, doorbell offsets. A panic of the source is an explicit outcome (`ok ==
false`, `Panicked`) or, where it is a caller's error, a precondition.

The model assumes what the driver assumes: queue memory starts zeroed, a ring has at least two
slots, transfer addresses are page-aligned, the list page and a data buffer do not overlap, and
there is a block size of 512 bytes. The controller refuses a read or write for three reasons only,
an opcode it does not know, blocks that do not exist and PRPs that do not describe memory: media
errors and the namespace identifier are not modelled, so "exactly when the blocks exist" below is
for such a controller. A queue management command may fail for any reason.

## What the proofs found

The model follows the code. In these places the code does less than a reader may expect; each entry
names the lemma or contract that says exactly when.

- `complete_io(n)` looks at the last completion only. It speaks for all n exactly when n is 1
  (`LastTellsAllIff`). The `complete_io` of the device, which the batched calls use, has the same
  contract (`Device.NvmeDevice.Finish`).
- `complete_n` flips the phase once, so waiting is truthful exactly for n up to the ring length
  (`BatchWaitTruthfulIff`). Within that bound the wait ends exactly for n up to the number of
  outstanding commands and below the ring length (`WaitEndsIff`); beyond it, it may end at once and
  falsely.
- `submit` without a check makes a full ring look empty (`UncheckedSubmitLooksEmptyIff`).
- The queue length is clamped on the driver's side only: driver and controller agree exactly up to
  `QUEUE_LENGTH` (`ClampAgreesIff`), and the controller's rings lie in the allocated memory exactly
  up to a bound set by the page size (`RingsInsideIff`, `CreatedInsideIff`).
- Command identifiers repeat within a ring exactly when its slots exceed the bits the queue id
  leaves free: 2048 for an odd id (`IdsDistinctIff`, `QueuedIdsIff`). The commands under way are not
  only those in the ring: a slot is free again once its command is fetched. Whatever the id and the ring,
  a client that keeps two commands under way can meet two with the same identifier, the second one lap
  behind the first (`RepeatedId`); they differ in every run exactly if it keeps at most one
  (`NeverRepeatIff`). The device's batches start from a drained ring and are not affected
  (`BatchIdsDistinct`).
- `namespace_io` uses the PRP list from entry 1. That is right after the fill of `write_prp` for chunks
  of whole pages (`ChunkDescribedIff`) but not after the fill of `init`: `write_copied` and
  `read_copied` are described correctly exactly up to 8192 bytes (`CopiedDescribedIff`).
- The list offset of the batched path divides by 8 where an entry of 8 bytes stands for 4096: a
  command over 8192 bytes, at any place of the buffer, is right exactly if it is the first of its
  batch (`BatchDescribedIff`, `LongPlacedIff`).
- A command of a batch moves the whole blocks at the start of its stretch of the chunk; the rest of the
  stretch, and of the chunk, is dropped. If every command is well placed and its blocks exist, the batch
  reports success all the same (`Device.NvmeDevice.RunBatch`). The disk then holds the heads of all
  stretches one behind the other, so that what follows a remainder lands at lower blocks than it was
  meant for (`Device.NvmeDevice.BatchedWrite`, `HeadsAt`), and a read delivers, between the blocks, what
  the driver's buffer held before (`Device.NvmeDevice.BatchedRead`, `SpreadMoved`, `SpreadKept`). A badly
  placed command is refused or looks elsewhere for its second page (`MisplacedMisses`), and a batch panics
  exactly if the completion taken last in a batch reports a refusal (`Device.NvmeDevice.Finish`).
- All of the data is moved exactly if every batch divides its chunk (`KeptIff`). One batch is right for
  all data exactly if its chunk is a multiple of 512 times the number of commands and every command is
  well placed (`BatchCorrectIff`, `TilesIff`); a whole call is right for all data, in every order of
  execution, exactly if all its batches are such (`WriteRightIff`, `ReadRightIff`). Transfers of whole
  2 MiB by 256, 512, 1024, 2048 or at least 4096 commands each are (`WholeChunksTile`).
- A batch is empty if none of its commands was asked for or its chunk is shorter than a block; the call
  then divides by zero. A call can end exactly if that does not happen (`WriteEndsIff`, `ReadEndsIff`,
  `NoEmptyBatch`).
- A transfer is rounded up to whole blocks. A read stays inside its buffer exactly if the buffer is
  whole blocks (`ReadInsideIff`); otherwise the bytes behind it become the rest of the last block
  (`Device.NvmeDevice.Read`).
- In `allocate_2mib` a mapping that happens to be aligned leaves no prefix, `munmap` refuses a
  length of zero, and the call fails with the mapping left behind (`VfioModel.Vfio.Allocate2Mib`).
- `deallocate` rounds by the page size of the moment (`MunmapExactIff`).
- If a completion queue is created and its submission queue is not, the id is not advanced, and the
  device never creates a queue pair again (`WedgedIff`, `WedgedForever`).
- `create_io_queue_pair` and `write_reg_idx` compute the same doorbell address in different widths
  (`RegisterAgreesIff`).
- The worker loop numbers the slices of its buffer by the count of outstanding commands. In every run
  the operations under way use different slices exactly if the depth is at most 1 (`NeverShareIff`); at
  depth 2, two submissions, the completion of the first and a third submission leave two operations on
  slice 1 (`SharedSlice`).
- In the worker loop the block counter of the sequential mode is shadowed: every operation goes to
  the same block, and each goes to the block after that of the one before exactly if the namespace
  is one operation long (`SequentialBlock`). A depth of the ring length or more makes the loop count
  commands that were never queued (`AlwaysRoomIff`).

## Model

| member | source | states |
|---|---|---|
| Ring.SlotIsRemainder | src/queues.rs:89 | the slot function is the code's remainder, and the phase is the parity of the number of laps |
| Ring.Advance | src/queues.rs:135-141 | moving up to a lap ahead wraps once and flips the phase exactly when it wraps |
| Ring.SlotInjective | src/queues.rs:64-66 | within a lap, equal wrapped indices mean equal positions |
| Ring.OneShort | src/queues.rs:68-70 | the full test on wrapped indices finds exactly the ring one entry short of a lap |
| Ring.ClampAgreesIff | src/queues.rs:59 | the clamped length of the driver and the length told to the controller wrap alike if and only if the length is at most the cap |
| Commands.IoRoundTrip | src/cmd.rs:159-207 | a controller decodes direction, LBA, block count, identifier and PRPs as given, for every 64-bit LBA and 1 to 65536 blocks, including the count whose cast wraps |
| Commands.IoWords | src/cmd.rs:159-207 | the entry word by word: opcode 1 or 2, the low and the high half of the LBA, the count less one |
| CommandIds.PairCidValue | src/nvme.rs:120 | with an 11-bit tail the identifier is the pair of queue id mod 32 and tail |
| CommandIds.WindowIdsDistinct | src/nvme.rs:120-129 | with at most 2048 slots, identifiers in the ring window are distinct within a pair and across pairs of ids below 32 |
| CommandIds.IdsDistinctIff | src/nvme.rs:120 | for every queue id, the exact number of slots up to which the identifiers of a ring are distinct |
| CommandIds.QueuedIdsIff | src/nvme.rs:117-135 | commands queued no further apart than the ring is long carry distinct identifiers, whatever was queued, if and only if the slots fit the bits the queue id leaves free |
| Protocol.InitInv | src/queues.rs:52-62 | freshly created rings in zeroed memory satisfy the invariant |
| Protocol.StepInv | src/queues.rs:72-154 | every step of driver and controller keeps the invariant: indices and phases are images of unbounded counters, neither ring over-full, unfetched entries and the last lap of completions intact in memory, every completion for a distinct executed command |
| Protocol.RunInv | src/queues.rs:72-154 | so does every run |
| Protocol.FullIff | src/queues.rs:68-70 | `is_full` holds exactly when len - 1 entries are beyond the head the driver knows |
| Protocol.EmptyIff | src/queues.rs:64-66 | `is_empty` holds exactly when the driver knows every entry to be fetched |
| Protocol.FetchEnabledIff | src/nvme.rs:138-141 | the controller finds work by the tail doorbell exactly when a rung entry is unfetched |
| Protocol.PostEnabledIff | src/nvme.rs:159-162 | the controller may post exactly while the completion ring is not full by the head doorbell |
| Protocol.WaitPosition | src/queues.rs:135-141 | where `complete_n(n)` waits, and with which phase, is the place of the n-th completion from here, for every head and n up to a lap |
| Protocol.PhaseTagExact | src/queues.rs:120-133 | the tag at the awaited slot matches exactly when that completion, and so all before it, have been posted, and the entry read is that completion |
| Protocol.ReportedBound | src/nvme.rs:163 | the head in the j-th completion counts more than j entries, none unfetched |
| ProtocolTheorems.SubmissionSafety | src/nvme.rs:138-147 | in every run host head <= fetched <= doorbell <= tail <= host head + len - 1, and what the controller read is what the driver wrote: no entry is overwritten before it is fetched |
| ProtocolTheorems.HeadNeverMovesBack | src/nvme.rs:163 | over any stretch of any run the latched `sq_head` never goes backwards |
| ProtocolTheorems.LatchAdvances | src/nvme.rs:183 | one latch takes the head the last consumed completion reported, not below the previous one |
| ProtocolTheorems.UncheckedSubmitLooksEmptyIff | src/queues.rs:81-91 | an unchecked submit leaves a ring that reads as empty exactly if it was full |
| ProtocolTheorems.BatchWaitTruthfulIff | src/queues.rs:135-145 | a match of `complete_n(n)` means n completions are there, in all runs, if and only if n is at most the ring length |
| ProtocolTheorems.ConsumeResult | src/queues.rs:135-145 | where n completions taken at once leave head and phase, and which posted entry is returned |
| ProtocolTheorems.SplitConsume | src/queues.rs:135-145 | taking n is possible exactly when taking n - 1 and then one is, with the same outcome |
| ProtocolTheorems.BatchIsSingles | src/queues.rs:135-154 | `complete_n(n)` refines n calls of `complete`: enabled exactly when all of them are, same head, phase and entry |
| ProtocolTheorems.ReadsArePosted | src/queues.rs:120-145 | in every run each entry read is one that was posted, at strictly increasing positions never beyond what was posted: none stale, none twice |
| ProtocolTheorems.SingleReadsArePrefix | src/queues.rs:120-133 | taken one at a time, the entries read are exactly a prefix of those posted, over any number of wraps |
| ProtocolTheorems.ControllerStepPays | src/queues.rs:147-154 | each controller step leaves all the driver owns alone and lowers the debt by one |
| ProtocolTheorems.ControllerRunBounded | src/queues.rs:147-154 | left alone, the controller takes at most as many steps as it owes |
| ProtocolTheorems.QuiescentPosted | src/queues.rs:147-154 | a controller with nothing left to do has answered all it was told of, or filled the completion ring |
| ProtocolTheorems.WaitEndsIff | src/nvme.rs:157-163 | for n up to the ring length, however the controller is scheduled, the wait of `complete_n(n)` ends if and only if n is at most the outstanding commands and below the ring length |
| ProtocolTheorems.WaitNeverStuck | src/queues.rs:135-154 | until the awaited entry is there, some controller step is enabled |
| ProtocolTheorems.DrainedWork | src/nvme.rs:157-199 | when as many completions are consumed as commands submitted, every command was executed once and answered once |
| ProtocolTheorems.DrainedIsEmpty | src/nvme.rs:157-199 | after every run, by any mix of single and batched completions and any completion order, a drained pair has `sub_queue.head == tail` |
| ProtocolTheorems.LastTellsAllIff | src/nvme.rs:157-176 | a successful last completion means n successes, in all runs, if and only if n is 1 |
| ProtocolTheorems.FailsUnseen | src/nvme.rs:157-176 | for every n the run in which the first of n commands fails and the last reports success |
| Transfers.GatherContiguous | src/nvme.rs:803-811 | reading through segments that form one buffer yields that buffer |
| Transfers.ScatterContiguous | src/nvme.rs:803-811 | writing through such segments is one splice into memory |
| Transfers.ExecTransfer | src/nvme.rs:803-834 | a command whose PRPs describe a buffer succeeds exactly when its blocks exist, moves exactly those bytes, and otherwise changes nothing |
| Prps.NextPageIff | src/nvme.rs:112-116 | up to two pages, `addr + 4096` is right exactly for dword-aligned transfers that are page-aligned or inside one page |
| Prps.ListIff | src/nvme.rs:803-811 | for a transfer over two pages, a list pointer is right exactly when the address is dword-aligned and the entries from there on are the pages after the first |
| Prps.ChunkDescribedIff | src/nvme.rs:586-604 | for a chunk of any length up to 128 pages, with the `chunk_len / 4096` entries the loop fills, a `write_prp` command expands to exactly the rounded chunk if and only if it is at most two pages, or whole pages, or the entry left over from before happens to be the next page |
| Prps.CopiedDescribedIff | src/nvme.rs:623-646 | with the fill of `init`, `namespace_io` on the driver's buffer is described correctly if and only if at most 8192 bytes move |
| Prps.BatchDescribedIff | src/nvme.rs:661-669 | for a command over 8192 bytes at any place of the driver's buffer, aligned or not, the list offset is right if and only if the command starts at byte 0 or 4 of it: dword-aligned, and within the first 8 bytes |
| Prps.BatchElsewhere | src/nvme.rs:661-669 | behind those bytes the entry named is never that of the next page |
| Layout.ExecPiece | src/nvme.rs:105-152 | one command of a transfer, executed after any others of it, succeeds and adds exactly its piece |
| Layout.ExecOrder | src/nvme.rs:105-152 | after any commands of a transfer, in any order, exactly their pieces hold the source's bytes |
| Layout.OrderIndependent | src/nvme.rs:105-152 | every order of execution gives the outcome of submission order, which is one assignment of the whole buffer |
| Layout.ExecNext | src/nvme.rs:567-576 | executed one after another, each command extends the transfer, or is refused exactly when its blocks do not exist |
| Layout.WriteThenRead | src/nvme.rs:567-619 | a read of written blocks returns exactly the bytes written, whatever happened to memory in between, and nothing else is touched |
| Memory.ShiftUpLeast | src/memory.rs:42-47 | `shift_up` is the least multiple of the page size at or above its argument, and idempotent |
| Memory.ShiftUpStable | src/memory.rs:42-47 | a rounded size needs no further rounding for any page size not larger |
| Memory.CutsTile | src/memory.rs:138-157 | the chunks are non-empty, contiguous, cover the buffer once, and all but the last are full |
| Memory.ChunkBlocks | src/nvme.rs:568-572 | for chunk sizes that are multiples of 512, the chunks rounded up to blocks are the chunks of the rounded-up buffer: their block counts add up |
| Memory.ReadInsideIff | src/nvme.rs:611-619 | a read leaves the memory behind its buffer alone, whatever the data, if and only if the buffer is whole blocks |
| Memory.CutsAligned | src/memory.rs:138-157 | chunks of whole pages begin at page offsets |
| Memory.CutsAt | src/memory.rs:138-157 | chunk i begins i chunk sizes into the buffer, and is full but for the last |
| Memory.CutsNumber | src/memory.rs:138-157 | there are as many chunks as the buffer has chunk sizes, begun ones included |
| Memory.SliceInside | src/memory.rs:175-184 | a slice lies inside its buffer, at the same place in both address spaces |
| Memory.DmaChunks.constructor | src/memory.rs:167-173 | the iterator starts before the first chunk |
| Memory.DmaChunks.Next | src/memory.rs:138-157 | the k-th call returns the k-th chunk of the tiling, and None exactly after the last |
| PairIo.NextCommand | src/nvme.rs:108-150 | the running `lba` of the loop is the start plus the blocks of all earlier chunks |
| PairIo.PairCommandsMove | src/nvme.rs:105-152 | for a page-aligned buffer the commands move it piece by piece, over consecutive blocks, with PRPs that describe exactly each piece |
| PairIo.PairCommandsNumber | src/nvme.rs:108 | one command for every 8192 bytes, begun ones included |
| PairIo.PairCommandFields | src/nvme.rs:108-150 | command i in full: namespace 1, the identifier of queue id and slot, direction, the i-th 16 blocks, the i-th 8192 bytes, and a second PRP only past 4096 bytes |
| PairIo.PairCommandIds | src/nvme.rs:117-135 | for ids below 32 and up to 2048 slots the identifier is `id * 2048 + slot`, and differs between commands within a ring's length |
| PairIo.StayIdentified | src/nvme.rs:117-150 | whatever part of a transfer is queued, every command of the pair carries the identifier of its slot |
| Queues.SubmissionQueue.constructor | src/queues.rs:52-62 | zeroed memory of `QUEUE_LENGTH` entries, the length clamped to it |
| Queues.SubmissionQueue.Submit | src/queues.rs:81-91 | one entry is written at the old tail and nothing else, the tail moves one slot, and the ring reads as empty exactly if it was full |
| Queues.SubmissionQueue.SubmitChecked | src/queues.rs:72-78 | refused, changing nothing, exactly when full |
| Queues.CompletionQueue.constructor | src/queues.rs:109-118 | zeroed memory, head 0, phase true, the length clamped |
| Queues.CompletionQueue.Complete | src/queues.rs:120-133 | returns the entry at the head exactly if its tag is the expected phase, moves one slot, and flips the phase exactly at slot 0 |
| Queues.CompletionQueue.SkipTo | src/queues.rs:135-141 | head and phase before the spin of `complete_n` |
| ControllerModel.DrainedOrder | src/nvme.rs:157-176 | when all is answered, the executed commands are the submitted ones in some order, each once |
| ControllerModel.DrainedStatus | src/nvme.rs:157-176 | each completion carries the status its command had when it was executed |
| ControllerModel.DrainedTransfer | src/nvme.rs:716-751 | when all commands of a transfer are answered, in whatever order, every completion reports success and the data is that of one assignment |
| ControllerModel.DrainedSingle | src/nvme.rs:835-837 | the same for a single command and its own status |
| ControllerModel.Controller.StepOnce | src/queues.rs:147-154 | one step of the controller's choice: memory and protocol stay coupled, the driver's part is untouched, the debt falls |
| ControllerModel.Controller.Interleave | src/nvme.rs:138-141 | any number of such steps between two actions of the driver |
| QueuePair.RoomBound | src/nvme.rs:157-163 | between calls the free room is at least len - 1 less the outstanding commands, and all of it when drained, although `sq_head` reports fetches and not completions |
| QueuePair.RingIdsDistinct | src/nvme.rs:117-150 | in every state, the entries from the head the driver knows carry distinct identifiers, if the slots fit the free bits |
| QueuePair.NvmeQueuePair.constructor | src/nvme.rs:494-498 | a new pair is coupled to fresh rings and is empty |
| QueuePair.NvmeQueuePair.SubmitIo | src/nvme.rs:105-152 | exactly the first k chunks are queued, in order, with consecutive LBAs, block counts and PRPs, and k is below their number only if the ring filled up |
| QueuePair.NvmeQueuePair.Push | src/nvme.rs:138-147 | one entry is queued and rung exactly if there is room |
| QueuePair.NvmeQueuePair.CompleteSpin | src/queues.rs:147-154 | the spin terminates against every controller, which takes any number of steps between two looks, and takes the completion waited for |
| QueuePair.NvmeQueuePair.CompleteN | src/queues.rs:135-145 | n completions are taken and nothing else the driver owns changes |
| QueuePair.NvmeQueuePair.Acknowledge | src/nvme.rs:160-163 | the head doorbell and the latch bring the pair back to rest, whatever the controller does before, between and after |
| QueuePair.NvmeQueuePair.CompleteIo | src/nvme.rs:157-176 | n completions are consumed, the result is that of the last of them, and a drained pair is empty |
| QueuePair.NvmeQueuePair.PollEntry | src/nvme.rs:178-184 | takes the oldest posted completion if there is one, never blocks |
| QueuePair.NvmeQueuePair.QuickPoll | src/nvme.rs:178-199 | returns None only if nothing was posted at the call; a failed command counts like any other; a drained pair is empty |
| QueuePair.NvmeQueuePair.QuickPollResult | src/nvme.rs:219-240 | Err exactly for a failed command, whose completion is consumed all the same |
| QueuePair.PairTransferDone | src/nvme.rs:105-176 | a buffer submitted in full and drained: every completion reports success and the disk (or buffer) is that of one assignment of the whole buffer |
| ManyTransfers.EffectStep | src/nvme.rs:105-152 | one more of several independent transfers, in whatever order, adds exactly its own effect |
| ManyTransfers.EffectUnique | src/nvme.rs:105-152 | when all are made there is only one possible outcome |
| ManyTransfers.AssignmentOrder | src/nvme.rs:105-152 | assignments of buffers whose blocks and memory are apart can be made in any order |
| ManyTransfers.CommandOrder | src/nvme.rs:105-152 | commands of several transfers executed in any order give the outcome of the assignments |
| ManyTransfers.PiecesAreWhole | src/nvme.rs:108-150 | a transfer is the assignments of its chunks |
| ManyTransfers.RequestsMake | src/nvme.rs:105-152 | the commands several `submit_io` calls queue one after another make exactly their chunks |
| ManyTransfers.DrainedIndependent | src/nvme.rs:105-176 | commands that make independent transfers, submitted to a drained pair: once drained, every completion reports success and the data is that of the assignments |
| ManyTransfers.ManyTransfersDone | src/nvme.rs:105-176 | several buffers submitted before any completion is taken, with blocks and memory apart: once drained, every completion reports success and the data is that of all the assignments |
| ManyTransfers.TransferAll | src/nvme.rs:105-176 | a client that submits all of them and waits once ends drained, successful and with that data |
| ManyPairs.RunAccount | examples/throughput.rs:99-166 | over every interleaving of the steps of several pairs and their controllers, the data is what the executed commands of all pairs made of it, in the order of execution; each was executed with its true status, and every result is accounted for |
| ManyPairs.FlatAt | examples/throughput.rs:99-166 | the commands of all pairs, pair after pair, hold command i of pair p at its place |
| ManyPairs.PairsDone | examples/throughput.rs:99-166 | independent transfers on several pairs of one disk: once every pair is drained, in every interleaving, the data is that of all the assignments, and every completion on every pair reports success |
| ManyPairs.RoundBegun | examples/throughput.rs:99-166 | no interleaving takes back what was submitted before the round, on any pair |
| ManyPairs.SeveralPairsDone | examples/throughput.rs:99-166 | the same for threads that call `submit_io` on pairs of their own, for buffers with blocks and memory apart |
| Batches.PowersPlaced | src/nvme.rs:727-746 | batches of commands of 512 to 8192 bytes, a power of two, are always placed so that their PRPs can describe them |
| Batches.PlacedIff | src/nvme.rs:661-669 | a command of a batch, at any offset, is described correctly if and only if it is well placed: dword-aligned, and up to 8192 bytes page-aligned or inside one page, above that within the first 8 bytes |
| Batches.LongPlacedIff | src/nvme.rs:661-669 | of commands over 8192 bytes exactly the first is well placed |
| Batches.BatchMoves | src/nvme.rs:727-746 | if `batch_len * blocks * 512` is the chunk, the commands tile the chunk and a contiguous range of blocks exactly |
| Batches.BatchNotEmpty | src/nvme.rs:731-733 | a batch has at most one command for each block of its chunk, hence at most 4096 |
| Batches.SizeBounds | src/nvme.rs:656-657 | a command of a batch has at least one block and no more than the chunk; for a chunk of up to 2 MiB that is what both assertions ask |
| Batches.BatchLenExact | src/nvme.rs:731 | a batch has as many commands as were asked for, or one for each whole block of the chunk if that is fewer; none exactly if none was asked for or there is no whole block |
| Batches.BatchSizeExact | src/nvme.rs:732 | the stretches are all of one length, the greatest for which they fit the chunk |
| BatchLimits.DividesIff | src/nvme.rs:731-733 | the blocks of a batch are its whole multiples of one block per command, and the chunk is used up if and only if its length is such a multiple |
| BatchLimits.TilesIff | src/nvme.rs:731-746 | tiling as a caller can check it: no remainder, and every command well placed |
| BatchLimits.BatchFields | src/nvme.rs:661-690 | command i of a batch in full: namespace, the slot as identifier, direction, its blocks, its stretch, and a second PRP only past 4096 bytes |
| BatchLimits.BatchIdsDistinct | src/nvme.rs:661-690 | the commands of a batch carry different identifiers |
| BatchLimits.BatchTouches | src/nvme.rs:727-750 | no execution of a batch, in any order, changes the disk outside the blocks its commands name, or memory if it is a write |
| BatchLimits.MisplacedMisses | src/nvme.rs:661-669 | with the fill of `init`, the PRPs of a dword-aligned but badly placed command are refused, or send the byte behind its first page elsewhere |
| BatchLimits.LostByte | src/nvme.rs:727-750 | a batch that does not tile its chunk has a byte that no command moves |
| BatchLimits.BatchCorrectIff | src/nvme.rs:727-750 | one batch is the assignment of its chunk for all data if and only if it tiles the chunk, with a failing disk and memory for every other batch |
| BatchLimits.BlocksFromIff | src/nvme.rs:727-751 | a call advances by at most its data, and by all of it if and only if every batch divides its chunk |
| BatchLimits.RemainderLost | src/nvme.rs:716-754 | a call that leaves a remainder does not write what it was given, unless the disk held its last byte already |
| BatchCalls.StretchesMake | src/nvme.rs:727-750 | the commands of a well placed batch, remainder or not, make the whole blocks of their stretches, and these transfers are independent of each other |
| BatchCalls.HeadsAt | src/nvme.rs:735-749 | in what is written, byte k of command i is byte k of stretch i of the chunk |
| BatchCalls.SpreadMoved | src/nvme.rs:776-792 | in what is read, byte k of stretch i is byte k of the i-th blocks |
| BatchCalls.SpreadKept | src/nvme.rs:776-792 | ... and a byte behind the blocks of its stretch is what the buffer held before |
| BatchCalls.BatchWrites | src/nvme.rs:727-750 | the assignments of a written batch are one assignment of those bytes to contiguous blocks |
| BatchCalls.BatchReads | src/nvme.rs:768-792 | the assignments of a batch read fill the buffer so, and change nothing else |
| BatchCalls.TiledStretches | src/nvme.rs:727-750 | for a batch that tiles its chunk they are the assignment of the chunk |
| BatchCalls.TilesFromIff | src/nvme.rs:727-751 | a call tiles its chunks if and only if its batches are well placed and divide them |
| BatchCalls.KeptIff | src/nvme.rs:727-751 | what a call writes is all of its data if and only if every batch divides its chunk |
| BatchCalls.ReadWhole | src/nvme.rs:768-793 | if every batch divides its chunk, a read delivers just the bytes of the blocks, whatever the buffer held |
| BatchCalls.CommandsFromIff | src/nvme.rs:727-733 | no batch of a call is empty if and only if commands were asked for and what is left over of whole 2 MiB is nothing or at least 512 bytes |
| BatchCalls.WholeChunksTile | src/nvme.rs:727-746 | transfers of whole 2 MiB by 256, 512, 1024, 2048 or at least 4096 commands each tile their chunks |
| BatchCalls.WritingStep | src/nvme.rs:727-751 | one chunk of a well placed `batched_write`: what is on the disk, with what is still to come, stays what the whole call writes |
| BatchCalls.ReadingStep | src/nvme.rs:768-793 | likewise for `batched_read`, with the buffer's bytes carried from chunk to chunk |
| CallLimits.PlacedWrite | src/nvme.rs:716-754 | executed in any orders, a well placed call leaves the disk that `BatchedWrite` promises |
| CallLimits.PlacedRead | src/nvme.rs:758-795 | ... or delivers what `BatchedRead` promises |
| CallLimits.WriteTouches | src/nvme.rs:716-754 | executed in any orders, placed well or not, a write changes no more than the blocks its batches advance by |
| CallLimits.WriteEndsIff | src/nvme.rs:716-754 | `batched_write` whose chunks fit the buffer can end if and only if none of its batches is empty |
| CallLimits.ReadEndsIff | src/nvme.rs:758-795 | likewise `batched_read` |
| CallLimits.UntiledWrite | src/nvme.rs:716-754 | for every call that does not tile its chunks, a disk, a memory and data that it does not write, in whatever orders its batches are executed |
| CallLimits.UntiledRead | src/nvme.rs:758-795 | likewise a disk that it does not deliver |
| CallLimits.WriteRightIff | src/nvme.rs:716-754 | `batched_write` ends and writes what it was given, for all data and all orders of execution, if and only if every batch tiles its chunk |
| CallLimits.ReadRightIff | src/nvme.rs:758-795 | `batched_read` ends and delivers the blocks, for all data and all orders, if and only if every batch tiles its chunk |
| Device.SendStep | src/nvme.rs:568-572 | the next chunk is refused exactly when its blocks do not exist, and otherwise extends the transfer |
| Device.NamespaceFields | src/nvme.rs:797-834 | the command of `namespace_io` in full: identifier, namespace, direction, blocks, address, and a second PRP only past 4096 bytes |
| Device.NvmeDevice.constructor | src/nvme.rs:324-326 | the list after `init`: entry i - 1 is page i of the driver's buffer, and the last entry is not set; the device's own pair is empty and has id 1 |
| Device.NvmeDevice.Finish | src/nvme.rs:693-713 | the device's own `complete_io` and `unwrap`: succeeds exactly if the last of the n completions does |
| Device.NvmeDevice.NamespaceIo | src/nvme.rs:797-838 | one command, submitted unchecked and safely so, is executed once; the data is what it makes of it, and the call panics exactly if it fails; it is queued with the slot as its identifier |
| Device.NvmeDevice.Write | src/nvme.rs:567-576 | succeeds exactly when the blocks exist, and then the disk is that of one assignment of the whole buffer; otherwise a whole number of chunks was written and the next does not fit; every command is for namespace 1, and there is one for every 8192 bytes |
| Device.NvmeDevice.Read | src/nvme.rs:611-619 | succeeds exactly when the blocks exist, and then the buffer is that of one assignment; memory outside its whole blocks and the disk are unchanged, and the bytes behind a ragged buffer are the rest of its last block |
| Device.NvmeDevice.WritePrp | src/nvme.rs:579-607 | the same for chunks of 128 pages, through a list rewritten for each chunk, with one command for every 524288 bytes |
| Device.NvmeDevice.FillList | src/nvme.rs:588-593 | the list holds the pages of the chunk, inside the page of 512 entries, before the command is sent |
| Device.NvmeDevice.SubmitBatch | src/nvme.rs:735-749 | starting drained, no command of a batch meets a full ring; all are queued in order |
| Device.NvmeDevice.WholeChunksFine | src/nvme.rs:716-754 | for transfers of whole 2 MiB by those numbers of commands, the conditions under which batched calls move exactly the data hold as soon as the blocks exist and a chunk fits the buffer |
| Device.NvmeDevice.RunBatch | src/nvme.rs:727-751 | a batch whose commands are well placed, and whose blocks exist, succeeds and is the assignments of its stretches; one that tiles its chunk is one assignment of the chunk; any batch is executed in some order and touches its own blocks only |
| Device.NvmeDevice.BatchedWrite | src/nvme.rs:716-754 | if every command is well placed, a chunk fits the buffer and the blocks named exist, the call does not panic and the disk holds the heads of all stretches one behind the other, all else unchanged; if every batch tiles its chunk, that is the bytes; a call that returns is one of the executions `WriteRightIff` is about; it does not return if a batch is empty; in any case the disk is unchanged outside the blocks the batches advance by |
| Device.NvmeDevice.BatchedRead | src/nvme.rs:758-795 | under the same conditions the array receives the blocks in the heads of its stretches, with the buffer's old bytes between them, or just the bytes of the blocks; a call that returns is one of the executions `ReadRightIff` is about, and no batch was empty; in any case the disk is unchanged |
| RoundTrip.WriteClearRead | tests/simple_read_write.rs:17-30 | for every buffer, bytes and address: write, clear and read succeed exactly when the blocks exist, the bytes come back, and nothing outside the buffer's blocks changes |
| Worker.OneCommand | examples/throughput.rs:145-149 | a 4 KiB slice makes one command |
| Worker.Poll | examples/throughput.rs:136-139 | the decrements of the inner loop never underflow, the counter stays the number of outstanding commands, and all that had been posted at the call has been taken |
| Worker.Advance | examples/throughput.rs:140-151 | one completion is taken exactly if the depth is reached, and then exactly one operation is queued from a slice inside the buffer |
| Worker.Work | examples/throughput.rs:125-160 | for every poll timing and completion order: counter between 0 and the depth, every operation queued once with its block and slice, the slice being the count of commands outstanding when it was submitted, all that had arrived when an iteration began taken before it submits, `total_io_ops` equal to the submissions, the ring empty at the assertion |
| Worker.OperationFields | examples/throughput.rs:128-149 | each operation in full, in both modes: in random mode the eight blocks of its own draw, its slice of 4096 bytes, direction, namespace and identifier |
| Worker.WorkIdentified | examples/throughput.rs:145-149 | what the loop queues carries the identifiers of its slots |
| InFlight.NeverShareIff | examples/throughput.rs:140-151 | in every run of a client that submits below the depth, as Work does, the operations submitted and not yet taken use different slices if and only if the depth is at most 1 |
| InFlight.SharedSlice | examples/throughput.rs:136-151 | the run that leaves two operations on slice 1, for every ring of three and more slots |
| InFlight.OneUnderWay | examples/throughput.rs:136-151 | with one command outstanding, one operation is under way |
| InFlight.AheadBound | examples/throughput.rs:136-151 | a client that submits below the depth never has more than that outstanding |
| InFlight.NeverRepeatIff | src/nvme.rs:117-150 | in every run of a client that submits below the depth, the commands under way carry different identifiers if and only if the depth is at most 1, for every queue id and ring length |
| InFlight.RepeatedId | src/nvme.rs:117-150 | the run in which the first command waits while the ring goes once round, and the command that takes its slot takes its identifier, for every ring of three and more slots |
| Worker.AlwaysRoomIff | examples/throughput.rs:140-151 | fewer than `depth` outstanding commands leave room in every reachable state if and only if the depth is below the ring length |
| Worker.SequentialBlock | examples/throughput.rs:127-134 | in sequential mode every iteration uses the same block, and each the successor of the one before if and only if the namespace is one operation long |
| Worker.SequentialOperations | examples/throughput.rs:127-149 | so all operations queued in a sequential run decode to the same blocks |
| VfioModel.ClearLowRounds | src/vfio.rs:412-413 | masking the low bits rounds down to a multiple of the power of two |
| VfioModel.AlignUpLeast | src/vfio.rs:412-413 | the mask expression gives the least multiple of 2 MiB at or above the address |
| VfioModel.WindowPartition | src/vfio.rs:408-419 | for every base and size, prefix, window and suffix partition the over-sized mapping |
| VfioModel.MunmapExactIff | src/vfio.rs:481-489 | deallocation unmaps the buffer and nothing else, whatever else is mapped, if and only if its size is a multiple of the current page size |
| VfioModel.LiveBuffer | src/vfio.rs:481-489 | a live buffer is a whole number of pages of every size not larger than that of its allocation |
| VfioModel.ExactNew | src/vfio.rs:466-475 | a buffer over free addresses keeps both address spaces the disjoint union of the live buffers, also where IOVA equals virtual address |
| VfioModel.ExactFreed | src/vfio.rs:481-489 | so does removing one, from both spaces or, when the last unmapping fails, from the device's |
| VfioModel.Vfio.Allocate2Mib | src/vfio.rs:399-437 | succeeds exactly for a mapping that is not aligned already and faultless calls; then exactly the aligned window is mapped in addition; an aligned mapping is left behind whole |
| VfioModel.Vfio.Allocate | src/vfio.rs:466-475 | a new buffer exactly if there is a mapping, the size is not zero, the trimming of a huge page succeeds and the IOMMU accepts it; then whole pages in both spaces, at the mapping or its aligned window; otherwise no new buffer and no new IOVA, and what stays mapped in the process is accounted for |
| VfioModel.Vfio.Deallocate | src/vfio.rs:481-489 | exactly the buffer leaves both spaces, if the page size is no larger than at its allocation |
| AdminQueueModel.AccountSettled | src/nvme.rs:840-860 | once the one admin command outstanding is answered, it was carried out once, and the answer carries its status |
| AdminQueueModel.AdminQueue.Enqueue | src/nvme.rs:840-846 | the unchecked `submit` always has room, although the driver never latches the reported head |
| AdminQueueModel.AdminQueue.Receive | src/queues.rs:147-154 | the spin ends against every controller and takes the one completion |
| AdminQueueModel.AdminQueue.Exchange | src/nvme.rs:840-850 | any number of exchanges over the admin ring: each command is carried out exactly once if accepted and not at all otherwise, and the completion says which and carries its identifier |
| Lifecycle.StrideIs | src/nvme.rs:466-480 | the doorbell stride is 4 shifted by the capability's exponent |
| Lifecycle.DoorbellsDistinctIff | src/nvme.rs:466-480 | the doorbells of the first n ids are distinct if and only if n is at most 32768 |
| Lifecycle.RegisterAgreesIff | src/nvme.rs:874-892 | for either doorbell, the two computations of its address agree if and only if the product fits 16 bits |
| Lifecycle.CreatedIff | src/nvme.rs:462-499 | creation succeeds exactly with memory, no fault, a doorbell inside the BAR, a usable id and size, and no completion queue left over under that id |
| Lifecycle.CreateOutcome | src/nvme.rs:462-499 | for every failure which error is returned, which memory stays allocated, and which queues the controller has, with their memory and length |
| Lifecycle.CreatedPair | src/nvme.rs:466-499 | the pair returned has the next id, the two pieces of memory, and the doorbells `0x1000 + stride * 2 * id` and `0x1000 + stride * (2 * id + 1)`; it is the one recorded as issued |
| Lifecycle.FirstPair | src/nvme.rs:387-404 | the first pair after `init` has id 2 and the fifth and sixth doorbell registers |
| Lifecycle.CreateKeeps | src/nvme.rs:462-499 | every outcome of creation keeps the invariant |
| Lifecycle.DeleteKeeps | src/nvme.rs:502-514 | so does every outcome of deletion |
| Lifecycle.DeleteOutcome | src/nvme.rs:502-514 | what is gone after each kind of failure, of the queues and of the memory; memory is given back only after both queues, and both pieces were allocated |
| Lifecycle.StartInv | src/nvme.rs:387-404 | the state after `init`, with the device's own pair, satisfies the invariant |
| Lifecycle.QueueSafety | src/nvme.rs:462-514 | over every run with any failures, live submission queues have live completion queues, every live queue starts in allocated memory, and no two in the same piece |
| Lifecycle.DoorbellSafety | src/nvme.rs:466-480 | the doorbells of all pairs ever issued lie inside the BAR and are never shared |
| Lifecycle.DeletedOnce | src/nvme.rs:502-514 | once a pair's submission queue was deleted, every later deletion of it, in every run, is refused before anything is done: its memory is given back at most once |
| Lifecycle.WedgedIff | src/nvme.rs:462-499 | one creation leaves a completion queue under the next id exactly when that queue was made and its submission queue was not |
| Lifecycle.WedgedForever | src/nvme.rs:462-499 | from then on no run creates a queue pair |
| Lifecycle.RingsInsideIff | src/nvme.rs:471-491 | both rings, at the length the controller is told, fit the memory allocated for them if and only if the length is at most a capacity given by the page size |
| Lifecycle.CreatedInsideIff | src/nvme.rs:462-499 | after a successful creation all rings lie in their memory if and only if the length was within that capacity |
| Lifecycle.StartInside | src/nvme.rs:387-404 | after `init` the rings of the device's own pair, of `QUEUE_LENGTH` entries, lie in the memory allocated for them, for each page size |
| Lifecycle.RingSafety | src/nvme.rs:462-514 | over every run of creations within the capacity and of deletions, with any failures, each ring as the controller addresses it lies in allocated memory, and no two share a byte |
| Lifecycle.AllocatorServes | src/vfio.rs:466-475 | what the allocator hands out is disjoint for the device, as queue creation relies on |
| Lifecycle.DeviceQueues.constructor | src/nvme.rs:387-404 | the driver's account agrees with the controller's after `init` |
| Lifecycle.DeviceQueues.SubmitAndCompleteAdmin | src/nvme.rs:840-860 | one exchange over the admin ring, with the tail as identifier: succeeds exactly if the status is success; a refused command changes nothing |
| Lifecycle.DeviceQueues.CreateIoQueuePair | src/nvme.rs:462-499 | the steps of the method, with their early returns, are the transition the lemmas above are about |
| Lifecycle.DeviceQueues.DeleteIoQueuePair | src/nvme.rs:502-514 | likewise for deletion |

## Left out

- Memory ordering, volatile access and timing: each ring or doorbell access is one atomic step.
- `stats`: batched completions count calls and not commands, so nothing is conserved.
- The reset and enable sequence and the capability output of `init`, `identify_*`, `format_namespace`, and the log page and event commands: register writes and parsing.
- `write_copied` and `read_copied` as methods: their commands are `namespace_io` on the driver's buffer, right exactly up to 8192 bytes by `CopiedDescribedIff`; their chunks are 512 KiB.
- Namespaces with a block size other than 512 bytes.
- Chained PRP lists: the driver never writes one, and a list that would need one is a fault of the command.
- sysfs, ioctl and PCI access, VFIO group setup, and `src/physical.rs`: foreign calls; only their effect on the two address spaces is modelled.
- `Dma<T>` chunks for element types other than bytes: none is used.
- Buffers whose size is not a multiple of 4096 in `write_prp`: for a chunk of less than a page the source divides by zero.
- Unaligned buffers in `write`, `read` and `submit_io`: `NextPageIff` gives the exact condition for one command, with the dword alignment that NVM Express 1.4 asks of PRP1 in section 4.3; a controller that clears the low bits of the address instead of reporting an error is not modelled.
- QueuePair.NvmeQueuePair.CompleteIo: requires n below the ring length and at most the outstanding commands, because otherwise the source spins forever (`WaitEndsIff`) or, beyond the ring length, may return falsely (`BatchWaitTruthfulIff`).
- QueuePair.NvmeQueuePair.SubmitIo: the queue pair's host memory and disk are not named in the contract; `PairTransferDone` and `ManyTransfersDone` relate them once the pair is drained.
- Device.NvmeDevice.BatchedWrite: for a batch with a badly placed command the contract says what is left alone and, by `UntiledWrite`, that some data is lost, not what the blocks hold or whether the call panics: both depend on where the wrong PRPs point and on which completion is last.
- Device.NvmeDevice.BatchedRead: likewise.
- CallLimits.WriteRightIff: for a list that is as `init` filled it, as long as only batched calls use it; `BatchedWrite` itself asks for that only if a command is over 8192 bytes.
- CallLimits.ReadRightIff: likewise.
- Worker.Work: requires a depth of at least 1, because the source waits forever at depth 0, a depth below the ring length, because of `AlwaysRoomIff`, and a namespace of at least one operation (8 blocks), because for a smaller one the source takes a remainder by zero; the contents of the buffer are not followed.
- Lifecycle.DeviceQueues.constructor: the two admin commands of `init` that create the device's own pair have succeeded; if they do not, `init` returns an error and there is no device.
- Lifecycle.QueueSafety: for a register space that ends before the doorbell of id 32767, so that the bounds check stops ids before their 16-bit arithmetic wraps.
- VfioModel.Vfio.Allocate2Mib: a fixed mapping that fails is taken to leave the window as it was.
