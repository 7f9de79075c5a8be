/** The worker loop of examples/throughput.rs: the client that keeps up to queueDepth commands
    outstanding on one queue pair, counting them itself. */
module Worker {
  import opened Arithmetic
  import opened Options
  import opened Ring
  import opened Commands
  import opened CommandIds
  import opened Prps
  import opened Protocol
  import opened ProtocolTheorems
  import opened Memory
  import opened PairIo
  import opened Queues
  import opened QueuePair

  const BLOCKS_PER_OP: nat := 8
  const BYTES_PER_OP: nat := 512 * BLOCKS_PER_OP

  /** One operation: 4 KiB to or from slice number `slot` of the buffer. */
  function Operation(id: nat, tail: nat, buffer: Dma, lba: nat, slot: nat, write: bool): Command {
    PairCommand(id, tail, lba * BLOCKS_PER_OP, Chunk(buffer.phys + slot * BYTES_PER_OP, BYTES_PER_OP), write)
  }

  /** The block of one iteration. The counter outside the loop is shadowed, never advanced. */
  function NextLba(random: bool, draw: nat, nsBlocks: nat): nat
    requires nsBlocks > 0
  {
    var lba := 0;
    if random then draw else (lba + 1) % nsBlocks
  }

  /** In sequential mode every iteration uses the same block; each uses the successor of the one
      before it exactly if the namespace is one operation long. */
  lemma SequentialBlock(nsBlocks: nat)
    requires nsBlocks > 0
    ensures forall draw, draw' :: NextLba(false, draw, nsBlocks) == NextLba(false, draw', nsBlocks)
    ensures (forall draw, draw' :: NextLba(false, draw', nsBlocks) == (NextLba(false, draw, nsBlocks) + 1) % nsBlocks)
            <==> nsBlocks == 1
  {
    var block := NextLba(false, 0, nsBlocks);
    if nsBlocks > 1 {
      assert block == 1 % nsBlocks;
      DivModUnique(1, nsBlocks, 0, 1);
      if nsBlocks == 2 {
        assert (block + 1) % nsBlocks == 0;
      } else {
        DivModUnique(2, nsBlocks, 0, 2);
      }
      assert NextLba(false, 0, nsBlocks) != (NextLba(false, 0, nsBlocks) + 1) % nsBlocks;
    }
  }

  /** submit_io cuts a 4 KiB slice into one command. */
  lemma OneCommand(id: nat, start: nat, len: nat, buffer: Dma, lba: nat, slot: nat, write: bool)
    requires len > 0 && (slot + 1) * BYTES_PER_OP <= buffer.size
    ensures PairCommands(id, start, len, Slice(buffer, slot * BYTES_PER_OP, (slot + 1) * BYTES_PER_OP),
                         lba * BLOCKS_PER_OP, write)
            == [Operation(id, Slot(start, len), buffer, lba, slot, write)]
  {
    hide Slot, PairCommand;
    var dma := Slice(buffer, slot * BYTES_PER_OP, (slot + 1) * BYTES_PER_OP);
    assert CutsFrom(BYTES_PER_OP, BYTES_PER_OP, PAIR_CHUNK) == [BYTES_PER_OP];
    assert Cuts(BYTES_PER_OP, PAIR_CHUNK) == [0, BYTES_PER_OP];
    assert ChunkOf(dma, PAIR_CHUNK, 0) == Some(Chunk(dma.phys, BYTES_PER_OP));
  }

  /** The operations of the first |slots| iterations. */
  function Operations(id: nat, start: nat, len: nat, buffer: Dma, plan: Plan, slots: seq<nat>): (r: seq<Command>)
    requires len > 0 && plan.nsBlocks > 0 && |slots| <= |plan.draws|
    ensures |r| == |slots|
  {
    seq(|slots|, k requires 0 <= k < |slots| =>
      Operation(id, Slot(start + k, len), buffer, NextLba(plan.random, plan.draws[k], plan.nsBlocks), slots[k],
                plan.write))
  }

  /** What varies from run to run: how many iterations there is time for and what they draw. */
  datatype Plan = Plan(draws: seq<nat>, nsBlocks: nat, random: bool, write: bool)

  /** Each operation in full: eight blocks, in random mode those of its own draw, to or from its slice
      of 4 KiB, with the identifier of its place in the ring. */
  lemma OperationFields(id: nat, start: nat, len: nat, buffer: Dma, plan: Plan, slots: seq<nat>, i: nat)
    requires len > 0 && 0 < plan.nsBlocks && plan.nsBlocks * 8 <= U64 && i < |slots| <= |plan.draws|
    requires plan.random ==> plan.draws[i] < plan.nsBlocks
    ensures var op := Operations(id, start, len, buffer, plan, slots)[i];
      && Lba(op) == (if plan.random then plan.draws[i] * 8 else 1 % plan.nsBlocks * 8) && Blocks(op) == 8
      && op.ptr0 == buffer.phys + slots[i] * 4096 && op.ptr1 == 0
      && (op.opcode == OP_WRITE <==> plan.write) && (op.opcode == OP_READ <==> !plan.write)
      && op.nsid == 1 && op.cid == PairCid(id, Slot(start + i, len))
  {
    hide Slot, PairCid;
    var block := if plan.random then plan.draws[i] else 1 % plan.nsBlocks;
    assert NextLba(plan.random, plan.draws[i], plan.nsBlocks) == block;
    OperationBlock(id, Slot(start + i, len), buffer, block, slots[i], plan.write);
  }

  lemma OperationBlock(id: nat, tail: nat, buffer: Dma, lba: nat, slot: nat, write: bool)
    requires lba * 8 < U64
    ensures var c := Operation(id, tail, buffer, lba, slot, write);
      && Lba(c) == lba * 8 && Blocks(c) == 8 && c.ptr0 == buffer.phys + slot * 4096 && c.ptr1 == 0
      && (c.opcode == OP_WRITE <==> write) && (c.opcode == OP_READ <==> !write)
      && c.nsid == 1 && c.cid == PairCid(id, tail)
  {
    hide PairCid;
    var addr := buffer.phys + slot * BYTES_PER_OP;
    IoRoundTrip(write, PairCid(id, tail), 1, lba * BLOCKS_PER_OP, BLOCKS_PER_OP, addr, NextPage(addr, BYTES_PER_OP));
  }

  /** So all operations of a sequential run are for the same blocks. */
  lemma SequentialOperations(id: nat, start: nat, len: nat, buffer: Dma, plan: Plan, slots: seq<nat>, i: nat, j: nat)
    requires len > 0 && 0 < plan.nsBlocks && plan.nsBlocks * BLOCKS_PER_OP <= U64 && |slots| <= |plan.draws|
    requires !plan.random && i < |slots| && j < |slots|
    ensures var ops := Operations(id, start, len, buffer, plan, slots);
      && Lba(ops[i]) == Lba(ops[j]) == 1 % plan.nsBlocks * BLOCKS_PER_OP
      && Blocks(ops[i]) == Blocks(ops[j]) == BLOCKS_PER_OP
  {
    hide Operations, Lba, Blocks;
    OperationFields(id, start, len, buffer, plan, slots, i);
    OperationFields(id, start, len, buffer, plan, slots, j);
  }

  /** What the loop submits keeps the commands of the pair identified by their slots. */
  lemma WorkIdentified(cmds: seq<Command>, id: nat, len: nat, buffer: Dma, plan: Plan, slots: seq<nat>)
    requires len > 0 && plan.nsBlocks > 0 && |slots| <= |plan.draws| && Identified(cmds, id, len)
    ensures Identified(cmds + Operations(id, |cmds|, len, buffer, plan, slots), id, len)
  {
    hide Slot, PairCid, NextLba, PairCommand;
    var more := Operations(id, |cmds|, len, buffer, plan, slots);
    forall k | 0 <= k < |cmds + more|
      ensures (cmds + more)[k].cid == PairCid(id, Slot(k, len))
    {
      if k >= |cmds| {
        var i: nat := k - |cmds|;
        PairCommandId(id, Slot(k, len), NextLba(plan.random, plan.draws[i], plan.nsBlocks) * BLOCKS_PER_OP,
                      Chunk(buffer.phys + slots[i] * BYTES_PER_OP, BYTES_PER_OP), plan.write);
      }
    }
  }

  lemma OneMore(id: nat, start: nat, len: nat, buffer: Dma, plan: Plan, slots: seq<nat>, slot: nat)
    requires len > 0 && plan.nsBlocks > 0 && |slots| < |plan.draws|
    ensures Operations(id, start, len, buffer, plan, slots + [slot]) == Operations(id, start, len, buffer, plan, slots)
            + [Operation(id, Slot(start + |slots|, len), buffer,
                         NextLba(plan.random, plan.draws[|slots|], plan.nsBlocks), slot, plan.write)]
  {
    hide Operation, NextLba, Slot;
  }

  /** The counter is the number of commands submitted and not yet consumed. */
  ghost predicate Counted(s: State, outstanding: nat, depth: nat) {
    outstanding == Outstanding(s) && outstanding <= depth < s.len
  }

  /** Below the depth there is room for one more, whatever the controller reported. */
  lemma CountedRoom(qpair: NvmeQueuePair, outstanding: nat, depth: nat)
    requires qpair.Valid() && Counted(qpair.peer.st, outstanding, depth)
    ensures outstanding < depth ==> Room(qpair.peer.st) > 0
    ensures outstanding == 0 <==> Drained(qpair.peer.st)
    ensures Drained(qpair.peer.st) ==> qpair.sub.IsEmpty()
    ensures qpair.sub.len == qpair.peer.st.len > 0 && |qpair.peer.st.submitted| >= qpair.peer.st.consumed
  {
    hide Parts, Slot, Phase;
    RoomBound(qpair.peer.st);
  }

  /** The inner loop: takes whatever has arrived. */
  method Poll(qpair: NvmeQueuePair, outstandingOps: nat, totalOps: nat, ghost depth: nat)
    returns (outstanding: nat, total: nat)
    requires qpair.Valid() && Counted(qpair.peer.st, outstandingOps, depth)
    modifies qpair.Repr()
    ensures qpair.Valid() && Counted(qpair.peer.st, outstanding, depth)
    ensures qpair.peer.st.submitted == old(qpair.peer.st.submitted) && outstanding + total == outstandingOps + totalOps
    ensures qpair.peer.st.ahead == old(qpair.peer.st.ahead)
    ensures |old(qpair.peer.st.posted)| <= qpair.peer.st.consumed
  {
    hide Inv, AtRest, Slot, Room, NvmeQueuePair.Valid;
    outstanding, total := outstandingOps, totalOps;
    while true
      invariant qpair.Valid() && Counted(qpair.peer.st, outstanding, depth)
      invariant qpair.peer.st.submitted == old(qpair.peer.st.submitted)
      invariant qpair.peer.st.ahead == old(qpair.peer.st.ahead)
      invariant outstanding + total == outstandingOps + totalOps
      invariant old(qpair.peer.st).posted <= qpair.peer.st.posted
      decreases outstanding
    {
      var some := qpair.QuickPoll();
      Resting(qpair);
      if !some {
        break;
      }
      outstanding, total := outstanding - 1, total + 1;
    }
  }

  lemma Resting(qpair: NvmeQueuePair)
    requires qpair.Valid()
    ensures 0 <= Outstanding(qpair.peer.st)
  {
    hide Parts, Slot, Phase;
    RoomBound(qpair.peer.st);
  }

  /** Makes room if the depth is reached, then submits one operation; its slice is the first
      behind those of as many operations as are outstanding. */
  method Advance(qpair: NvmeQueuePair, buffer: Dma, lba: nat, write: bool, depth: nat, outstandingOps: nat,
                 totalOps: nat)
    returns (outstanding: nat, total: nat)
    requires qpair.Valid() && Counted(qpair.peer.st, outstandingOps, depth)
    requires 1 <= depth && depth * BYTES_PER_OP <= buffer.size
    modifies qpair.Repr()
    ensures qpair.Valid() && Counted(qpair.peer.st, outstanding, depth) && outstanding > 0
    ensures outstanding + total == outstandingOps + totalOps + 1
    ensures qpair.peer.st.ahead == old(qpair.peer.st.ahead) + [outstanding - 1]
    ensures outstanding == if outstandingOps == depth then depth else outstandingOps + 1
    ensures qpair.peer.st.consumed == old(qpair.peer.st.consumed) + if outstandingOps == depth then 1 else 0
    ensures qpair.sub.len > 0 && qpair.peer.st.submitted == old(qpair.peer.st.submitted)
            + [Operation(qpair.id, Slot(|old(qpair.peer.st.submitted)|, qpair.sub.len), buffer, lba, outstanding - 1,
                         write)]
  {
    hide Inv, AtRest, Slot, Room, NvmeQueuePair.Valid, PairCommands, Operation;
    outstanding, total := outstandingOps, totalOps;
    if outstanding == depth {
      var _ := qpair.CompleteIo(1);
      outstanding, total := outstanding - 1, total + 1;
    }
    CountedRoom(qpair, outstanding, depth);
    OneCommand(qpair.id, |qpair.peer.st.submitted|, qpair.sub.len, buffer, lba, outstanding, write);
    var reqs := qpair.SubmitIo(Slice(buffer, outstanding * BYTES_PER_OP, (outstanding + 1) * BYTES_PER_OP),
                               lba * BLOCKS_PER_OP, write);
    outstanding := outstanding + 1;
  }

  /** When operation k is submitted, after `start` others and k of its own run, the arrived[k] completions
      that were there when its iteration began are not counted as outstanding any more. */
  ghost predicate Polled(start: nat, slots: seq<nat>, arrived: seq<nat>) {
    |arrived| == |slots| && forall k :: 0 <= k < |slots| ==> slots[k] + arrived[k] <= start + k
  }

  /** For every poll timing, every order of completion and every number of iterations: the
      counter never drops below zero or exceeds the depth, no slice leaves the buffer, no
      submission meets a full ring, every operation is counted exactly once, and the ring is
      empty at the end. What had arrived when an iteration began is taken before it submits. */
  method Work(qpair: NvmeQueuePair, buffer: Dma, queueDepth: nat, plan: Plan)
    returns (totalIoOps: nat, ghost slots: seq<nat>, ghost arrived: seq<nat>)
    requires qpair.Valid() && Drained(qpair.peer.st)
    requires 1 <= queueDepth < qpair.peer.st.len && queueDepth * BYTES_PER_OP <= buffer.size
    requires plan.nsBlocks > 0 && forall k :: 0 <= k < |plan.draws| ==> plan.draws[k] < plan.nsBlocks
    modifies qpair.Repr()
    ensures qpair.Valid() && Drained(qpair.peer.st) && qpair.sub.IsEmpty() && qpair.sub.len > 0
    ensures totalIoOps == |plan.draws| == |slots| && forall k :: 0 <= k < |slots| ==> slots[k] < queueDepth
    ensures qpair.peer.st.submitted == old(qpair.peer.st.submitted)
            + Operations(qpair.id, |old(qpair.peer.st.submitted)|, qpair.sub.len, buffer, plan, slots)
    ensures qpair.peer.st.ahead == old(qpair.peer.st.ahead) + slots
    ensures Polled(|old(qpair.peer.st.submitted)|, slots, arrived)
  {
    hide Inv, AtRest, NvmeQueuePair.Valid, PairCommands, Operation, Operations, Slot, Room, SubmissionQueue.IsEmpty;
    ghost var before := qpair.peer.st.submitted;
    var outstanding, k := 0, 0;
    totalIoOps, slots, arrived := 0, [], [];
    CountedRoom(qpair, outstanding, queueDepth);
    assert before == before + Operations(qpair.id, |before|, qpair.sub.len, buffer, plan, slots);
    while k < |plan.draws|
      invariant qpair.Valid() && Counted(qpair.peer.st, outstanding, queueDepth)
      invariant k == |slots| <= |plan.draws| && totalIoOps + outstanding == k
      invariant forall k :: 0 <= k < |slots| ==> slots[k] < queueDepth
      invariant qpair.peer.st.ahead == old(qpair.peer.st.ahead) + slots && Polled(|before|, slots, arrived)
      invariant qpair.peer.st.submitted == before + Operations(qpair.id, |before|, qpair.sub.len, buffer, plan, slots)
    {
      var lba := NextLba(plan.random, plan.draws[k], plan.nsBlocks);
      arrived := arrived + [|qpair.peer.st.posted|];
      outstanding, totalIoOps := Poll(qpair, outstanding, totalIoOps, queueDepth);
      outstanding, totalIoOps := Advance(qpair, buffer, lba, plan.write, queueDepth, outstanding, totalIoOps);
      OneMore(qpair.id, |before|, qpair.sub.len, buffer, plan, slots, outstanding - 1);
      slots := slots + [outstanding - 1];
      k := k + 1;
    }
    if outstanding != 0 {
      var _ := qpair.CompleteIo(outstanding);
    }
    totalIoOps := totalIoOps + outstanding;
    CountedRoom(qpair, 0, queueDepth);
  }

  // ---------------------------------------------------------------- how deep is too deep

  /** Whatever has happened on the pair, fewer than `depth` outstanding commands leave room. */
  ghost predicate AlwaysRoom(len: nat, depth: nat) {
    forall sq, cq, steps, s ::
      ValidInit(len, sq, cq) && Run(Init(len, sq, cq), steps) == Some(s) && AtRest(s) && Outstanding(s) < depth
      ==> Room(s) > 0
  }

  /** n submissions, to a controller that does nothing. */
  function Fill(n: nat): seq<Step> {
    if n == 0 then [] else Fill(n - 1) + [Submit(ZERO_COMMAND), RingSq]
  }

  lemma {:induction false} Filled(len: nat, sq: seq<Command>, cq: seq<Completion>, n: nat) returns (s: State)
    requires ValidInit(len, sq, cq) && n < len
    ensures Run(Init(len, sq, cq), Fill(n)) == Some(s) && AtRest(s) && Inv(s)
    ensures |s.submitted| == n && s.consumed == 0 && s.seen == 0 && s.len == len
    ensures s.ahead == Rising(0, n) && s.fetched == [] && s.posted == [] && s.toExecute == {}
  {
    hide Parts, Slot, Phase, Apply, Run, Enabled, AtRest;
    InitInv(len, sq, cq);
    if n == 0 {
      s := Init(len, sq, cq);
      assert Run(s, []) == Some(s) && AtRest(s) by { FillNone(len, sq, cq); }
    } else {
      var m := Filled(len, sq, cq, n - 1);
      FillOne(Init(len, sq, cq), Fill(n - 1), m, ZERO_COMMAND);
      assert Rising(0, n - 1) + [n - 1] == Rising(0, n);
      s := Apply(Apply(m, Submit(ZERO_COMMAND)), RingSq);
    }
  }

  lemma FillNone(len: nat, sq: seq<Command>, cq: seq<Completion>)
    requires ValidInit(len, sq, cq)
    ensures Run(Init(len, sq, cq), []) == Some(Init(len, sq, cq)) && AtRest(Init(len, sq, cq))
  {
  }

  lemma FillOne(init: State, steps: seq<Step>, m: State, cmd: Command)
    requires Wf(init) && Run(init, steps) == Some(m) && Inv(m) && AtRest(m) && Room(m) > 0
    ensures Enabled(m, Submit(cmd))
    ensures var s := Apply(m, Submit(cmd));
      && Enabled(s, RingSq)
      && var t := Apply(s, RingSq);
      && Run(init, steps + [Submit(cmd), RingSq]) == Some(t) && Inv(t) && AtRest(t)
      && t.submitted == m.submitted + [cmd] && t.consumed == m.consumed && t.seen == m.seen && t.len == m.len
      && t.ahead == m.ahead + [Outstanding(m)]
      && t.fetched == m.fetched && t.posted == m.posted && t.answers == m.answers && t.toExecute == m.toExecute
      && t.reported == m.reported && t.toPost == m.toPost && t.freed == m.freed
  {
    hide Indices, SqMemory, CqMemory, Entries, Taken, Protocol.Work, Logs, Slot, Phase, Run;
    FullIff(m);
    var s := Apply(m, Submit(cmd));
    StepInv(m, Submit(cmd));
    StepInv(s, RingSq);
    SubmitEffect(m, cmd);
    RingSqEffect(s);
    assert steps + [Submit(cmd), RingSq] == (steps + [Submit(cmd)]) + [RingSq];
    RunAppend(init, steps, Submit(cmd));
    RunAppend(init, steps + [Submit(cmd)], RingSq);
  }

  /** The limit on the queue depth is exact: at depth len an idle controller makes the ring
      refuse a command that the loop counts all the same. */
  lemma AlwaysRoomIff(len: nat, depth: nat)
    requires 2 <= len <= QUEUE_LENGTH
    ensures AlwaysRoom(len, depth) <==> depth < len
  {
    hide Parts, Slot, Phase, Apply, AtRest, Run;
    if depth < len {
      forall sq, cq, steps, s |
        ValidInit(len, sq, cq) && Run(Init(len, sq, cq), steps) == Some(s) && AtRest(s) && Outstanding(s) < depth
        ensures Room(s) > 0
      {
        InitInv(len, sq, cq);
        RunInv(Init(len, sq, cq), steps);
        LenKept(Init(len, sq, cq), steps);
        RoomBound(s);
      }
    } else {
      var sq, cq := seq(len, _ => ZERO_COMMAND), seq(len, _ => ZERO_COMPLETION);
      var s := Filled(len, sq, cq, len - 1);
      assert Room(s) == 0 && Outstanding(s) < depth;
    }
  }
}
