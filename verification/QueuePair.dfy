/** NvmeQueuePair of src/nvme.rs, running against a controller that may take any number of
    steps between any two actions of the driver. */
module QueuePair {
  import opened Options
  import opened Ring
  import opened Commands
  import opened CommandIds
  import opened Protocol
  import opened ProtocolTheorems
  import opened Transfers
  import opened Layout
  import opened Prps
  import opened Memory
  import opened PairIo
  import opened Queues
  import opened ControllerModel

  /** Between calls: both doorbells are up to date and the last reported head is latched. */
  ghost predicate AtRest(s: State) {
    && s.rung == |s.submitted| && s.freed == s.consumed
    && (s.consumed > 0 ==> s.consumed <= |s.reported| && s.seen == s.reported[s.consumed - 1])
  }

  predicate Drained(s: State) { s.consumed == |s.submitted| }

  function Outstanding(s: State): int { |s.submitted| - s.consumed }

  /** Entries that can be submitted before the ring is full. */
  function Room(s: State): int { s.seen + s.len - 1 - |s.submitted| }

  /** from, from + 1, ... */
  function Rising(from: int, n: nat): (r: seq<int>)
    ensures |r| == n
  {
    seq(n, i => from + i)
  }

  /** The first n of `cmds` have been queued, and nothing else has happened to the driver's side. */
  ghost predicate Queued(s: State, t: State, cmds: seq<Command>, n: nat) {
    && n <= |cmds| && n <= Room(s) && t.consumed == s.consumed && t.len == s.len && t.seen == s.seen
    && t.submitted == s.submitted + cmds[..n] && t.ahead == s.ahead + Rising(Outstanding(s), n)
  }

  lemma QueuedNone(s: State, cmds: seq<Command>)
    requires 0 <= Room(s)
    ensures Queued(s, s, cmds, 0)
  {
  }

  lemma QueuedFacts(s: State, t: State, cmds: seq<Command>, n: nat)
    requires Queued(s, t, cmds, n)
    ensures n <= |cmds| && n <= Room(s) && t.consumed == s.consumed && t.len == s.len
    ensures t.submitted == s.submitted + cmds[..n] && |t.submitted| == |s.submitted| + n
    ensures t.ahead == s.ahead + Rising(Outstanding(s), n) && Room(t) == Room(s) - n
  {
  }

  lemma QueuedSame(s: State, t: State, u: State, cmds: seq<Command>, n: nat)
    requires Queued(s, t, cmds, n) && u.consumed == t.consumed && u.len == t.len && u.seen == t.seen
    requires u.submitted == t.submitted && u.ahead == t.ahead
    ensures Queued(s, u, cmds, n)
  {
  }

  lemma QueuedMore(s: State, t: State, u: State, cmds: seq<Command>, n: nat)
    requires Queued(s, t, cmds, n) && n < |cmds| && Room(t) > 0
    requires u.consumed == t.consumed && u.len == t.len && u.seen == t.seen
    requires u.submitted == t.submitted + [cmds[n]] && u.ahead == t.ahead + [Outstanding(t)]
    ensures Queued(s, u, cmds, n + 1)
  {
  }

  /** The reported head leaves room for all but the outstanding commands. */
  lemma RoomBound(s: State)
    requires Inv(s) && AtRest(s)
    ensures 0 <= Outstanding(s) && 0 <= Room(s) && s.len - 1 - Outstanding(s) <= Room(s) <= s.len - 1
    ensures Drained(s) ==> IsEmpty(s) && Room(s) == s.len - 1
  {
    hide Slot, Phase;
    if s.consumed > 0 {
      ReportedBound(s, s.consumed - 1);
    }
  }

  /** The entries the ring holds, counting from the head the driver knows, have distinct identifiers
      in every state, if the slots fit the bits the queue id leaves free. */
  lemma RingIdsDistinct(s: State, id: nat, k: nat, l: nat)
    requires Inv(s) && Identified(s.submitted, id, s.len) && s.seen <= k < l < |s.submitted|
    requires s.len <= U16 && s.len <= Shl(1, 11 + LowZeros(id % 32, 5))
    ensures s.submitted[k].cid != s.submitted[l].cid
  {
    hide Slot, Phase, Identified, Shl, LowZeros, Indices, SqMemory, CqMemory, Entries, Taken, Work, Logs;
    QueuedIdsIff(id, s.len);
  }

  // What each step of the driver changes, without the rest of Apply.

  lemma SubmitEffect(s: State, cmd: Command)
    requires Wf(s) && Enabled(s, Submit(cmd))
    ensures Apply(s, Submit(cmd)) ==
            s.(sq := s.sq[s.tail := cmd], tail := Slot(s.tail + 1, s.len), submitted := s.submitted + [cmd],
               ahead := s.ahead + [Outstanding(s)])
  {
  }

  lemma RingSqEffect(s: State)
    requires Wf(s)
    ensures Enabled(s, RingSq) && Apply(s, RingSq) == s.(sqDoorbell := s.tail, rung := |s.submitted|)
  {
  }

  lemma RingCqEffect(s: State)
    requires Wf(s)
    ensures Enabled(s, RingCq) && Apply(s, RingCq) == s.(cqDoorbell := s.cqHead, freed := s.consumed)
  {
  }

  lemma LatchEffect(s: State)
    requires Inv(s) && s.consumed > 0
    ensures s.consumed <= |s.reported| && Enabled(s, Latch)
    ensures Apply(s, Latch) == s.(head := s.last.sqHead, seen := s.reported[s.consumed - 1])
  {
    hide Slot, Phase;
  }

  lemma ConsumeEffect(s: State, n: nat)
    requires Wf(s) && n > 0 && Enabled(s, Consume(n))
    ensures var at := WaitSlot(s, n);
      var head := Slot(at + 1, s.len);
      Apply(s, Consume(n)) == s.(cqHead := head, phase := if head == 0 then !WaitPhase(s, n) else WaitPhase(s, n),
                                 last := s.cq[at], consumed := s.consumed + n)
  {
  }

  /** Ok(None), Ok(Some(())) and Err. */
  datatype PollResult = Nothing | Done | Failed(e: Completion)

  class NvmeQueuePair {
    const id: nat
    const sub: SubmissionQueue
    const comp: CompletionQueue
    const peer: Controller

    function Repr(): set<object> { {sub, comp, sub.commands, comp.commands, peer} }

    /** The rings and indices are those of the protocol state, except for the completion head. */
    ghost predicate Coupled()
      reads Repr()
    {
      && sub.Valid() && comp.Valid() && peer.Valid()
      && sub.commands[..] == peer.st.sq && comp.commands[..] == peer.st.cq
      && sub.len == comp.len == peer.st.len
      && sub.head == peer.st.head && sub.tail == peer.st.tail
    }

    ghost predicate Valid()
      reads Repr()
    {
      && Coupled() && AtRest(peer.st)
      && comp.head == peer.st.cqHead && comp.phase == peer.st.phase
    }

    constructor (id: nat, len: nat, data: Data)
      requires 2 <= len <= QUEUE_LENGTH
      ensures Valid() && fresh(Repr()) && this.id == id && peer.data == data
      ensures peer.st.submitted == [] && peer.st.consumed == 0 && peer.st.len == len && sub.IsEmpty()
    {
      hide Parts, Run, Served;
      this.id := id;
      sub := new SubmissionQueue(len);
      comp := new CompletionQueue(len);
      var sq := seq(QUEUE_LENGTH, _ => ZERO_COMMAND);
      var cq := seq(QUEUE_LENGTH, _ => ZERO_COMPLETION);
      peer := new Controller(len, sq, cq, data);
    }

    // ---------------------------------------------------------------- submitting

    /** Queues one chunk after another, with consecutive blocks, until the ring is full. */
    method SubmitIo(dma: Dma, lba: nat, write: bool) returns (reqs: nat)
      requires Valid()
      modifies Repr()
      ensures Valid() && peer.st.consumed == old(peer.st.consumed) && peer.st.len == old(peer.st.len)
      ensures var cmds := PairCommands(id, |old(peer.st.submitted)|, sub.len, dma, lba, write);
        && reqs == (if |cmds| <= old(Room(peer.st)) then |cmds| else old(Room(peer.st)))
        && peer.st.submitted == old(peer.st.submitted) + cmds[..reqs]
      ensures peer.base == old(peer.base) && peer.epoch == old(peer.epoch)
      ensures peer.st.ahead == old(peer.st.ahead) + Rising(Outstanding(old(peer.st)), reqs)
      ensures sub.len > 0 && (Identified(old(peer.st.submitted), id, sub.len) ==>
                                Identified(peer.st.submitted, id, sub.len))
    {
      hide Identified, Valid, Coupled, Inv, ChunkOf, DmaChunks.Ready, PairCommand, PairCommands, BlocksBefore, Cuts,
           Slot, Served, Run, RoundUp, BlockCount, Room, Outstanding, Rising, Queued;
      AtTail();
      ghost var before := peer.st;
      ghost var cmds := PairCommands(id, |before.submitted|, sub.len, dma, lba, write);
      QueuedNone(before, cmds);
      ChunkBlocks(dma.size, PAIR_CHUNK);
      BlocksStart(dma.size);
      reqs := 0;
      var lba' := lba;
      var chunks := new DmaChunks(dma, PAIR_CHUNK);
      var chunk := chunks.Next(0);
      while chunk != None
        invariant Valid() && Queued(before, peer.st, cmds, reqs)
        invariant fresh(chunks) && chunks.dma == dma && chunks.chunkSize == PAIR_CHUNK && reqs <= |cmds|
        invariant peer.base == old(peer.base) && peer.epoch == old(peer.epoch)
        invariant lba' == lba + BlocksBefore(dma.size, reqs)
        invariant chunk == ChunkOf(dma, PAIR_CHUNK, reqs) && (chunk != None ==> chunks.Ready(reqs + 1))
        decreases |cmds| - reqs, chunk != None
      {
        ChunkOfSome(dma, PAIR_CHUNK, reqs);
        NextCommand(id, |before.submitted|, sub.len, dma, lba, write, reqs);
        var sent := SubmitChunk(lba', chunk.value, write, before, cmds, reqs);
        if !sent {
          QueuedFacts(before, peer.st, cmds, reqs);
          IdsKept(before.submitted, sub.len, dma, lba, write, reqs);
          return;
        }
        lba' := lba' + BlockCount(chunk.value.len);
        reqs := reqs + 1;
        chunk := chunks.Next(reqs);
      }
      ChunkOfSome(dma, PAIR_CHUNK, reqs);
      QueuedFacts(before, peer.st, cmds, reqs);
      IdsKept(before.submitted, sub.len, dma, lba, write, reqs);
    }

    lemma IdsKept(cmds: seq<Command>, len: nat, dma: Dma, lba: nat, write: bool, reqs: nat)
      requires len > 0 && reqs <= |PairCommands(id, |cmds|, len, dma, lba, write)|
      ensures Identified(cmds, id, len) ==>
                Identified(cmds + PairCommands(id, |cmds|, len, dma, lba, write)[..reqs], id, len)
    {
      hide Identified, PairCommands;
      if Identified(cmds, id, len) {
        StayIdentified(cmds, id, len, dma, lba, write, reqs);
      }
    }

    /** The body of its loop: the command of one chunk, if there is room for it. */
    method SubmitChunk(lba: nat, chunk: Chunk, write: bool, ghost before: State, ghost cmds: seq<Command>,
                       ghost n: nat)
      returns (sent: bool)
      requires Valid() && Queued(before, peer.st, cmds, n) && n < |cmds| && sub.len > 0
      requires cmds[n] == PairCommand(id, Slot(|before.submitted| + n, sub.len), lba, chunk, write)
      modifies Repr()
      ensures Valid() && Queued(before, peer.st, cmds, if sent then n + 1 else n) && (!sent ==> n == Room(before))
      ensures peer.base == old(peer.base) && peer.epoch == old(peer.epoch)
    {
      hide Valid, Coupled, Inv, PairCommand, Slot, Room, Outstanding, Rising, Queued;
      ghost var t := peer.st;
      AtTail();
      QueuedFacts(before, t, cmds, n);
      var entry := PairCommand(id, sub.tail, lba, chunk, write);
      sent := Push(entry);
      if sent {
        QueuedMore(before, t, peer.st, cmds, n);
      } else {
        QueuedSame(before, t, peer.st, cmds, n);
      }
    }

    lemma AtTail()
      requires Valid()
      ensures Inv(peer.st) && sub.len == peer.st.len && sub.tail == Slot(|peer.st.submitted|, sub.len)
      ensures Room(peer.st) >= 0
    {
      hide Slot, Phase, Served, Run;
      RoomBound(peer.st);
    }

    // ---------------------------------------------------------------- one action at a time

    lemma Peered()
      requires Coupled()
      ensures Inv(peer.st) && sub.len == comp.len == peer.st.len >= 2 && sub.head == peer.st.head
      ensures sub.tail == peer.st.tail
    {
      hide Parts;
    }

    lemma Resting()
      requires Coupled() && AtRest(peer.st) && comp.head == peer.st.cqHead && comp.phase == peer.st.phase
      ensures Valid()
    {
    }

    /** The controller takes any number of steps. */
    method Pause()
      requires Coupled()
      modifies peer`st, peer`trace, peer`data, peer`log, comp.commands
      ensures Coupled() && SameDriver(old(peer.st), peer.st) && Owed(peer.st) <= Owed(old(peer.st))
    {
      hide Controller.Valid, SameDriver, Owed;
      label start:
      peer.Interleave(comp.commands);
      SameIndices(old(peer.st), peer.st);
    }

    lemma SameIndices(s: State, t: State)
      requires SameDriver(s, t)
      ensures t.sq == s.sq && t.len == s.len && t.head == s.head && t.tail == s.tail
    {
    }

    method RingTail()
      requires Coupled()
      modifies peer`st, peer`trace
      ensures Coupled()
      ensures peer.st == old(peer.st).(sqDoorbell := old(peer.st.tail), rung := |old(peer.st.submitted)|)
    {
      hide Served, Parts, Apply, Run;
      RingSqEffect(peer.st);
      peer.Take(RingSq);
    }

    method RingHead()
      requires Coupled()
      modifies peer`st, peer`trace
      ensures Coupled() && peer.st == old(peer.st).(cqDoorbell := old(peer.st.cqHead), freed := old(peer.st.consumed))
    {
      hide Served, Parts, Apply, Run;
      RingCqEffect(peer.st);
      peer.Take(RingCq);
    }

    method LatchHead(c: Completion)
      requires Coupled() && peer.st.consumed > 0 && c == peer.st.last
      modifies sub`head, peer`st, peer`trace
      ensures Coupled() && old(peer.st.consumed) <= |old(peer.st.reported)|
      ensures peer.st == old(peer.st).(head := c.sqHead, seen := old(peer.st.reported[peer.st.consumed - 1]))
    {
      hide Served, Parts, Apply, Run;
      LatchEffect(peer.st);
      sub.head := c.sqHead;
      peer.Take(Latch);
    }

    /** submit_checked: the entry is in the ring, but not yet rung. */
    method Enqueue(entry: Command) returns (sent: bool)
      requires Coupled() && AtRest(peer.st)
      modifies sub`tail, sub.commands, peer`st, peer`trace
      ensures Coupled() && sent == (Room(old(peer.st)) > 0)
      ensures sent ==>
                peer.st == old(peer.st).(sq := peer.st.sq, tail := peer.st.tail,
                                         submitted := old(peer.st.submitted) + [entry],
                                         ahead := old(peer.st.ahead) + [Outstanding(old(peer.st))])
      ensures !sent ==> peer.st == old(peer.st)
    {
      hide Parts, Slot, Phase, Served, Apply, Run;
      RoomTest(peer.st);
      var tail := sub.SubmitChecked(entry);
      sent := tail != None;
      if sent {
        SubmitEffect(peer.st, entry);
        peer.Take(Submit(entry));
      }
    }

    /** submit, which does not ask; here there is room. */
    method EnqueueUnchecked(entry: Command)
      requires Coupled() && AtRest(peer.st) && Room(peer.st) > 0
      modifies sub`tail, sub.commands, peer`st, peer`trace
      ensures Coupled()
      ensures peer.st == old(peer.st).(sq := peer.st.sq, tail := peer.st.tail,
                                       submitted := old(peer.st.submitted) + [entry],
                                       ahead := old(peer.st.ahead) + [Outstanding(old(peer.st))])
    {
      hide Parts, Slot, Phase, Served, Apply, Run;
      RoomTest(peer.st);
      var tail := sub.Submit(entry);
      SubmitEffect(peer.st, entry);
      peer.Take(Submit(entry));
    }

    /** One look at the ring: takes the n-th completion from here if it is there. */
    method TakeCompletion(n: nat) returns (r: Option<(nat, Completion, nat)>)
      requires Coupled() && 1 <= n < peer.st.len
      requires comp.head == WaitSlot(peer.st, n) && comp.phase == WaitPhase(peer.st, n)
      modifies comp`head, comp`phase, peer`st, peer`trace
      ensures Coupled() && (r.None? ==> comp.head == old(comp.head) && comp.phase == old(comp.phase))
      ensures Wf(old(peer.st)) && (r.Some? <==> Matches(old(peer.st), n))
      ensures if r.None? then peer.st == old(peer.st)
              else peer.st == old(peer.st).(cqHead := comp.head, phase := comp.phase, last := r.value.1,
                                            consumed := old(peer.st.consumed) + n)
                   && r.value.0 == comp.head
    {
      hide Parts, Slot, Phase, Served, Apply, Run;
      r := comp.Complete();
      if r != None {
        ConsumeEffect(peer.st, n);
        peer.Take(Consume(n));
      }
    }

    // ---------------------------------------------------------------- submitting one

    /** submit_checked and, if there was room, the doorbell. */
    method Push(entry: Command) returns (sent: bool)
      requires Valid()
      modifies Repr()
      ensures Valid() && sent == (old(Room(peer.st)) > 0)
      ensures peer.st.submitted == if sent then old(peer.st.submitted) + [entry] else old(peer.st.submitted)
      ensures sent ==> peer.st.ahead == old(peer.st.ahead) + [Outstanding(old(peer.st))]
      ensures !sent ==> peer.st.ahead == old(peer.st.ahead)
      ensures peer.st.consumed == old(peer.st.consumed) && peer.st.seen == old(peer.st.seen)
      ensures peer.st.len == old(peer.st.len)
      ensures peer.base == old(peer.base) && peer.epoch == old(peer.epoch)
    {
      hide Coupled, Inv, Owed;
      sent := Enqueue(entry);
      if sent {
        Pause();
        RingTail();
      }
      Pause();
      Peered();
      RestKept(old(peer.st), peer.st);
    }

    lemma RoomTest(s: State)
      requires Inv(s)
      ensures Enabled(s, Submit(ZERO_COMMAND)) <==> Room(s) > 0
      ensures (s.head == Slot(s.tail + 1, s.len)) <==> Room(s) <= 0
    {
      hide Slot, Phase;
      FullIff(s);
    }

    lemma RestKept(s: State, t: State)
      requires AtRest(s) && Inv(t) && t.consumed == s.consumed && t.seen == s.seen && s.reported <= t.reported
      requires t.rung == |t.submitted| && t.freed == t.consumed
      ensures AtRest(t)
    {
    }

    // ---------------------------------------------------------------- completing

    /** complete_spin, entered at the place SkipTo(n) moved to: ends because the controller owes
        finitely many steps and the n-th completion is among what they bring. */
    method CompleteSpin(n: nat) returns (r: (nat, Completion, nat))
      requires Coupled() && AtRest(peer.st) && 1 <= n < peer.st.len && n <= Outstanding(peer.st)
      requires comp.head == WaitSlot(peer.st, n) && comp.phase == WaitPhase(peer.st, n)
      modifies Repr()
      ensures Coupled() && comp.head == peer.st.cqHead && comp.phase == peer.st.phase
      ensures SameButConsumed(old(peer.st), peer.st, n) && r.0 == comp.head && r.1 == peer.st.last
      ensures peer.base == old(peer.base) && peer.epoch == old(peer.epoch)
    {
      hide Coupled, Inv, AtRest, Owed, WaitSlot, WaitPhase, Matches;
      ghost var before := peer.st;
      while true
        invariant Coupled() && SameDriver(before, peer.st)
        invariant comp.head == WaitSlot(peer.st, n) && comp.phase == WaitPhase(peer.st, n)
        modifies comp`head, comp`phase, comp.commands, peer`st, peer`trace, peer`data, peer`log
        decreases Owed(peer.st)
      {
        Peered();
        SameWait(before, peer.st, n);
        Pause();
        Peered();
        SameWait(before, peer.st, n);
        var c := TakeCompletion(n);
        if c != None {
          return c.value;
        }
        RestGoes(before, peer.st);
        WaitNeverStuck(peer.st, n);
        OwedNonNegative(peer.st);
        Step(n);
      }
    }

    /** A wait depends on what the driver owns. */
    lemma SameWait(s: State, t: State, n: nat)
      requires SameDriver(s, t) && n > 0 && s.len > 0
      ensures WaitSlot(s, n) == WaitSlot(t, n) && WaitPhase(s, n) == WaitPhase(t, n)
    {
      hide Slot;
    }

    lemma RestGoes(s: State, t: State)
      requires AtRest(s) && SameDriver(s, t)
      ensures t.rung == |t.submitted| && t.freed == t.consumed && Outstanding(t) == Outstanding(s)
    {
    }

    method Step(ghost n: nat)
      requires Coupled() && n > 0 && exists a: Protocol.Step :: ControllerStep(a) && Enabled(peer.st, a)
      modifies peer`st, peer`trace, peer`data, peer`log, comp.commands
      ensures Coupled() && SameDriver(old(peer.st), peer.st) && Owed(peer.st) < Owed(old(peer.st))
      ensures peer.st.len > 0 && WaitSlot(peer.st, n) == WaitSlot(old(peer.st), n)
      ensures WaitPhase(peer.st, n) == WaitPhase(old(peer.st), n)
    {
      hide Controller.Valid, SameDriver, Owed, WaitSlot, WaitPhase;
      peer.StepOnce(comp.commands);
      SameIndices(old(peer.st), peer.st);
      SameWait(old(peer.st), peer.st, n);
    }

    /** complete_n: waits for the n-th completion from here. */
    method CompleteN(n: nat) returns (r: (nat, Completion, nat))
      requires Valid() && 1 <= n < peer.st.len && n <= Outstanding(peer.st)
      modifies Repr()
      ensures Coupled() && comp.head == peer.st.cqHead && comp.phase == peer.st.phase
      ensures SameButConsumed(old(peer.st), peer.st, n) && r == (comp.head, peer.st.last, old(comp.head))
      ensures peer.base == old(peer.base) && peer.epoch == old(peer.epoch)
    {
      hide Parts, Slot, Phase, Served;
      var prev := comp.head;
      comp.SkipTo(n);
      var c := CompleteSpin(n);
      r := (c.0, c.1, prev);
    }

    /** The head doorbell and the latch that follow every completion. */
    method Acknowledge(c: Completion)
      requires Coupled() && comp.head == peer.st.cqHead && comp.phase == peer.st.phase
      requires peer.st.rung == |peer.st.submitted| && peer.st.consumed > 0 && c == peer.st.last
      modifies Repr()
      ensures Valid() && peer.st.consumed == old(peer.st.consumed) && peer.st.submitted == old(peer.st.submitted)
      ensures peer.st.last == old(peer.st.last) && old(peer.st).posted <= peer.st.posted
      ensures peer.st.ahead == old(peer.st.ahead)
      ensures peer.st.len == old(peer.st.len)
      ensures peer.base == old(peer.base) && peer.epoch == old(peer.epoch)
    {
      hide Coupled, Inv, Owed;
      Pause();
      RingHead();
      Pause();
      LatchHead(c);
      Peered();
      TakenBound(peer.st);
      Resting();
    }

    lemma TakenBound(s: State)
      requires Inv(s)
      ensures s.consumed <= |s.posted| == |s.reported| && (s.consumed > 0 ==> s.last == s.posted[s.consumed - 1])
    {
      hide Slot, Phase;
    }

    /** complete_io(n): n completions are taken, and whatever order the controller worked in,
        the ring reads as empty once nothing is outstanding. Success is the last entry's. */
    method CompleteIo(n: nat) returns (r: Option<nat>)
      requires Valid() && 1 <= n < peer.st.len && n <= Outstanding(peer.st)
      modifies Repr()
      ensures Valid() && peer.st.consumed == old(peer.st.consumed) + n && peer.st.submitted == old(peer.st.submitted)
      ensures peer.st.consumed <= |peer.st.posted| && peer.st.len == old(peer.st.len)
      ensures peer.st.ahead == old(peer.st.ahead)
      ensures var e := peer.st.posted[peer.st.consumed - 1];
        r == if StatusField(e) == 0 then Some(e.sqHead) else None
      ensures Drained(peer.st) ==> sub.IsEmpty()
      ensures peer.base == old(peer.base) && peer.epoch == old(peer.epoch)
    {
      hide Coupled, Inv, StatusField;
      var done := CompleteN(n);
      var c := done.1;
      Peered();
      TakenBound(peer.st);
      Acknowledge(c);
      Peered();
      TakenBound(peer.st);
      DrainedEmpty();
      var status := StatusField(c);
      r := if status != 0 then None else Some(c.sqHead);
    }

    /** What quick_poll and quick_poll_result share: one completion is taken if one is there. */
    method PollEntry() returns (e: Option<Completion>)
      requires Valid()
      modifies Repr()
      ensures Valid() && peer.st.submitted == old(peer.st.submitted) && peer.st.len == old(peer.st.len)
      ensures old(peer.st).posted <= peer.st.posted
      ensures peer.st.ahead == old(peer.st.ahead)
      ensures peer.st.consumed == old(peer.st.consumed) + (if e.Some? then 1 else 0) <= |peer.st.posted|
      ensures if e.Some? then e.value == peer.st.posted[peer.st.consumed - 1]
              else old(peer.st.consumed == |peer.st.posted|)
      ensures Drained(peer.st) ==> sub.IsEmpty()
      ensures peer.base == old(peer.base) && peer.epoch == old(peer.epoch)
    {
      hide Coupled, Inv, Owed, Matches, WaitSlot, WaitPhase;
      Peered();
      TakenBound(peer.st);
      Pause();
      Peered();
      RestKept(old(peer.st), peer.st);
      NextTag(peer.st);
      var c := TakeCompletion(1);
      e := if c == None then None else Some(c.value.1);
      Peered();
      TakenBound(peer.st);
      if e != None {
        Acknowledge(e.value);
      }
      Peered();
      TakenBound(peer.st);
      DrainedEmpty();
    }

    lemma DrainedEmpty()
      requires Valid()
      ensures Drained(peer.st) ==> sub.IsEmpty()
    {
      hide Parts, Slot, Phase, Served, Run;
      RoomBound(peer.st);
    }

    /** quick_poll: a completion that reports a failure counts like any other. */
    method QuickPoll() returns (r: bool)
      requires Valid()
      modifies Repr()
      ensures Valid() && peer.st.submitted == old(peer.st.submitted) && peer.st.len == old(peer.st.len)
      ensures old(peer.st).posted <= peer.st.posted
      ensures peer.st.ahead == old(peer.st.ahead)
      ensures peer.st.consumed == old(peer.st.consumed) + (if r then 1 else 0) <= |peer.st.posted|
      ensures !r ==> old(peer.st.consumed == |peer.st.posted|)
      ensures Drained(peer.st) ==> sub.IsEmpty()
      ensures peer.base == old(peer.base) && peer.epoch == old(peer.epoch)
    {
      hide Valid, Inv;
      var e := PollEntry();
      r := e != None;
    }

    /** quick_poll_result: Err for a failed command, whose completion is taken all the same. */
    method QuickPollResult() returns (r: PollResult)
      requires Valid()
      modifies Repr()
      ensures Valid() && peer.st.submitted == old(peer.st.submitted) && peer.st.len == old(peer.st.len)
      ensures old(peer.st).posted <= peer.st.posted
      ensures peer.st.ahead == old(peer.st.ahead)
      ensures peer.st.consumed == old(peer.st.consumed) + (if r.Nothing? then 0 else 1) <= |peer.st.posted|
      ensures match r
        case Nothing => old(peer.st.consumed == |peer.st.posted|)
        case Done => StatusField(peer.st.posted[peer.st.consumed - 1]) == 0
        case Failed(e) => e == peer.st.posted[peer.st.consumed - 1] && StatusField(e) != 0
      ensures Drained(peer.st) ==> sub.IsEmpty()
      ensures peer.base == old(peer.base) && peer.epoch == old(peer.epoch)
    {
      hide Valid, Inv;
      var e := PollEntry();
      r := if e == None then Nothing
           else if StatusField(e.value) != 0 then Failed(e.value)
           else Done;
    }

    lemma NextTag(s: State)
      requires Inv(s)
      ensures WaitSlot(s, 1) == s.cqHead && WaitPhase(s, 1) == s.phase
      ensures Matches(s, 1) <==> s.consumed < |s.posted|
      ensures s.consumed <= |s.posted|
    {
      PhaseTagExact(s, 1);
    }
  }

  /** A page-aligned buffer submitted in full by one submit_io to a drained pair: once all its
      completions are consumed, every one reported success, and the data is that of one
      assignment of the whole buffer, in whatever order the controller worked. */
  lemma PairTransferDone(base: Data, epoch: nat, log: seq<Command>, s: State, data: Data,
                         id: nat, dma: Dma, lba: nat, write: bool)
    requires Inv(s) && Served(base, epoch, log, s, data) && Drained(s) && epoch <= |s.submitted|
    requires s.submitted[epoch..] == PairCommands(id, epoch, s.len, dma, lba, write)
    requires dma.phys % PAGE == 0 && lba + BlockCount(dma.size) <= U64
    requires Apart(base, dma.phys, RoundUp(dma.size)) && Fits(base, TransferOf(dma, lba, write))
    ensures data == Whole(base, TransferOf(dma, lba, write))
    ensures |s.posted| == |s.submitted| && forall j :: epoch <= j < |s.posted| ==> StatusField(s.posted[j]) == SUCCESS
  {
    hide Parts, PairCommands, MovesAll, RoundUp, BlockCount, Whole, Apart, Cuts, StatusField;
    PairCommandsMove(base, id, epoch, s.len, dma, lba, write);
    DrainedTransfer(base, epoch, log, s, data, TransferOf(dma, lba, write), Cuts(RoundUp(dma.size), PAIR_CHUNK));
  }

  /** Only completions were taken; the controller may have moved on. */
  predicate SameButConsumed(s: State, t: State, n: nat) {
    && t.submitted == s.submitted && t.ahead == s.ahead && t.rung == s.rung && t.freed == s.freed && t.len == s.len
    && t.consumed == s.consumed + n && t.seen == s.seen && s.posted <= t.posted
  }
}
