/** One submission/completion queue pair as a protocol between the driver and an NVMe
    controller, after sections 4.1, 4.2 and 4.6 of NVM Express 1.4.

    A `State` holds what exists at run time (the two rings, the driver's indices, the
    doorbell registers, the controller's own indices) followed by a history that no step
    reads for a decision: unbounded logs from which the wrapped indices can be explained.
    A `Step` is one atomic action of either party; any interleaving is a run. */
module Protocol {
  import opened Ring
  import opened Commands
  import opened Options

  /** Completion queue entry. Bit 0 of `status` is the phase tag, the rest is the status field. */
  datatype Completion = Completion(sqHead: nat, cid: nat, status: nat)

  predicate Tag(e: Completion) { e.status % 2 == 1 }

  function StatusField(e: Completion): nat { e.status / 2 }

  const ZERO_COMPLETION := Completion(0, 0, 0)

  datatype State = State(
    len: nat,
    // the driver
    sq: seq<Command>, head: nat, tail: nat,
    cq: seq<Completion>, cqHead: nat, phase: bool, last: Completion,
    // doorbell registers
    sqDoorbell: nat, cqDoorbell: nat,
    // the controller
    fetchHead: nat, cqTail: nat, ctlPhase: bool,
    toExecute: set<nat>, toPost: set<nat>, done: set<nat>, results: map<nat, nat>,
    // history
    submitted: seq<Command>,   // entries the driver wrote, in order
    ahead: seq<int>,           // ahead[k]: how many commands were outstanding when the k-th was written
    rung: nat,                 // how many of them the tail doorbell covers
    fetched: seq<Command>,     // entries as the controller read them
    executed: seq<nat>,        // indices into `fetched`, in execution order
    posted: seq<Completion>,   // entries the controller wrote
    answers: seq<nat>,         // answers[j]: the command posted[j] completes
    reported: seq<nat>,        // reported[j]: how many entries were fetched when j was posted
    consumed: nat,             // how many completions the driver has moved past
    freed: nat,                // how many of them the head doorbell covers
    seen: nat                  // how many fetched entries the driver knows of through sq_head
  )

  function Init(len: nat, sq: seq<Command>, cq: seq<Completion>): State {
    State(len, sq, 0, 0, cq, 0, true, ZERO_COMPLETION, 0, 0, 0, 0, true,
          {}, {}, {}, map[], [], [], 0, [], [], [], [], [], 0, 0, 0)
  }

  /** Rings of at least two slots in zeroed memory, as both queues are created. */
  ghost predicate ValidInit(len: nat, sq: seq<Command>, cq: seq<Completion>) {
    && 2 <= len <= |sq| && len <= |cq|
    && forall k :: 0 <= k < len ==> cq[k] == ZERO_COMPLETION
  }

  datatype Step =
    | Submit(cmd: Command)          // submit_checked, when not full
    | RingSq                        // write the tail doorbell
    | Consume(n: nat)               // complete_n(n) finds its entry; complete() is n == 1
    | RingCq                        // write the head doorbell
    | Latch                         // sub_queue.head = c_entry.sq_head
    | Fetch
    | Execute(i: nat, status: nat)
    | Post(i: nat)

  predicate ControllerStep(a: Step) { a.Fetch? || a.Execute? || a.Post? }

  /** Every index is inside its ring, and pending work refers to fetched commands. */
  predicate Wf(s: State) {
    && 2 <= s.len <= |s.sq| && s.len <= |s.cq|
    && s.tail < s.len && s.cqHead < s.len && s.fetchHead < s.len && s.cqTail < s.len
    && (forall i :: i in s.toExecute ==> i < |s.fetched|)
    && (forall i :: i in s.toPost ==> i < |s.fetched| && i in s.results)
  }

  predicate IsFull(s: State)
    requires s.len > 0
  {
    s.head == Slot(s.tail + 1, s.len)
  }

  predicate IsEmpty(s: State) { s.head == s.tail }

  // complete_n moves the head by n - 1, flips the phase if that leaves the ring, and waits there.

  function WaitSlot(s: State, n: nat): nat
    requires s.len > 0 && n > 0
  {
    Slot(s.cqHead + (n - 1), s.len)
  }

  predicate WaitPhase(s: State, n: nat)
    requires n > 0
  {
    if s.cqHead + (n - 1) >= s.len then !s.phase else s.phase
  }

  predicate Matches(s: State, n: nat)
    requires Wf(s) && n > 0
  {
    Tag(s.cq[WaitSlot(s, n)]) == WaitPhase(s, n)
  }

  predicate Enabled(s: State, a: Step)
    requires Wf(s)
  {
    match a
    case Submit(_) => !IsFull(s)
    case RingSq => true
    case Consume(n) => 1 <= n < s.len && Matches(s, n)
    case RingCq => true
    case Latch => s.consumed > 0
    case Fetch => s.fetchHead != s.sqDoorbell
    case Execute(i, _) => i in s.toExecute
    case Post(i) => i in s.toPost && Slot(s.cqTail + 1, s.len) != s.cqDoorbell
  }

  function Apply(s: State, a: Step): (t: State)
    requires Wf(s) && Enabled(s, a)
    ensures Wf(t)
  {
    match a
    case Submit(cmd) =>
      s.(sq := s.sq[s.tail := cmd], tail := Slot(s.tail + 1, s.len), submitted := s.submitted + [cmd],
         ahead := s.ahead + [|s.submitted| - s.consumed])
    case RingSq => s.(sqDoorbell := s.tail, rung := |s.submitted|)
    case Consume(n) =>
      var at := WaitSlot(s, n);
      var head := Slot(at + 1, s.len);
      s.(cqHead := head, phase := if head == 0 then !WaitPhase(s, n) else WaitPhase(s, n),
         last := s.cq[at], consumed := s.consumed + n)
    case RingCq => s.(cqDoorbell := s.cqHead, freed := s.consumed)
    case Latch =>
      s.(head := s.last.sqHead,
         seen := if s.consumed <= |s.reported| then s.reported[s.consumed - 1] else s.seen)
    case Fetch =>
      s.(fetchHead := Slot(s.fetchHead + 1, s.len), fetched := s.fetched + [s.sq[s.fetchHead]],
         toExecute := s.toExecute + {|s.fetched|})
    case Execute(i, status) =>
      s.(toExecute := s.toExecute - {i}, toPost := s.toPost + {i},
         results := s.results[i := status], executed := s.executed + [i])
    case Post(i) =>
      var e := CompletionFor(s, i);
      var next := Slot(s.cqTail + 1, s.len);
      s.(cq := s.cq[s.cqTail := e], cqTail := next, ctlPhase := if next == 0 then !s.ctlPhase else s.ctlPhase,
         toPost := s.toPost - {i}, done := s.done + {i}, posted := s.posted + [e], answers := s.answers + [i],
         reported := s.reported + [|s.fetched|])
  }

  /** The entry the controller writes: its fetch head, the command's identifier, status and phase. */
  function CompletionFor(s: State, i: nat): Completion
    requires Wf(s) && i in s.toPost
  {
    Completion(s.fetchHead, s.fetched[i].cid, 2 * s.results[i] + (if s.ctlPhase then 1 else 0))
  }

  /** The state a sequence of steps leads to, if each was enabled when it was taken. */
  function Run(s: State, steps: seq<Step>): Option<State>
    requires Wf(s)
    ensures Run(s, steps).Some? ==> Wf(Run(s, steps).value)
  {
    if steps == [] then Some(s)
    else
      var n := |steps| - 1;
      match Run(s, steps[..n])
      case None => None
      case Some(m) => if Enabled(m, steps[n]) then Some(Apply(m, steps[n])) else None
  }

  lemma RunAppend(s: State, steps: seq<Step>, a: Step)
    requires Wf(s)
    ensures Run(s, steps + [a]) ==
      (match Run(s, steps) case None => None case Some(m) => if Enabled(m, a) then Some(Apply(m, a)) else None)
  {
    assert (steps + [a])[..|steps|] == steps;
  }

  // ---------------------------------------------------------------- the invariant

  /** Each wrapped index and phase bit is the image of its unbounded counter. */
  ghost predicate Indices(s: State)
    requires s.len > 0
  {
    && s.tail == Slot(|s.submitted|, s.len) && s.sqDoorbell == Slot(s.rung, s.len)
    && s.fetchHead == Slot(|s.fetched|, s.len) && s.head == Slot(s.seen, s.len)
    && s.cqTail == Slot(|s.posted|, s.len) && s.ctlPhase == Phase(|s.posted|, s.len)
    && s.cqHead == Slot(s.consumed, s.len) && s.phase == Phase(s.consumed, s.len)
    && s.cqDoorbell == Slot(s.freed, s.len)
  }

  /** Neither ring is ever over-full. */
  ghost predicate Order(s: State) {
    && s.seen <= |s.fetched| <= s.rung <= |s.submitted| < s.seen + s.len
    && s.freed <= s.consumed <= |s.posted| < s.freed + s.len
  }

  /** Entries not yet fetched are intact in the submission ring. */
  ghost predicate SqMemory(s: State)
    requires Wf(s)
  {
    forall i :: |s.fetched| <= i < |s.submitted| ==> s.sq[Slot(i, s.len)] == s.submitted[i]
  }

  /** The last lap of completions is intact in the completion ring; slots never written are zero. */
  ghost predicate CqMemory(s: State)
    requires Wf(s)
  {
    && (forall j :: 0 <= j < |s.posted| && |s.posted| - s.len <= j ==> s.cq[Slot(j, s.len)] == s.posted[j])
    && (forall k :: |s.posted| <= k < s.len ==> !Tag(s.cq[k]))
  }

  /** What each posted completion says. */
  ghost predicate Entries(s: State) {
    && s.len > 0
    && |s.answers| == |s.reported| == |s.posted|
    && (forall j :: 0 <= j < |s.posted| ==> Entry(s, j))
    && (forall j, k :: 0 <= j <= k < |s.posted| ==> s.reported[j] <= s.reported[k])
  }

  ghost predicate Entry(s: State, j: nat)
    requires s.len > 0 && |s.answers| == |s.reported| == |s.posted| && j < |s.posted|
  {
    var i := s.answers[j];
    && i < |s.fetched| && i in s.results && i in s.done
    && s.posted[j].sqHead == Slot(s.reported[j], s.len)
    && s.posted[j].cid == s.fetched[i].cid
    && Tag(s.posted[j]) == Phase(j, s.len)
    && StatusField(s.posted[j]) == s.results[i]
    && j < s.reported[j] <= |s.fetched|
  }

  /** What the driver has taken from them. */
  ghost predicate Taken(s: State) {
    && s.consumed <= |s.posted| == |s.reported|
    && (s.consumed == 0 ==> s.seen == 0)
    && (s.consumed > 0 ==> s.last == s.posted[s.consumed - 1] && s.seen <= s.reported[s.consumed - 1])
  }

  /** Every fetched command is in exactly one place: waiting, executed, or answered. */
  ghost predicate Work(s: State) {
    && s.toExecute !! s.toPost && s.toExecute !! s.done && s.toPost !! s.done
    && |s.toExecute| + |s.toPost| + |s.done| == |s.fetched|
    && (forall i :: i in s.done ==> i < |s.fetched|)
    && (forall i :: 0 <= i < |s.fetched| ==> i in s.toExecute || i in s.toPost || i in s.done)
    && (forall i :: i in s.results <==> i in s.toPost || i in s.done)
    && |s.done| == |s.posted| && |s.executed| == |s.toPost| + |s.done|
  }

  /** The logs record each command once. */
  ghost predicate Logs(s: State) {
    && |s.fetched| <= |s.submitted|
    && (forall i :: 0 <= i < |s.fetched| ==> s.fetched[i] == s.submitted[i])
    && (forall j :: 0 <= j < |s.answers| ==> s.answers[j] in s.done)
    && (forall j, k :: 0 <= j < k < |s.answers| ==> s.answers[j] != s.answers[k])
    && (forall j :: 0 <= j < |s.executed| ==> s.executed[j] in s.results)
    && (forall j, k :: 0 <= j < k < |s.executed| ==> s.executed[j] != s.executed[k])
  }

  ghost predicate Inv(s: State) {
    Wf(s) && Parts(s)
  }

  ghost predicate Parts(s: State)
    requires Wf(s)
  {
    Indices(s) && Order(s) && SqMemory(s) && CqMemory(s) && Entries(s) && Taken(s) && Work(s) && Logs(s)
  }

  lemma InitInv(len: nat, sq: seq<Command>, cq: seq<Completion>)
    requires ValidInit(len, sq, cq)
    ensures Inv(Init(len, sq, cq))
  {
  }

  // ---------------------------------------------------------------- the guards, unwrapped

  /** is_full on the wrapped indices says exactly that len - 1 entries are unaccounted for. */
  lemma FullIff(s: State)
    requires Wf(s) && Indices(s) && Order(s)
    ensures IsFull(s) <==> |s.submitted| == s.seen + s.len - 1
  {
    hide Slot, Phase;
    OneShort(s.seen, |s.submitted|, s.len);
  }

  lemma EmptyIff(s: State)
    requires Wf(s) && Indices(s) && Order(s)
    ensures IsEmpty(s) <==> |s.submitted| == s.seen
  {
    hide Slot, Phase;
    SlotInjective(s.seen, |s.submitted|, s.len);
  }

  lemma FetchEnabledIff(s: State)
    requires Wf(s) && Indices(s) && Order(s)
    ensures Enabled(s, Fetch) <==> |s.fetched| < s.rung
  {
    hide Slot, Phase;
    SlotInjective(|s.fetched|, s.rung, s.len);
  }

  lemma PostEnabledIff(s: State, i: nat)
    requires Wf(s) && Indices(s) && Order(s)
    ensures Enabled(s, Post(i)) <==> i in s.toPost && |s.posted| < s.freed + s.len - 1
  {
    hide Slot, Phase;
    OneShort(s.freed, |s.posted|, s.len);
  }

  /** The slot and phase complete_n waits for are those of the n-th completion from here. */
  lemma WaitPosition(s: State, n: nat)
    requires Wf(s) && Indices(s) && 1 <= n <= s.len
    ensures WaitSlot(s, n) == Slot(s.consumed + n - 1, s.len)
    ensures WaitPhase(s, n) == Phase(s.consumed + n - 1, s.len)
  {
    hide Slot, Phase;
    Ahead(s.consumed, n - 1, s.len);
  }

  /** The phase tag is exact in every interleaving: the awaited slot matches just when the
      n-th completion from here has been posted. Since completions are posted in order, the
      n - 1 before it then have been posted too. */
  lemma PhaseTagExact(s: State, n: nat)
    requires Wf(s) && Indices(s) && Order(s) && CqMemory(s) && Entries(s) && 1 <= n <= s.len
    ensures Matches(s, n) <==> s.consumed + n <= |s.posted|
    ensures Matches(s, n) ==> s.cq[WaitSlot(s, n)] == s.posted[s.consumed + n - 1]
  {
    hide Slot, Phase;
    WaitPosition(s, n);
    var m := s.consumed + n - 1;
    if m < |s.posted| {
      assert Entry(s, m);
    } else if m < s.len {
      FirstLap(m, s.len);
    } else {
      FullLap(m - s.len, s.len);
      assert Entry(s, m - s.len);
      assert s.cq[Slot(m - s.len, s.len)] == s.posted[m - s.len];
    }
  }

  // ---------------------------------------------------------------- preservation

  lemma IndicesKept(s: State, a: Step)
    requires Wf(s) && Indices(s) && Enabled(s, a)
    requires a.Consume? ==> WaitSlot(s, a.n) == Slot(s.consumed + a.n - 1, s.len)
    requires a.Consume? ==> WaitPhase(s, a.n) == Phase(s.consumed + a.n - 1, s.len)
    requires a.Latch? ==> Entries(s) && Taken(s)
    ensures Indices(Apply(s, a))
  {
    hide Slot, Phase;
    match a
    case Submit(_) => Next(|s.submitted|, s.len);
    case Consume(n) => Next(s.consumed + n - 1, s.len);
    case Latch => assert Entry(s, s.consumed - 1);
    case Fetch => Next(|s.fetched|, s.len);
    case Post(_) => Next(|s.posted|, s.len);
    case _ =>
  }

  /** The guards, in unwrapped terms: what makes the next step safe. */
  ghost predicate Guard(s: State, a: Step) {
    match a
    case Submit(_) => |s.submitted| + 1 < s.seen + s.len
    case Consume(n) => s.consumed + n <= |s.posted|
    case Fetch => |s.fetched| < s.rung
    case Post(i) => |s.posted| + 1 < s.freed + s.len
    case _ => true
  }

  lemma GuardHolds(s: State, a: Step)
    requires Inv(s) && Enabled(s, a)
    ensures Guard(s, a)
  {
    hide Slot, Phase, Indices, SqMemory, CqMemory, Entries, Taken, Work, Logs;
    match a
    case Submit(_) => FullIff(s);
    case Consume(n) => PhaseTagExact(s, n);
    case Fetch => FetchEnabledIff(s);
    case Post(i) => PostEnabledIff(s, i);
    case _ =>
  }

  lemma OrderKept(s: State, a: Step)
    requires Wf(s) && Order(s) && Enabled(s, a) && Guard(s, a)
    requires a.Latch? ==> Entries(s) && Taken(s)
    ensures Order(Apply(s, a))
  {
    hide Slot, Phase;
    if a.Latch? {
      assert Entry(s, s.consumed - 1);
    }
  }

  lemma SqMemoryKept(s: State, a: Step)
    requires Wf(s) && Indices(s) && Order(s) && SqMemory(s) && Enabled(s, a) && Guard(s, a)
    ensures SqMemory(Apply(s, a))
  {
    hide Slot, Phase;
    if a.Submit? {
      var t := Apply(s, a);
      forall i | |t.fetched| <= i < |t.submitted|
        ensures t.sq[Slot(i, t.len)] == t.submitted[i]
      {
        SlotInjective(i, |s.submitted|, s.len);
      }
    }
  }

  lemma CqMemoryKept(s: State, a: Step)
    requires Wf(s) && Indices(s) && CqMemory(s) && Enabled(s, a)
    ensures CqMemory(Apply(s, a))
  {
    hide Slot, Phase;
    if a.Post? {
      var t := Apply(s, a);
      forall j | 0 <= j < |t.posted| && |t.posted| - t.len <= j
        ensures t.cq[Slot(j, t.len)] == t.posted[j]
      {
        SlotInjective(j, |s.posted|, s.len);
      }
      forall k | |t.posted| <= k < t.len
        ensures !Tag(t.cq[k])
      {
        FirstLap(|s.posted|, s.len);
      }
    }
  }

  /** Entries already posted keep their meaning: later steps touch other commands only. */
  lemma EntryKept(s: State, a: Step, j: nat)
    requires Wf(s) && Entries(s) && Work(s) && Enabled(s, a) && j < |s.posted|
    ensures Entries(s) && Wf(s) && Entry(s, j)
    ensures |Apply(s, a).answers| == |Apply(s, a).reported| == |Apply(s, a).posted| && Entry(Apply(s, a), j)
  {
    hide Slot, Phase;
    assert Entry(s, j);
    if a.Execute? {
      assert a.i !in s.done;
    }
  }

  lemma NewEntry(s: State, i: nat)
    requires Wf(s) && Indices(s) && Entries(s) && Work(s) && Enabled(s, Post(i))
    ensures Entries(s) && |Apply(s, Post(i)).answers| == |s.posted| + 1 && Entry(Apply(s, Post(i)), |s.posted|)
  {
    hide Slot, Phase;
    assert |s.toPost| > 0;
  }

  lemma EntriesKept(s: State, a: Step)
    requires Wf(s) && Indices(s) && Entries(s) && Work(s) && Enabled(s, a)
    ensures Entries(Apply(s, a))
  {
    hide Slot, Phase, Work, Indices, Entry;
    var t := Apply(s, a);
    forall j | 0 <= j < |t.posted|
      ensures Entry(t, j)
    {
      if j < |s.posted| {
        EntryKept(s, a, j);
      } else {
        NewEntry(s, a.i);
      }
    }
    if a.Post? {
      forall j | 0 <= j < |s.posted|
        ensures s.reported[j] <= |s.fetched|
      {
        ReportedBound(s, j);
      }
    }
  }

  lemma ReportedBound(s: State, j: nat)
    requires Entries(s) && j < |s.posted|
    ensures j < s.reported[j] <= |s.fetched|
  {
    assert Entry(s, j);
  }

  lemma TakenKept(s: State, a: Step)
    requires Wf(s) && Entries(s) && Taken(s) && Enabled(s, a) && Guard(s, a)
    requires a.Consume? ==> s.cq[WaitSlot(s, a.n)] == s.posted[s.consumed + a.n - 1]
    ensures Taken(Apply(s, a))
  {
    hide Slot, Phase;
    if a.Consume? && s.consumed > 0 {
      assert s.reported[s.consumed - 1] <= s.reported[s.consumed + a.n - 1];
    }
  }

  lemma WorkKept(s: State, a: Step)
    requires Wf(s) && Work(s) && Enabled(s, a)
    ensures Work(Apply(s, a))
  {
    hide Slot, Phase, Work;
    match a
    case Fetch => FetchWork(s);
    case Execute(i, status) => ExecuteWork(s, i, status);
    case Post(i) => PostWork(s, i);
    case _ => FrameWork(s, Apply(s, a));
  }

  lemma FrameWork(s: State, t: State)
    requires Work(s)
    requires t.toExecute == s.toExecute && t.toPost == s.toPost && t.done == s.done && t.results == s.results
    requires t.fetched == s.fetched && t.posted == s.posted && t.executed == s.executed
    ensures Work(t)
  {
  }

  lemma FetchWork(s: State)
    requires Wf(s) && Work(s) && Enabled(s, Fetch)
    ensures Work(Apply(s, Fetch))
  {
    hide Slot, Phase;
    assert |s.toExecute + {|s.fetched|}| == |s.toExecute| + 1;
  }

  lemma ExecuteWork(s: State, i: nat, status: nat)
    requires Wf(s) && Work(s) && i in s.toExecute
    ensures Work(Apply(s, Execute(i, status)))
  {
    assert |s.toExecute - {i}| == |s.toExecute| - 1;
    assert |s.toPost + {i}| == |s.toPost| + 1;
  }

  lemma PostWork(s: State, i: nat)
    requires Wf(s) && Work(s) && Enabled(s, Post(i))
    ensures Work(Apply(s, Post(i)))
  {
    hide Slot, Phase;
    assert |s.toPost - {i}| == |s.toPost| - 1;
    assert |s.done + {i}| == |s.done| + 1;
  }

  lemma LogsKept(s: State, a: Step)
    requires Wf(s) && Indices(s) && Order(s) && SqMemory(s) && Work(s) && Logs(s) && Enabled(s, a) && Guard(s, a)
    ensures Logs(Apply(s, a))
  {
    hide Slot, Phase, Work, Indices, SqMemory;
    match a
    case Fetch => FetchLogs(s);
    case Execute(i, status) => ExecuteLogs(s, i, status);
    case Post(i) => PostLogs(s, i);
    case _ =>
  }

  lemma FetchLogs(s: State)
    requires Wf(s) && Indices(s) && Order(s) && SqMemory(s) && Logs(s) && Enabled(s, Fetch) && Guard(s, Fetch)
    ensures Logs(Apply(s, Fetch))
  {
    hide Slot, Phase;
    assert s.sq[Slot(|s.fetched|, s.len)] == s.submitted[|s.fetched|];
  }

  lemma ExecuteEffect(s: State, i: nat, status: nat)
    requires Wf(s) && i in s.toExecute
    ensures Enabled(s, Execute(i, status))
    ensures Apply(s, Execute(i, status))
            == s.(toExecute := s.toExecute - {i}, toPost := s.toPost + {i}, results := s.results[i := status],
                  executed := s.executed + [i])
  {
  }

  lemma ExecuteLogs(s: State, i: nat, status: nat)
    requires Wf(s) && Work(s) && Logs(s) && i in s.toExecute
    ensures Logs(Apply(s, Execute(i, status)))
  {
    hide Apply;
    ExecuteEffect(s, i, status);
    assert i !in s.results;
  }

  lemma PostLogs(s: State, i: nat)
    requires Wf(s) && Work(s) && Logs(s) && Enabled(s, Post(i))
    ensures Logs(Apply(s, Post(i)))
  {
    assert i !in s.done;
  }

  /** The first `epoch` commands are all answered, and nothing after them concerns them. */
  ghost predicate Settled(s: State, epoch: nat) {
    && epoch <= |s.executed| && epoch <= |s.answers|
    && (forall i :: 0 <= i < epoch ==> i in s.done)
    && (forall k :: 0 <= k < epoch ==> s.executed[k] < epoch)
    && (forall k :: epoch <= k < |s.executed| ==> s.executed[k] >= epoch)
    && (forall j :: epoch <= j < |s.answers| ==> s.answers[j] >= epoch)
  }

  lemma SettledKept(s: State, a: Step, epoch: nat)
    requires Wf(s) && Work(s) && Settled(s, epoch) && Enabled(s, a)
    ensures Settled(Apply(s, a), epoch)
  {
    hide Slot, Phase, CompletionFor, WaitSlot, WaitPhase, Matches, Settled, Work;
    match a {
      case Execute(i, status) => SettledExecute(s, i, status, epoch);
      case Post(i) => SettledPost(s, i, epoch);
      case _ => SettledFrame(s, Apply(s, a), epoch);
    }
  }

  lemma SettledFrame(s: State, t: State, epoch: nat)
    requires Settled(s, epoch) && t.done == s.done && t.executed == s.executed && t.answers == s.answers
    ensures Settled(t, epoch)
  {
  }

  lemma SettledExecute(s: State, i: nat, status: nat, epoch: nat)
    requires Wf(s) && Work(s) && Settled(s, epoch) && Enabled(s, Execute(i, status))
    ensures Settled(Apply(s, Execute(i, status)), epoch)
  {
    hide Apply;
    ExecuteEffect(s, i, status);
    assert i !in s.done;
  }

  lemma SettledPost(s: State, i: nat, epoch: nat)
    requires Wf(s) && Work(s) && Settled(s, epoch) && Enabled(s, Post(i))
    ensures Settled(Apply(s, Post(i)), epoch)
  {
    hide Slot, Phase, CompletionFor;
    assert i !in s.done;
  }

  lemma StepInv(s: State, a: Step)
    requires Inv(s) && Enabled(s, a)
    ensures Inv(Apply(s, a))
  {
    hide Slot, Phase, Indices, Order, SqMemory, CqMemory, Entries, Taken, Work, Logs;
    GuardHolds(s, a);
    if a.Consume? {
      WaitPosition(s, a.n);
      PhaseTagExact(s, a.n);
    }
    IndicesKept(s, a);
    OrderKept(s, a);
    SqMemoryKept(s, a);
    CqMemoryKept(s, a);
    EntriesKept(s, a);
    TakenKept(s, a);
    WorkKept(s, a);
    LogsKept(s, a);
  }

  /** Everything above holds in every state of every run. */
  lemma {:induction false} RunInv(s: State, steps: seq<Step>)
    requires Inv(s) && Run(s, steps).Some?
    ensures Inv(Run(s, steps).value)
  {
    if steps != [] {
      var n := |steps| - 1;
      RunInv(s, steps[..n]);
      StepInv(Run(s, steps[..n]).value, steps[n]);
    }
  }
}
