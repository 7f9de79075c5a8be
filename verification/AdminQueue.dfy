/** The admin queue: the rings behind submit_and_complete_admin (src/nvme.rs). One command is
    outstanding at a time, it is submitted without a check, and the reported queue head is never
    latched; the peer is a controller that carries out queue management. */
module AdminQueueModel {
  import opened Options
  import opened Ring
  import opened Commands
  import opened Protocol
  import opened ProtocolTheorems
  import opened Queues
  import opened ControllerModel
  import opened QueuePair
  import opened AdminModel

  /** Since `before`, when `epoch` commands had been submitted and answered, at most one more was
      submitted; if it has been executed, `admin` and its status are what it made of `before`. */
  ghost predicate Accounted(before: Admin, epoch: nat, fault: nat, s: State, admin: Admin) {
    && Settled(s, epoch) && |s.submitted| <= epoch + 1 && |s.executed| <= epoch + 1
    && (|s.executed| == epoch ==> admin == before)
    && (|s.executed| == epoch + 1 ==>
          s.executed[epoch] == epoch && epoch < |s.fetched| && epoch in s.results
          && (admin, s.results[epoch]) == Manage(before, s.fetched[epoch], fault))
  }

  lemma AccountedKept(before: Admin, epoch: nat, fault: nat, s: State, admin: Admin, a: Step)
    requires Inv(s) && Enabled(s, a) && !a.Execute? && Accounted(before, epoch, fault, s, admin)
    requires a.Submit? ==> |s.submitted| == epoch
    ensures Accounted(before, epoch, fault, Apply(s, a), admin)
  {
    hide Manage, Indices, Order, SqMemory, CqMemory, Entries, Taken, Logs, Settled, Slot, Phase;
    SettledKept(s, a, epoch);
  }

  lemma AccountedExecute(before: Admin, epoch: nat, fault: nat, s: State, admin: Admin, i: nat)
    requires Inv(s) && Accounted(before, epoch, fault, s, admin) && i in s.toExecute
    ensures Wf(s)
    ensures var (b, status) := Manage(admin, s.fetched[i], fault);
      Enabled(s, Execute(i, status)) && Accounted(before, epoch, fault, Apply(s, Execute(i, status)), b)
  {
    hide Manage, Indices, Order, SqMemory, CqMemory, Entries, Taken, Slot, Phase;
    OnlyNew(s, epoch, i);
    hide Settled;
    SettledKept(s, Execute(i, Manage(admin, s.fetched[i], fault).1), epoch);
  }

  /** What waits to be executed can only be the new command. */
  lemma OnlyNew(s: State, epoch: nat, i: nat)
    requires Inv(s) && Settled(s, epoch) && |s.submitted| <= epoch + 1 && i in s.toExecute
    ensures i == epoch && |s.executed| == epoch
  {
    hide Indices, Order, SqMemory, CqMemory, Entries, Taken, Slot, Phase;
    assert i !in s.done;
  }

  /** When the one command is answered, the answer carries its status. */
  lemma AccountSettled(before: Admin, epoch: nat, fault: nat, s: State, admin: Admin)
    requires Inv(s) && Accounted(before, epoch, fault, s, admin) && s.consumed == |s.submitted| == epoch + 1
    ensures |s.posted| == epoch + 1 && s.last == s.posted[epoch]
    ensures (admin, StatusField(s.last)) == Manage(before, s.submitted[epoch], fault)
    ensures s.last.cid == s.submitted[epoch].cid
  {
    hide Manage, Indices, Order, SqMemory, CqMemory, Logs, Slot, Phase, Settled, StatusField;
    DrainedWork(s);
    assert Entry(s, epoch);
    AnsweredIsNew(s, epoch);
  }

  lemma AnsweredIsNew(s: State, epoch: nat)
    requires Settled(s, epoch) && |s.answers| == epoch + 1 && Inv(s) && |s.submitted| == epoch + 1
    ensures s.answers[epoch] == epoch
  {
    hide Indices, Order, SqMemory, CqMemory, Entries, Taken, Slot, Phase;
    assert s.answers[epoch] in s.done;
  }

  class AdminPeer {
    var st: State
    var admin: Admin
    var fault: nat               // any other reason to refuse the next command
    ghost var before: Admin
    ghost var epoch: nat

    ghost predicate Valid()
      reads this
    {
      Inv(st) && Accounted(before, epoch, fault, st, admin)
    }

    constructor (len: nat, sq: seq<Command>, cq: seq<Completion>, admin: Admin)
      requires ValidInit(len, sq, cq)
      ensures Valid() && st == Init(len, sq, cq) && this.admin == admin
    {
      hide Parts;
      InitInv(len, sq, cq);
      st, this.admin, fault, before, epoch := Init(len, sq, cq), admin, 0, admin, 0;
    }

    method Take(a: Step)
      requires Valid() && Enabled(st, a) && !a.Execute? && (a.Submit? ==> |st.submitted| == epoch)
      modifies this`st
      ensures Valid() && st == Apply(old(st), a)
    {
      hide Parts, Accounted;
      StepInv(st, a);
      AccountedKept(before, epoch, fault, st, admin, a);
      st := Apply(st, a);
    }

    method DoExecute(i: nat)
      requires Valid() && i in st.toExecute
      modifies this`st, this`admin
      ensures Valid()
      ensures exists status :: Enabled(old(st), Execute(i, status)) && st == Apply(old(st), Execute(i, status))
    {
      hide Parts, Accounted, Manage;
      var (b, status) := Manage(admin, st.fetched[i], fault);
      AccountedExecute(before, epoch, fault, st, admin, i);
      StepInv(st, Execute(i, status));
      st, admin := Apply(st, Execute(i, status)), b;
    }

    method DoPost(i: nat, ring: array<Completion>)
      requires Valid() && ring[..] == st.cq && Enabled(st, Post(i))
      modifies this`st, ring
      ensures Valid() && ring[..] == st.cq && st == Apply(old(st), Post(i))
    {
      hide Parts, Accounted, Inv, Slot, Phase;
      WfOf(st);
      ring[st.cqTail] := CompletionFor(st, i);
      Take(Post(i));
    }

    lemma WfOf(s: State)
      requires Inv(s)
      ensures Wf(s)
    {
      hide Parts;
    }

    /** One step of the controller, whichever of those possible it chooses. */
    method StepOnce(ring: array<Completion>)
      requires Valid() && ring[..] == st.cq
      requires exists a: Step :: ControllerStep(a) && Enabled(st, a)
      modifies this`st, this`admin, ring
      ensures Valid() && ring[..] == st.cq
      ensures SameDriver(old(st), st) && Owed(st) < Owed(old(st))
    {
      hide Parts, Accounted, SameDriver, Owed, Apply;
      ghost var s := st;
      WorkDisjoint(st);
      ghost var a: Step;
      if {
        case Enabled(st, Fetch) =>
          a := Fetch;
          FetchFrame(st);
          Take(Fetch);
        case st.toExecute != {} =>
          var i :| i in st.toExecute;
          DoExecute(i);
          ghost var status :| Enabled(s, Execute(i, status)) && st == Apply(s, Execute(i, status));
          a := Execute(i, status);
          ExecuteFrame(s, i, status);
        case exists i :: i in st.toPost && Enabled(st, Post(i)) =>
          var i :| i in st.toPost && Enabled(st, Post(i));
          a := Post(i);
          DoPost(i, ring);
      }
      ControllerStepPays(s, a);
    }

    /** Any number of steps, while the driver does something else. */
    method Interleave(ring: array<Completion>)
      requires Valid() && ring[..] == st.cq
      modifies this`st, this`admin, ring
      ensures Valid() && ring[..] == st.cq
      ensures SameDriver(old(st), st) && Owed(st) <= Owed(old(st))
    {
      hide Parts, Accounted, Owed;
      while *
        invariant Valid() && ring[..] == st.cq && SameDriver(old(st), st) && Owed(st) <= Owed(old(st))
        decreases Owed(st)
      {
        if Enabled(st, Fetch) || st.toExecute != {} || exists i :: i in st.toPost && Enabled(st, Post(i)) {
          SomeStep(st);
          OwedNonNegative(st);
          StepOnce(ring);
        } else {
          break;
        }
      }
    }

    /** A new account, between exchanges. */
    method Begin(fault: nat)
      requires Valid() && st.consumed == |st.submitted|
      modifies this`fault, this`before, this`epoch
      ensures Valid() && this.fault == fault && before == admin && epoch == |st.submitted|
    {
      hide Parts;
      DrainedSettles(st);
      this.fault, before, epoch := fault, admin, |st.executed|;
    }
  }

  class AdminQueue {
    const sub: SubmissionQueue
    const comp: CompletionQueue
    const peer: AdminPeer

    function Repr(): set<object> { {sub, comp, sub.commands, comp.commands, peer} }

    /** As for a queue pair, except that the driver's own head stays where it was: the state has the
        head the driver could have latched. */
    ghost predicate Coupled()
      reads Repr()
    {
      && sub.Valid() && comp.Valid() && peer.Valid()
      && sub.commands[..] == peer.st.sq && comp.commands[..] == peer.st.cq
      && sub.len == comp.len == peer.st.len == QUEUE_LENGTH && sub.tail == peer.st.tail && sub.head == 0
    }

    ghost predicate Valid()
      reads Repr()
    {
      && Coupled() && AtRest(peer.st) && Drained(peer.st)
      && comp.head == peer.st.cqHead && comp.phase == peer.st.phase
    }

    constructor (admin: Admin)
      ensures Valid() && fresh(Repr()) && peer.admin == admin
    {
      hide Parts, Accounted;
      sub := new SubmissionQueue(QUEUE_LENGTH);
      comp := new CompletionQueue(QUEUE_LENGTH);
      var sq := seq(QUEUE_LENGTH, _ => ZERO_COMMAND);
      var cq := seq(QUEUE_LENGTH, _ => ZERO_COMPLETION);
      peer := new AdminPeer(QUEUE_LENGTH, sq, cq, admin);
    }

    lemma Peered()
      requires Coupled()
      ensures Inv(peer.st) && sub.len == comp.len == peer.st.len >= 2 && sub.tail == peer.st.tail
    {
      hide Parts, Accounted;
    }

    method Pause()
      requires Coupled()
      modifies peer`st, peer`admin, comp.commands
      ensures Coupled() && SameDriver(old(peer.st), peer.st) && Owed(peer.st) <= Owed(old(peer.st))
    {
      hide AdminPeer.Valid, SameDriver, Owed;
      peer.Interleave(comp.commands);
      SameIndices(old(peer.st), peer.st);
    }

    lemma SameIndices(s: State, t: State)
      requires SameDriver(s, t)
      ensures t.sq == s.sq && t.len == s.len && t.tail == s.tail
    {
    }

    /** submit: there is room, although the driver does not look. */
    method Enqueue(c: Command)
      requires Coupled() && AtRest(peer.st) && Drained(peer.st) && peer.epoch == |peer.st.submitted|
      modifies sub`tail, sub.commands, peer`st
      ensures Coupled()
      ensures peer.st == old(peer.st).(sq := peer.st.sq, tail := peer.st.tail,
                                       submitted := old(peer.st.submitted) + [c], ahead := peer.st.ahead)
    {
      hide Parts, Slot, Phase, Accounted, Apply;
      RoomBound(peer.st);
      RoomIsEnabled(peer.st);
      var tail := sub.Submit(c);
      SubmitEffect(peer.st, c);
      peer.Take(Submit(c));
    }

    lemma RoomIsEnabled(s: State)
      requires Inv(s) && Room(s) > 0
      ensures Wf(s) && forall c :: Enabled(s, Submit(c))
    {
      hide Slot, Phase;
      FullIff(s);
    }

    method RingTail()
      requires Coupled()
      modifies peer`st
      ensures Coupled()
      ensures peer.st == old(peer.st).(sqDoorbell := old(peer.st.tail), rung := |old(peer.st.submitted)|)
    {
      hide Accounted, Parts, Apply;
      RingSqEffect(peer.st);
      peer.Take(RingSq);
    }

    /** submit and the doorbell. */
    method Send(c: Command)
      requires Coupled() && AtRest(peer.st) && Drained(peer.st) && peer.epoch == |peer.st.submitted|
      modifies sub`tail, sub.commands, peer`st, peer`admin, comp.commands
      ensures Coupled() && peer.st.submitted == old(peer.st.submitted) + [c] && AtRest(peer.st)
      ensures peer.st.consumed == old(peer.st.consumed) && peer.st.len == old(peer.st.len)
      ensures peer.st.cqHead == old(peer.st.cqHead) && peer.st.phase == old(peer.st.phase)
    {
      hide Coupled, Inv, AtRest;
      Enqueue(c);
      Pause();
      RingTail();
      Peered();
      SentAtRest(old(peer.st), peer.st, c);
    }

    lemma SentAtRest(s: State, t: State, c: Command)
      requires AtRest(s) && Inv(t)
      requires t.submitted == s.submitted + [c] && t.rung == |t.submitted|
      requires t.consumed == s.consumed && t.freed == s.freed && t.seen == s.seen && s.reported <= t.reported
      ensures AtRest(t)
    {
    }

    /** complete_spin, with any number of controller steps between two looks. */
    method Receive() returns (e: Completion)
      requires Coupled() && AtRest(peer.st) && Outstanding(peer.st) == 1
      requires comp.head == peer.st.cqHead && comp.phase == peer.st.phase
      modifies comp`head, comp`phase, comp.commands, peer`st, peer`admin
      ensures Coupled() && SameButConsumed(old(peer.st), peer.st, 1)
      ensures e == peer.st.last && comp.head == peer.st.cqHead && comp.phase == peer.st.phase
    {
      hide Coupled, Inv, AtRest, Owed;
      ghost var s := peer.st;
      while true
        invariant Coupled() && SameDriver(s, peer.st)
        invariant comp.head == peer.st.cqHead && comp.phase == peer.st.phase
        decreases Owed(peer.st)
      {
        Pause();
        var c := Look();
        if c != None {
          return c.value;
        }
        NotStuck(s, peer.st);
        Step();
      }
    }

    lemma NotStuck(s: State, t: State)
      requires AtRest(s) && Outstanding(s) == 1 && SameDriver(s, t) && Inv(t) && !Matches(t, 1)
      ensures Owed(t) >= 0 && exists a: Protocol.Step :: ControllerStep(a) && Enabled(t, a)
    {
      hide Parts, Slot, Phase, Matches, Owed;
      WaitNeverStuck(t, 1);
      OwedNonNegative(t);
    }

    method Step()
      requires Coupled() && exists a: Protocol.Step :: ControllerStep(a) && Enabled(peer.st, a)
      modifies peer`st, peer`admin, comp.commands
      ensures Coupled() && SameDriver(old(peer.st), peer.st) && Owed(peer.st) < Owed(old(peer.st))
    {
      hide AdminPeer.Valid, SameDriver, Owed;
      peer.StepOnce(comp.commands);
      SameIndices(old(peer.st), peer.st);
    }

    /** One look at the completion ring. */
    method Look() returns (r: Option<Completion>)
      requires Coupled() && comp.head == peer.st.cqHead && comp.phase == peer.st.phase
      modifies comp`head, comp`phase, peer`st
      ensures Coupled() && comp.head == peer.st.cqHead && comp.phase == peer.st.phase
      ensures r.None? ==> peer.st == old(peer.st) && Inv(peer.st) && !Matches(peer.st, 1)
      ensures r.Some? ==>
                peer.st == old(peer.st).(cqHead := comp.head, phase := comp.phase, last := r.value,
                                         consumed := old(peer.st.consumed) + 1)
    {
      hide Parts, Slot, Phase, Accounted, Apply;
      FirstWait(peer.st);
      var c := comp.Complete();
      if c != None {
        ConsumeEffect(peer.st, 1);
        peer.Take(Consume(1));
      }
      r := if c == None then None else Some(c.value.1);
    }

    lemma FirstWait(s: State)
      requires Inv(s)
      ensures WaitSlot(s, 1) == s.cqHead && WaitPhase(s, 1) == s.phase
    {
      hide Parts;
    }

    /** The head doorbell. What the driver does not do is recorded all the same: the head that was
        reported is the one the next submission is safe by. */
    method Acknowledge()
      requires Coupled() && peer.st.rung == |peer.st.submitted| && Drained(peer.st) && peer.st.consumed > 0
      requires comp.head == peer.st.cqHead && comp.phase == peer.st.phase
      modifies peer`st, peer`admin, comp.commands
      ensures Valid() && peer.st.submitted == old(peer.st.submitted) && peer.st.last == old(peer.st.last)
    {
      hide Coupled, Inv, Owed;
      Pause();
      RingHead();
      Pause();
      Remember();
      Peered();
    }

    method RingHead()
      requires Coupled()
      modifies peer`st
      ensures Coupled() && peer.st == old(peer.st).(cqDoorbell := old(peer.st.cqHead), freed := old(peer.st.consumed))
    {
      hide Accounted, Parts, Apply;
      RingCqEffect(peer.st);
      peer.Take(RingCq);
    }

    method Remember()
      requires Coupled() && peer.st.consumed > 0
      modifies peer`st
      ensures Coupled() && old(peer.st.consumed) <= |old(peer.st.reported)|
      ensures peer.st == old(peer.st).(head := old(peer.st.last.sqHead),
                                       seen := old(peer.st.reported[peer.st.consumed - 1]))
    {
      hide Accounted, Parts, Apply;
      LatchEffect(peer.st);
      peer.Take(Latch);
    }

    /** One exchange: the command is carried out exactly once if the controller accepts it and not at
        all otherwise, and the completion says which. */
    method Exchange(c: Command, fault: nat) returns (e: Completion)
      requires Valid()
      modifies Repr()
      ensures Valid() && (peer.admin, StatusField(e)) == Manage(old(peer.admin), c, fault)
      ensures peer.st.submitted == old(peer.st.submitted) + [c] && e.cid == c.cid
      ensures old(sub.tail) == |old(peer.st.submitted)| % QUEUE_LENGTH
    {
      hide Coupled, Inv, Manage, Accounted, StatusField;
      TailNow();
      Start(fault);
      ghost var before := peer.admin;
      Send(c);
      e := Receive();
      Acknowledge();
      Settle();
    }

    lemma TailNow()
      requires Valid()
      ensures sub.tail == |peer.st.submitted| % QUEUE_LENGTH
    {
      hide Slot, Phase, Accounted;
      SlotIsRemainder(|peer.st.submitted|, QUEUE_LENGTH);
    }

    method Start(fault: nat)
      requires Valid()
      modifies peer`fault, peer`before, peer`epoch
      ensures Valid() && peer.fault == fault && peer.before == peer.admin && peer.epoch == |peer.st.submitted|
    {
      hide Parts, Accounted;
      peer.Begin(fault);
    }

    lemma Settle()
      requires Valid() && peer.st.consumed == |peer.st.submitted| == peer.epoch + 1
      ensures (peer.admin, StatusField(peer.st.last)) == Manage(peer.before, peer.st.submitted[peer.epoch], peer.fault)
      ensures peer.st.last.cid == peer.st.submitted[peer.epoch].cid
    {
      hide Parts, Accounted, Manage, StatusField;
      AccountSettled(peer.before, peer.epoch, peer.fault, peer.st, peer.admin);
    }
  }
}
