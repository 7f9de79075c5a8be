/** What the invariant of `Protocol` means for the driver: every statement here is about
    all runs, or about all states satisfying the invariant that every run keeps. */
module ProtocolTheorems {
  import opened Ring
  import opened Commands
  import opened Options
  import opened Protocol

  // ---------------------------------------------------------------- submission ring

  /** In every run the driver's view trails the fetches, which trail the doorbell, which
      trails the submissions, which stay less than a lap ahead of the driver's view; and what
      the controller has read is, in order, exactly what the driver wrote: no entry was
      overwritten before it was fetched. */
  lemma SubmissionSafety(len: nat, sq: seq<Command>, cq: seq<Completion>, steps: seq<Step>)
    requires ValidInit(len, sq, cq) && Run(Init(len, sq, cq), steps).Some?
    ensures var s := Run(Init(len, sq, cq), steps).value;
      && s.seen <= |s.fetched| <= s.rung <= |s.submitted| <= s.seen + len - 1
      && s.fetched == s.submitted[..|s.fetched|]
      && (IsFull(s) <==> |s.submitted| == s.seen + len - 1)
      && (IsEmpty(s) <==> |s.submitted| == s.seen)
  {
    hide Slot, Phase;
    InitInv(len, sq, cq);
    RunInv(Init(len, sq, cq), steps);
    var s := Run(Init(len, sq, cq), steps).value;
    LenKept(Init(len, sq, cq), steps);
    FullIff(s);
    EmptyIff(s);
  }

  lemma {:induction false} LenKept(s: State, steps: seq<Step>)
    requires Wf(s) && Run(s, steps).Some?
    ensures Run(s, steps).value.len == s.len
  {
    hide Slot, Phase;
    if steps != [] {
      LenKept(s, steps[..|steps| - 1]);
    }
  }

  /** The reported queue head never moves backwards, over any stretch of any run. */
  lemma {:induction false} HeadNeverMovesBack(s: State, steps: seq<Step>)
    requires Inv(s) && Run(s, steps).Some?
    ensures s.seen <= Run(s, steps).value.seen
  {
    hide Slot, Phase, Parts;
    if steps != [] {
      var n := |steps| - 1;
      HeadNeverMovesBack(s, steps[..n]);
      RunInv(s, steps[..n]);
      if steps[n].Latch? {
        LatchAdvances(Run(s, steps[..n]).value);
      }
    }
  }

  lemma LatchAdvances(s: State)
    requires Inv(s) && Enabled(s, Latch)
    ensures Apply(s, Latch).seen == s.reported[s.consumed - 1] >= s.seen
  {
    hide Slot, Phase;
  }

  /** `submit` without the check of submit_checked: the ring reads as empty afterwards
      exactly when it was full before. */
  lemma UncheckedSubmitLooksEmptyIff(s: State, cmd: Command)
    requires Inv(s)
    ensures IsEmpty(s.(sq := s.sq[s.tail := cmd], tail := Slot(s.tail + 1, s.len))) <==> IsFull(s)
  {
    hide Slot, Phase;
  }

  // ---------------------------------------------------------------- completion ring

  /** If the n-th completion from here seems to be there, n completions are. */
  ghost predicate Truthful(s: State, n: nat)
    requires Wf(s) && n > 0
  {
    Matches(s, n) ==> s.consumed + n <= |s.posted|
  }

  /** Waiting for the n-th completion is truthful in every run exactly for n up to the ring
      length: beyond it the single phase flip is not enough, and a fresh ring already matches. */
  lemma {:induction false} BatchWaitTruthfulIff(len: nat, sq: seq<Command>, cq: seq<Completion>, n: nat)
    requires ValidInit(len, sq, cq) && n > 0
    ensures (forall steps: seq<Step> {:trigger Run(Init(len, sq, cq), steps)} | Run(Init(len, sq, cq), steps).Some? ::
              Truthful(Run(Init(len, sq, cq), steps).value, n))
            <==> n <= len
  {
    hide Slot, Phase, Truthful, Run, Inv;
    var init := Init(len, sq, cq);
    if n <= len {
      forall steps: seq<Step> | Run(init, steps).Some?
        ensures Truthful(Run(init, steps).value, n)
      {
        TruthfulRun(len, sq, cq, steps, n);
      }
    } else {
      RunNothing(init);
      FreshLies(len, sq, cq, n);
      assert !Truthful(Run(Init(len, sq, cq), []).value, n);
    }
  }

  lemma TruthfulRun(len: nat, sq: seq<Command>, cq: seq<Completion>, steps: seq<Step>, n: nat)
    requires ValidInit(len, sq, cq) && 0 < n <= len && Run(Init(len, sq, cq), steps).Some?
    ensures Truthful(Run(Init(len, sq, cq), steps).value, n)
  {
    hide Slot, Phase, Run, Matches, Indices, Order, SqMemory, CqMemory, Entries, Taken, Work, Logs;
    InitInv(len, sq, cq);
    RunInv(Init(len, sq, cq), steps);
    LenKept(Init(len, sq, cq), steps);
    PhaseTagExact(Run(Init(len, sq, cq), steps).value, n);
  }

  lemma FreshLies(len: nat, sq: seq<Command>, cq: seq<Completion>, n: nat)
    requires ValidInit(len, sq, cq) && n > len
    ensures !Truthful(Init(len, sq, cq), n)
  {
    hide Slot;
  }

  /** What taking n completions at once does to the driver. */
  lemma ConsumeResult(s: State, n: nat)
    requires Inv(s) && Enabled(s, Consume(n))
    ensures s.consumed + n <= |s.posted|
    ensures Apply(s, Consume(n)) == s.(cqHead := Slot(s.consumed + n, s.len), phase := Phase(s.consumed + n, s.len),
                                       last := s.posted[s.consumed + n - 1], consumed := s.consumed + n)
  {
    hide Slot, Phase, SqMemory, Taken, Work, Logs, Entry;
    PhaseTagExact(s, n);
    WaitPosition(s, n);
    Next(s.consumed + n - 1, s.len);
  }

  function Singles(n: nat): (steps: seq<Step>)
    ensures |steps| == n
  {
    if n == 0 then [] else Singles(n - 1) + [Consume(1)]
  }

  /** Taking n completions is taking n - 1 and then one more. */
  lemma SplitConsume(s: State, n: nat)
    requires Inv(s) && 1 < n < s.len
    ensures Enabled(s, Consume(n)) <==>
            Enabled(s, Consume(n - 1)) && Enabled(Apply(s, Consume(n - 1)), Consume(1))
    ensures Enabled(s, Consume(n)) ==> Apply(Apply(s, Consume(n - 1)), Consume(1)) == Apply(s, Consume(n))
  {
    hide Slot, Phase, Parts, Matches, WaitSlot, WaitPhase, Run;
    TagOf(s, n);
    TagOf(s, n - 1);
    if Enabled(s, Consume(n - 1)) {
      var m := Apply(s, Consume(n - 1));
      StepInv(s, Consume(n - 1));
      ConsumeResult(s, n - 1);
      hide Apply, Enabled;
      TagOf(m, 1);
      if Enabled(s, Consume(n)) {
        ConsumeResult(s, n);
        ConsumeResult(m, 1);
      }
    }
  }

  /** complete_n(n) is n calls of complete: it can finish exactly when all n of them can, and
      then leaves the same head, the same phase and the same entry. */
  lemma {:induction false} BatchIsSingles(s: State, n: nat)
    requires Inv(s) && 1 <= n < s.len
    ensures Enabled(s, Consume(n)) <==> Run(s, Singles(n)).Some?
    ensures Enabled(s, Consume(n)) ==> Run(s, Singles(n)) == Some(Apply(s, Consume(n)))
  {
    hide Slot, Phase, Parts, Apply, Enabled;
    if n == 1 {
      assert Singles(1) == [] + [Consume(1)] by { assert Singles(0) == []; }
      RunAppend(s, [], Consume(1));
    } else {
      BatchIsSingles(s, n - 1);
      RunAppend(s, Singles(n - 1), Consume(1));
      SplitConsume(s, n);
    }
  }

  lemma TagOf(s: State, n: nat)
    requires Inv(s) && 1 <= n < s.len
    ensures Wf(s) && (Enabled(s, Consume(n)) <==> s.consumed + n <= |s.posted|)
  {
    hide Slot, Phase;
    PhaseTagExact(s, n);
  }

  /** The entries the driver reads from the ring memory in a run. */
  function Reads(s: State, steps: seq<Step>): seq<Completion>
    requires Wf(s) && Run(s, steps).Some?
  {
    if steps == [] then []
    else
      var n := |steps| - 1;
      var m := Run(s, steps[..n]).value;
      Reads(s, steps[..n]) + (if steps[n].Consume? then [m.cq[WaitSlot(m, steps[n].n)]] else [])
  }

  /** After each read, how many completions the driver has moved past. */
  function Counts(steps: seq<Step>): seq<nat> {
    if steps == [] then []
    else
      var n := |steps| - 1;
      var earlier := Counts(steps[..n]);
      if steps[n].Consume? then earlier + [LastOr0(earlier) + steps[n].n] else earlier
  }

  function LastOr0(xs: seq<nat>): nat { if xs == [] then 0 else xs[|xs| - 1] }

  /** Nothing stale, duplicated or lost: the k-th read returns the entry that was posted
      Counts[k]-th, the counts strictly increase, and they never pass what was posted. */
  lemma {:induction false} ReadsArePosted(len: nat, sq: seq<Command>, cq: seq<Completion>, steps: seq<Step>)
    requires ValidInit(len, sq, cq) && Run(Init(len, sq, cq), steps).Some?
    ensures var s := Run(Init(len, sq, cq), steps).value;
      Faithful(Reads(Init(len, sq, cq), steps), Counts(steps), s.posted, s.consumed)
  {
    hide Inv, Faithful, WaitSlot, Apply, Enabled;
    var init := Init(len, sq, cq);
    InitInv(len, sq, cq);
    if steps == [] {
      FaithfulStart();
    } else {
      var n := |steps| - 1;
      ReadsArePosted(len, sq, cq, steps[..n]);
      RunInv(init, steps[..n]);
      FaithfulStep(Reads(init, steps[..n]), Counts(steps[..n]), Run(init, steps[..n]).value, steps[n]);
    }
  }

  /** One more step of the run. */
  lemma FaithfulStep(entries: seq<Completion>, counts: seq<nat>, m: State, a: Step)
    requires Inv(m) && Enabled(m, a) && Faithful(entries, counts, m.posted, m.consumed)
    ensures var entries' := entries + (if a.Consume? then [m.cq[WaitSlot(m, a.n)]] else []);
      var counts' := if a.Consume? then counts + [LastOr0(counts) + a.n] else counts;
      Faithful(entries', counts', Apply(m, a).posted, Apply(m, a).consumed)
  {
    hide Slot, Phase, Parts, Faithful, WaitSlot;
    assert entries + [] == entries;
    if a.Consume? {
      ReadEntry(m, a.n);
      FaithfulRead(entries, counts, m.posted, m.consumed, a.n);
    } else if a.Post? {
      FaithfulPost(entries, counts, m.posted, m.consumed, CompletionFor(m, a.i));
    }
  }

  ghost predicate Faithful(entries: seq<Completion>, counts: seq<nat>, posted: seq<Completion>, consumed: nat) {
    && |entries| == |counts| && LastOr0(counts) == consumed <= |posted|
    && (forall k :: 0 <= k < |counts| ==> 1 <= counts[k] <= |posted| && entries[k] == posted[counts[k] - 1])
    && (forall j, k :: 0 <= j < k < |counts| ==> counts[j] < counts[k])
  }

  lemma FaithfulStart()
    ensures Faithful([], [], [], 0)
  {
  }

  lemma FaithfulRead(entries: seq<Completion>, counts: seq<nat>, posted: seq<Completion>, consumed: nat, n: nat)
    requires Faithful(entries, counts, posted, consumed) && 1 <= n && consumed + n <= |posted|
    ensures LastOr0(counts) == consumed
    ensures Faithful(entries + [posted[consumed + n - 1]], counts + [consumed + n], posted, consumed + n)
  {
    forall k | 0 <= k < |counts|
      ensures counts[k] <= consumed
    {
      assert k < |counts| - 1 ==> counts[k] < counts[|counts| - 1];
    }
  }

  lemma FaithfulPost(entries: seq<Completion>, counts: seq<nat>, posted: seq<Completion>, consumed: nat, e: Completion)
    requires Faithful(entries, counts, posted, consumed)
    ensures Faithful(entries, counts, posted + [e], consumed)
  {
  }

  /** Taking completions one at a time reads exactly a prefix of what was posted. */
  lemma SingleReadsArePrefix(len: nat, sq: seq<Command>, cq: seq<Completion>, steps: seq<Step>)
    requires ValidInit(len, sq, cq) && Run(Init(len, sq, cq), steps).Some?
    requires forall k :: 0 <= k < |steps| && steps[k].Consume? ==> steps[k].n == 1
    ensures var s := Run(Init(len, sq, cq), steps).value;
      s.consumed <= |s.posted| && Reads(Init(len, sq, cq), steps) == s.posted[..s.consumed]
  {
    hide Slot, Phase, Run;
    ReadsArePosted(len, sq, cq, steps);
    SingleCounts(steps);
  }

  lemma {:induction false} SingleCounts(steps: seq<Step>)
    requires forall k :: 0 <= k < |steps| && steps[k].Consume? ==> steps[k].n == 1
    ensures var counts := Counts(steps);
      LastOr0(counts) == |counts| && forall k :: 0 <= k < |counts| ==> counts[k] == k + 1
  {
    if steps != [] {
      var n := |steps| - 1;
      assert forall k :: 0 <= k < n ==> steps[..n][k] == steps[k];
      SingleCounts(steps[..n]);
    }
  }

  lemma ReadEntry(m: State, n: nat)
    requires Inv(m) && Enabled(m, Consume(n))
    ensures m.consumed + n <= |m.posted| && m.cq[WaitSlot(m, n)] == m.posted[m.consumed + n - 1]
  {
    hide Slot, Phase;
    PhaseTagExact(m, n);
  }

  // ---------------------------------------------------------------- waiting

  /** The controller steps still owed: three for each command it was told of and has not
      fetched, two for each it has fetched, one for each it has executed. */
  function Owed(s: State): int {
    3 * (s.rung - |s.fetched|) + 2 * |s.toExecute| + |s.toPost|
  }

  /** No step of the controller touches what the driver owns, and each settles one debt. */
  lemma ControllerStepPays(s: State, a: Step)
    requires Wf(s) && s.toExecute !! s.toPost && Enabled(s, a) && ControllerStep(a)
    ensures var t := Apply(s, a);
      && Owed(t) == Owed(s) - 1 && SameDriver(s, t)
  {
    hide Slot, Phase, CompletionFor, Owed;
    match a
    case Fetch => PaidByFetch(s);
    case Execute(i, status) => PaidByExecute(s, i, status);
    case Post(i) => PaidByPost(s, i);
  }

  lemma PaidByFetch(s: State)
    requires Wf(s) && Enabled(s, Fetch)
    ensures Owed(Apply(s, Fetch)) == Owed(s) - 1
  {
    hide Slot, Phase;
    assert |s.toExecute + {|s.fetched|}| == |s.toExecute| + 1;
  }

  lemma PaidByExecute(s: State, i: nat, status: nat)
    requires Wf(s) && s.toExecute !! s.toPost && Enabled(s, Execute(i, status))
    ensures Owed(Apply(s, Execute(i, status))) == Owed(s) - 1
  {
    hide Slot, Phase;
    assert |s.toExecute - {i}| == |s.toExecute| - 1;
    assert |s.toPost + {i}| == |s.toPost| + 1;
  }

  lemma PaidByPost(s: State, i: nat)
    requires Wf(s) && Enabled(s, Post(i))
    ensures Owed(Apply(s, Post(i))) == Owed(s) - 1
  {
    hide Slot, Phase;
    assert |s.toPost - {i}| == |s.toPost| - 1;
  }

  /** Everything the driver owns is unchanged; the controller's logs have only grown. */
  predicate SameDriver(s: State, t: State) {
    && t.len == s.len && t.sq == s.sq && t.head == s.head && t.tail == s.tail
    && t.cqHead == s.cqHead && t.phase == s.phase && t.last == s.last
    && t.sqDoorbell == s.sqDoorbell && t.cqDoorbell == s.cqDoorbell
    && t.submitted == s.submitted && t.ahead == s.ahead && t.rung == s.rung
    && t.consumed == s.consumed && t.freed == s.freed && t.seen == s.seen
    && s.fetched <= t.fetched && s.executed <= t.executed
    && s.posted <= t.posted && s.answers <= t.answers && s.reported <= t.reported
  }

  ghost predicate Quiescent(s: State)
    requires Wf(s)
  {
    forall a: Step :: ControllerStep(a) ==> !Enabled(s, a)
  }

  /** Left alone, the controller takes at most Owed(s) steps. */
  lemma {:induction false} ControllerRunBounded(s: State, steps: seq<Step>)
    requires Inv(s) && Run(s, steps).Some? && forall k :: 0 <= k < |steps| ==> ControllerStep(steps[k])
    ensures var t := Run(s, steps).value;
      && Inv(t) && SameDriver(s, t) && Owed(t) == Owed(s) - |steps| && |steps| <= Owed(s)
  {
    hide Slot, Phase, Parts;
    RunInv(s, steps);
    if steps != [] {
      var n := |steps| - 1;
      assert forall k :: 0 <= k < n ==> steps[..n][k] == steps[k];
      ControllerRunBounded(s, steps[..n]);
      WorkDisjoint(Run(s, steps[..n]).value);
      ControllerStepPays(Run(s, steps[..n]).value, steps[n]);
    }
    OwedNonNegative(Run(s, steps).value);
  }

  lemma WorkDisjoint(s: State)
    requires Inv(s)
    ensures s.toExecute !! s.toPost
  {
    hide Slot, Phase;
  }

  lemma OwedNonNegative(s: State)
    requires Inv(s)
    ensures Owed(s) >= 0
  {
    hide Slot, Phase;
  }

  /** When the controller has nothing left to do, everything it was told of is answered, or
      the completion ring is full. */
  lemma QuiescentPosted(s: State)
    requires Inv(s) && Quiescent(s)
    ensures |s.posted| == if s.rung < s.freed + s.len then s.rung else s.freed + s.len - 1
  {
    hide Slot, Phase;
    FetchEnabledIff(s);
    assert !Enabled(s, Fetch);
    assert s.toExecute == {} by {
      assert forall i :: i in s.toExecute ==> Enabled(s, Execute(i, 0));
    }
    if s.toPost != {} {
      var i :| i in s.toPost;
      PostEnabledIff(s, i);
      assert !Enabled(s, Post(i));
    }
  }

  /** The wait of complete_n(n), with both doorbells up to date: however the controller is
      scheduled, it comes to rest within Owed(s) steps, and then the awaited entry is there
      exactly if n is at most the number of outstanding commands and below the ring length. */
  lemma WaitEndsIff(s: State, steps: seq<Step>, n: nat)
    requires Inv(s) && s.rung == |s.submitted| && s.freed == s.consumed && 1 <= n <= s.len
    requires Run(s, steps).Some? && (forall k :: 0 <= k < |steps| ==> ControllerStep(steps[k]))
    requires Quiescent(Run(s, steps).value)
    ensures |steps| <= Owed(s)
    ensures Matches(Run(s, steps).value, n) <==> n <= |s.submitted| - s.consumed && n < s.len
  {
    hide Slot, Phase;
    ControllerRunBounded(s, steps);
    var t := Run(s, steps).value;
    QuiescentPosted(t);
    PhaseTagExact(t, n);
  }

  /** So before the entry appears the controller always has a step to take. */
  lemma WaitNeverStuck(s: State, n: nat)
    requires Inv(s) && s.rung == |s.submitted| && s.freed == s.consumed
    requires 1 <= n < s.len && n <= |s.submitted| - s.consumed && !Matches(s, n)
    ensures exists a: Step :: ControllerStep(a) && Enabled(s, a)
  {
    hide Slot, Phase;
    if Quiescent(s) {
      assert Run(s, []) == Some(s);
      WaitEndsIff(s, [], n);
    }
  }

  // ---------------------------------------------------------------- draining

  lemma {:induction false} DistinctCovers(xs: seq<nat>, s: set<nat>)
    requires forall j, k :: 0 <= j < k < |xs| ==> xs[j] != xs[k]
    requires forall j :: 0 <= j < |xs| ==> xs[j] in s
    requires |xs| == |s|
    ensures forall x :: x in s ==> x in xs
  {
    if xs != [] {
      var n := |xs| - 1;
      DistinctCovers(xs[..n], s - {xs[n]});
      assert forall x :: x in xs[..n] ==> x in xs;
      assert xs[n] in xs;
    }
  }

  /** Once as many completions are consumed as commands were submitted, all work is done:
      every command was executed exactly once and answered exactly once. */
  lemma DrainedWork(s: State)
    requires Inv(s) && s.consumed == |s.submitted|
    ensures s.toExecute == {} && s.toPost == {} && s.fetched == s.submitted && |s.posted| == |s.submitted|
    ensures |s.executed| == |s.submitted| == |s.answers|
    ensures forall i :: 0 <= i < |s.submitted| ==> i in s.executed && i in s.answers
    ensures forall j, k :: 0 <= j < k < |s.executed| ==> s.executed[j] != s.executed[k]
    ensures forall j, k :: 0 <= j < k < |s.answers| ==> s.answers[j] != s.answers[k]
  {
    hide Slot, Phase;
    assert |s.toExecute| == 0 && |s.toPost| == 0;
    DistinctCovers(s.answers, s.done);
    assert s.results.Keys == s.done;
    DistinctCovers(s.executed, s.done);
  }

  lemma DrainedSettles(s: State)
    requires Inv(s) && s.consumed == |s.submitted|
    ensures |s.executed| == |s.submitted| && Settled(s, |s.submitted|)
  {
    hide Slot, Phase;
    DrainedWork(s);
  }

  /** The drain theorem: after any run, by any mix of single and batched completions and in
      whatever order the controller answers, once the last completion's head is latched and
      as many completions were consumed as commands submitted, the ring reads as empty. */
  lemma DrainedIsEmpty(len: nat, sq: seq<Command>, cq: seq<Completion>, steps: seq<Step>)
    requires ValidInit(len, sq, cq) && Run(Init(len, sq, cq), steps + [Latch]).Some?
    ensures var s := Run(Init(len, sq, cq), steps + [Latch]).value;
      s.consumed == |s.submitted| ==> IsEmpty(s)
  {
    hide Slot, Phase, Parts;
    var init := Init(len, sq, cq);
    InitInv(len, sq, cq);
    RunAppend(init, steps, Latch);
    RunInv(init, steps);
    var m := Run(init, steps).value;
    StepInv(m, Latch);
    LatchAdvances(m);
    if m.consumed == |m.submitted| {
      LatchedDrain(Apply(m, Latch));
    }
  }

  lemma LatchedDrain(s: State)
    requires Inv(s) && 0 < s.consumed == |s.submitted| && s.seen == s.reported[s.consumed - 1]
    ensures IsEmpty(s)
  {
    hide Slot, Phase;
    ReportedBound(s, s.consumed - 1);
  }

  // ---------------------------------------------------------------- failures in a batch

  /** Before n completions are taken at once and the last reports success: all of them do. */
  ghost predicate LastTellsAll(s: State, n: nat)
    requires n > 0
  {
    s.consumed + n <= |s.posted| && StatusField(s.posted[s.consumed + n - 1]) == 0 ==>
      forall j :: s.consumed <= j < s.consumed + n ==> StatusField(s.posted[j]) == 0
  }

  /** One command from submission to completion. */
  function Round(k: nat, status: nat): seq<Step> {
    [Submit(ZERO_COMMAND), RingSq, Fetch, Execute(k, status), Post(k)]
  }

  /** n commands, the first of which fails. */
  function FirstFails(n: nat): seq<Step> {
    if n == 0 then [] else FirstFails(n - 1) + Round(n - 1, if n == 1 then 1 else 0)
  }

  /** Nothing is under way and no completion has been taken. */
  ghost predicate Pending(s: State, k: nat) {
    && Inv(s) && |s.submitted| == |s.fetched| == |s.posted| == s.rung == k
    && s.seen == s.freed == s.consumed == 0
  }

  lemma RunMore(s: State, steps: seq<Step>, m: State, more: seq<Step>)
    requires Wf(s) && Run(s, steps) == Some(m)
    ensures Run(s, steps + more) == Run(m, more)
    decreases |more|
  {
    hide Enabled, Apply;
    if more == [] {
      assert steps + more == steps;
    } else {
      var n := |more| - 1;
      RunMore(s, steps, m, more[..n]);
      assert steps + more == (steps + more[..n]) + [more[n]];
      RunAppend(s, steps + more[..n], more[n]);
    }
  }

  lemma OneRound(s: State, k: nat, status: nat) returns (t: State)
    requires Pending(s, k) && k < s.len - 1
    ensures Run(s, Round(k, status)) == Some(t) && Pending(t, k + 1) && t.len == s.len
    ensures |t.posted| == k + 1 && t.posted[..k] == s.posted && StatusField(t.posted[k]) == status
  {
    hide Slot, Phase, Parts, Run;
    var a := Told(s);
    StepInv(a, Fetch);
    var b := Apply(a, Fetch);
    StepInv(b, Execute(k, status));
    var c := Apply(b, Execute(k, status));
    RoomToPost(c, k);
    StepInv(c, Post(k));
    t := Apply(c, Post(k));
    hide Apply, Enabled;
    RunAppend(s, [Submit(ZERO_COMMAND), RingSq], Fetch);
    RunAppend(s, [Submit(ZERO_COMMAND), RingSq, Fetch], Execute(k, status));
    RunAppend(s, [Submit(ZERO_COMMAND), RingSq, Fetch, Execute(k, status)], Post(k));
    assert [Submit(ZERO_COMMAND), RingSq] + [Fetch] == [Submit(ZERO_COMMAND), RingSq, Fetch];
    assert [Submit(ZERO_COMMAND), RingSq, Fetch] + [Execute(k, status)]
           == [Submit(ZERO_COMMAND), RingSq, Fetch, Execute(k, status)];
    assert [Submit(ZERO_COMMAND), RingSq, Fetch, Execute(k, status)] + [Post(k)] == Round(k, status);
  }

  /** One more command, and the doorbell. */
  lemma Told(s: State) returns (t: State)
    requires Inv(s) && |s.submitted| < s.seen + s.len - 1
    ensures Run(s, [Submit(ZERO_COMMAND), RingSq]) == Some(t) && Inv(t)
    ensures Enabled(t, Fetch) <==> |s.fetched| < t.rung
    ensures t.rung == |t.submitted| == |s.submitted| + 1
    ensures t == s.(sq := t.sq, tail := t.tail, submitted := t.submitted, ahead := t.ahead,
                    sqDoorbell := t.sqDoorbell, rung := t.rung)
  {
    hide Slot, Phase, SqMemory, CqMemory, Entries, Taken, Work, Logs;
    FullIff(s);
    var a := Apply(s, Submit(ZERO_COMMAND));
    StepInv(s, Submit(ZERO_COMMAND));
    StepInv(a, RingSq);
    t := Apply(a, RingSq);
    FetchEnabledIff(t);
    assert [] + [Submit(ZERO_COMMAND)] == [Submit(ZERO_COMMAND)];
    assert [Submit(ZERO_COMMAND)] + [RingSq] == [Submit(ZERO_COMMAND), RingSq];
    RunAppend(s, [], Submit(ZERO_COMMAND));
    RunAppend(s, [Submit(ZERO_COMMAND)], RingSq);
  }

  lemma RoomToPost(s: State, i: nat)
    requires Inv(s) && i in s.toPost
    ensures Enabled(s, Post(i)) <==> |s.posted| < s.freed + s.len - 1
  {
    hide Slot, Phase, SqMemory, CqMemory, Entries, Taken, Work, Logs;
    PostEnabledIff(s, i);
  }

  /** Whether the last of n completions speaks for them all, in every run: only if n is 1. A
      failure earlier in a batch goes unnoticed. */
  lemma LastTellsAllIff(len: nat, sq: seq<Command>, cq: seq<Completion>, n: nat)
    requires ValidInit(len, sq, cq) && 1 <= n < len
    ensures (forall steps: seq<Step> {:trigger Run(Init(len, sq, cq), steps)} | Run(Init(len, sq, cq), steps).Some? ::
              LastTellsAll(Run(Init(len, sq, cq), steps).value, n))
            <==> n == 1
  {
    hide Slot, Phase, Parts, Apply, Enabled;
    if n > 1 {
      var t := FailsUnseen(len, sq, cq, n);
      assert !LastTellsAll(t, n) by {
        assert StatusField(t.posted[0]) != 0;
      }
    }
  }

  lemma {:induction false} FailsUnseen(len: nat, sq: seq<Command>, cq: seq<Completion>, n: nat) returns (t: State)
    requires ValidInit(len, sq, cq) && n < len
    ensures Run(Init(len, sq, cq), FirstFails(n)) == Some(t) && Pending(t, n) && t.len == len
    ensures |t.posted| == n && forall j :: 0 <= j < n ==> StatusField(t.posted[j]) == if j == 0 then 1 else 0
  {
    hide Slot, Phase, Parts, Apply, Enabled, Run;
    if n == 0 {
      InitInv(len, sq, cq);
      t := Init(len, sq, cq);
      assert Run(t, []) == Some(t) by { RunNothing(t); }
    } else {
      var m := FailsUnseen(len, sq, cq, n - 1);
      var status := if n == 1 then 1 else 0;
      t := OneRound(m, n - 1, status);
      RunMore(Init(len, sq, cq), FirstFails(n - 1), m, Round(n - 1, status));
      assert forall j :: 0 <= j < n - 1 ==> t.posted[j] == t.posted[..n - 1][j];
    }
  }

  lemma RunNothing(s: State)
    requires Wf(s)
    ensures Run(s, []) == Some(s)
  {
  }
}
