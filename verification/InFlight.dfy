/** What two commands under way at once may have in common: the slice of the worker loop's buffer they
    use, and the identifier they carry. */
module InFlight {
  import opened Options
  import opened Ring
  import opened Commands
  import opened CommandIds
  import opened Protocol
  import opened Queues
  import opened QueuePair
  import opened Worker

  // ---------------------------------------------------------------- which operations share a slice

  /** Submitted, and not among the completions taken so far. */
  ghost predicate UnderWay(s: State, k: nat) {
    k < |s.submitted| && s.consumed <= |s.answers| && k !in s.answers[..s.consumed]
  }

  /** The operations under way use different slices, each having taken that behind as many operations
      as were outstanding. */
  ghost predicate SlicesDiffer(s: State) {
    forall k: nat, l: nat :: k < l && UnderWay(s, k) && UnderWay(s, l) ==>
      k < l < |s.ahead| && s.ahead[k] != s.ahead[l]
  }

  /** Every submission found fewer than `depth` commands outstanding, as those of Work do. */
  ghost predicate SubmitsBelow(s: State, depth: nat) { forall k :: 0 <= k < |s.ahead| ==> s.ahead[k] < depth }

  /** In every run of such a client the operations under way use different slices. */
  ghost predicate NeverShare(len: nat, depth: nat) {
    forall sq, cq, steps, s ::
      ValidInit(len, sq, cq) && Run(Init(len, sq, cq), steps) == Some(s) && SubmitsBelow(s, depth) ==> SlicesDiffer(s)
  }

  lemma {:induction false} AheadBound(s0: State, steps: seq<Step>, s: State, depth: nat)
    requires Wf(s0) && s0.submitted == [] && s0.ahead == [] && Run(s0, steps) == Some(s)
    ensures |s.ahead| == |s.submitted|
    ensures SubmitsBelow(s, depth) ==> Outstanding(s) <= depth
  {
    hide Slot, Phase, CompletionFor, WaitSlot, WaitPhase, Enabled;
    if steps != [] {
      var n := |steps| - 1;
      var m := Run(s0, steps[..n]).value;
      AheadBound(s0, steps[..n], m, depth);
      AheadStep(m, steps[n], depth);
    }
  }

  lemma AheadStep(m: State, a: Step, depth: nat)
    requires Wf(m) && Enabled(m, a) && |m.ahead| == |m.submitted|
    requires SubmitsBelow(m, depth) ==> Outstanding(m) <= depth
    ensures var s := Apply(m, a);
      && |s.ahead| == |s.submitted|
      && (SubmitsBelow(s, depth) ==> Outstanding(s) <= depth)
  {
    hide Slot, Phase, CompletionFor, WaitSlot, WaitPhase;
    var s := Apply(m, a);
    assert m.ahead <= s.ahead;
    assert forall k :: 0 <= k < |m.ahead| ==> m.ahead[k] == s.ahead[k];
    if a.Submit? {
      assert s.ahead[|m.ahead|] == Outstanding(m);
    }
  }

  function Below(n: nat): (r: set<nat>)
    ensures forall i: nat :: i in r <==> i < n
  {
    if n == 0 then {} else Below(n - 1) + {n - 1}
  }

  lemma {:induction false} BelowSize(n: nat)
    ensures |Below(n)| == n
  {
    if n > 0 {
      BelowSize(n - 1);
      var b, k := Below(n - 1), n - 1;
      assert k !in b;
      assert Below(n) == b + {k};
    }
  }

  lemma {:induction false} DistinctFits(xs: seq<nat>, s: set<nat>)
    requires forall j, k :: 0 <= j < k < |xs| ==> xs[j] != xs[k]
    requires forall j :: 0 <= j < |xs| ==> xs[j] in s
    ensures |xs| <= |s|
  {
    if xs != [] {
      var n := |xs| - 1;
      DistinctFits(xs[..n], s - {xs[n]});
    }
  }

  /** With one command outstanding one operation is under way. */
  lemma OneUnderWay(s: State, k: nat, l: nat)
    requires Inv(s) && Outstanding(s) <= 1 && UnderWay(s, k) && UnderWay(s, l)
    ensures k == l
  {
    hide Slot, Phase, Indices, SqMemory, CqMemory, Taken, Protocol.Work;
    if k != l {
      var taken := s.answers[..s.consumed];
      forall j | 0 <= j < |taken|
        ensures taken[j] < |s.submitted|
      {
        assert Entry(s, j);
      }
      var all := taken + [k, l];
      BelowSize(|s.submitted|);
      DistinctFits(all, Below(|s.submitted|));
    }
  }

  /** One more step of a run. */
  lemma Onward(s0: State, steps: seq<Step>, s: State, a: Step) returns (t: State)
    requires Wf(s0) && Run(s0, steps) == Some(s) && Inv(s) && Enabled(s, a)
    ensures Run(s0, steps + [a]) == Some(t) && Inv(t) && t == Apply(s, a)
  {
    hide Parts, Apply;
    RunAppend(s0, steps, a);
    StepInv(s, a);
    t := Apply(s, a);
  }

  /** The controller fetches the next command, executes it and answers it. */
  lemma Answered(s0: State, steps: seq<Step>, s: State, i: nat) returns (t: State)
    requires Wf(s0) && Run(s0, steps) == Some(s) && Inv(s) && |s.fetched| == i < s.rung
    requires |s.posted| < s.freed + s.len - 1
    ensures Run(s0, steps + [Fetch, Execute(i, 0), Post(i)]) == Some(t) && Inv(t)
    ensures t.answers == s.answers + [i] && t.reported == s.reported + [i + 1] && |t.posted| == |s.posted| + 1
    ensures |t.fetched| == i + 1 && t.toExecute == s.toExecute && SameHost(s, t)
  {
    hide Slot, Phase, Run, CompletionFor, Parts;
    CanFetch(s);
    var a := Onward(s0, steps, s, Fetch);
    var b := Onward(s0, steps + [Fetch], a, Execute(i, 0));
    CanPost(b, i);
    t := Onward(s0, steps + [Fetch] + [Execute(i, 0)], b, Post(i));
    assert steps + [Fetch] + [Execute(i, 0)] + [Post(i)] == steps + [Fetch, Execute(i, 0), Post(i)];
  }

  predicate SameHost(s: State, t: State) {
    && t.submitted == s.submitted && t.ahead == s.ahead && t.len == s.len && t.rung == s.rung
    && t.consumed == s.consumed && t.freed == s.freed && t.seen == s.seen
  }

  lemma CanFetch(s: State)
    requires Inv(s) && |s.fetched| < s.rung
    ensures Enabled(s, Fetch)
  {
    hide Slot, Phase;
    FetchEnabledIff(s);
  }

  lemma CanPost(s: State, i: nat)
    requires Inv(s) && i in s.toPost && |s.posted| < s.freed + s.len - 1
    ensures Enabled(s, Post(i))
  {
    hide Slot, Phase;
    PostEnabledIff(s, i);
  }

  lemma EmptyLogs(s: State)
    requires Inv(s) && s.posted == []
    ensures s.answers == [] && s.reported == []
  {
    hide Slot, Phase;
  }

  /** The driver takes the next completion and acknowledges it, as quick_poll does. */
  lemma Acknowledged(s0: State, steps: seq<Step>, s: State) returns (t: State)
    requires Wf(s0) && Run(s0, steps) == Some(s) && Inv(s) && s.rung == |s.submitted|
    requires s.consumed < |s.posted| == |s.reported|
    ensures Run(s0, steps + [Consume(1), RingCq, Latch]) == Some(t) && Inv(t) && AtRest(t)
    ensures t.answers == s.answers && t.consumed == s.consumed + 1 && t.submitted == s.submitted && t.ahead == s.ahead
    ensures t.len == s.len && t.seen == s.reported[s.consumed] && t.reported == s.reported && t.posted == s.posted
    ensures t.fetched == s.fetched && t.toExecute == s.toExecute
  {
    hide Slot, Phase, Run, Apply, Parts, WaitSlot, WaitPhase;
    NextTag(s);
    var a := Onward(s0, steps, s, Consume(1));
    ConsumeEffect(s, 1);
    RingCqEffect(a);
    var b := Onward(s0, steps + [Consume(1)], a, RingCq);
    LatchEffect(b);
    t := Onward(s0, steps + [Consume(1)] + [RingCq], b, Latch);
    assert steps + [Consume(1)] + [RingCq] + [Latch] == steps + [Consume(1), RingCq, Latch];
  }

  lemma NextTag(s: State)
    requires Inv(s) && s.consumed < |s.posted|
    ensures Enabled(s, Consume(1))
  {
    PhaseTagExact(s, 1);
  }

  /** Two operations of a loop of depth 2 and more share slice 1: two are submitted, the first of them
      completes and is taken, and the third takes the slice the second still uses. */
  lemma SharedSlice(len: nat, sq: seq<Command>, cq: seq<Completion>) returns (steps: seq<Step>, s: State)
    requires 3 <= len && ValidInit(len, sq, cq)
    ensures Run(Init(len, sq, cq), steps) == Some(s) && AtRest(s)
    ensures s.ahead == [0, 1, 1] && UnderWay(s, 1) && UnderWay(s, 2)
  {
    hide Parts, Slot, Phase, Apply, Run, Enabled, CompletionFor;
    s := Filled(len, sq, cq, 2);
    steps := Fill(2);
    var s0 := Init(len, sq, cq);
    InitInv(len, sq, cq);
    EmptyLogs(s);
    s := Answered(s0, steps, s, 0);
    steps := steps + [Fetch, Execute(0, 0), Post(0)];
    s := Acknowledged(s0, steps, s);
    steps := steps + [Consume(1), RingCq, Latch];
    FillOne(s0, steps, s, ZERO_COMMAND);
    s := Apply(Apply(s, Submit(ZERO_COMMAND)), RingSq);
    steps := steps + [Submit(ZERO_COMMAND), RingSq];
  }

  /** The operations under way use different slices in every run if and only if the depth is at most 1. */
  lemma NeverShareIff(len: nat, depth: nat)
    requires 2 <= len <= QUEUE_LENGTH && depth < len
    ensures NeverShare(len, depth) <==> depth <= 1
  {
    hide Parts, Slot, Phase, Apply, Run, UnderWay;
    if depth <= 1 {
      forall sq, cq, steps, s | ValidInit(len, sq, cq) && Run(Init(len, sq, cq), steps) == Some(s) &&
                                SubmitsBelow(s, depth)
        ensures SlicesDiffer(s)
      {
        InitInv(len, sq, cq);
        RunInv(Init(len, sq, cq), steps);
        AheadBound(Init(len, sq, cq), steps, s, depth);
        OneSlice(s);
      }
    } else {
      var sq, cq := seq(len, _ => ZERO_COMMAND), seq(len, _ => ZERO_COMPLETION);
      var steps, s := SharedSlice(len, sq, cq);
      assert !SlicesDiffer(s);
    }
  }

  lemma OneSlice(s: State)
    requires Inv(s) && Outstanding(s) <= 1
    ensures SlicesDiffer(s)
  {
    hide Parts, UnderWay;
    forall k: nat, l: nat | k < l && UnderWay(s, k) && UnderWay(s, l)
      ensures false
    {
      OneUnderWay(s, k, l);
    }
  }

  // ---------------------------------------------------------------- which commands share an identifier

  /** The commands under way carry different identifiers. */
  ghost predicate IdsDiffer(s: State) {
    forall k: nat, l: nat :: k < l && UnderWay(s, k) && UnderWay(s, l) ==>
      k < l < |s.submitted| && s.submitted[k].cid != s.submitted[l].cid
  }

  /** ... in every run of a client that submits below `depth` and leaves the identifiers to submit_io. */
  ghost predicate NeverRepeat(id: nat, len: nat, depth: nat)
    requires len > 0
  {
    forall sq, cq, steps, s ::
      (ValidInit(len, sq, cq) && Run(Init(len, sq, cq), steps) == Some(s) && SubmitsBelow(s, depth)
       && Identified(s.submitted, id, len)) ==> IdsDiffer(s)
  }

  /** m commands submitted, all but the first of them answered and taken; the first is fetched. */
  ghost predicate FirstWaits(s: State, id: nat, m: nat) {
    && Inv(s) && AtRest(s) && s.len > 0 && |s.submitted| == |s.fetched| == m > 0 && s.consumed == m - 1 == |s.posted|
    && s.toExecute == {0} && (m > 1 ==> s.seen == m) && (m == 1 ==> s.seen == 0)
    && Identified(s.submitted, id, s.len) && SubmitsBelow(s, 2)
    && |s.answers| == m - 1 && 0 !in s.answers
  }

  /** The command submit_io would queue next, as far as its identifier goes. */
  function NextQueued(id: nat, len: nat, m: nat): Command
    requires len > 0
  {
    ZERO_COMMAND.(cid := PairCid(id, Slot(m, len)))
  }

  lemma IdentifiedMore(cmds: seq<Command>, id: nat, len: nat)
    requires len > 0 && Identified(cmds, id, len)
    ensures Identified(cmds + [NextQueued(id, len, |cmds|)], id, len)
  {
    hide Slot, PairCid;
  }

  lemma BelowMore(s: State, t: State, depth: nat)
    requires SubmitsBelow(s, depth) && t.ahead == s.ahead + [Outstanding(s)] && Outstanding(s) < depth
    ensures SubmitsBelow(t, depth)
  {
  }

  /** One more command is submitted. */
  lemma SendNext(s0: State, steps: seq<Step>, s: State, id: nat, depth: nat) returns (t: State)
    requires Wf(s0) && Run(s0, steps) == Some(s) && Inv(s) && AtRest(s) && Room(s) > 0 && s.len > 0
    requires Identified(s.submitted, id, s.len) && SubmitsBelow(s, depth) && Outstanding(s) < depth
    ensures var c := NextQueued(id, s.len, |s.submitted|);
      && Run(s0, steps + [Submit(c), RingSq]) == Some(t) && t.submitted == s.submitted + [c]
    ensures Inv(t) && AtRest(t) && t.len == s.len && t.consumed == s.consumed && t.seen == s.seen && t.freed == s.freed
    ensures t.fetched == s.fetched && t.posted == s.posted && t.answers == s.answers && t.toExecute == s.toExecute
    ensures t.reported == s.reported && Identified(t.submitted, id, t.len) && SubmitsBelow(t, depth)
  {
    hide Parts, Slot, Phase, Run, Apply, Enabled, Identified, SubmitsBelow, AtRest, PairCid, Room;
    var c := NextQueued(id, s.len, |s.submitted|);
    FillOne(s0, steps, s, c);
    t := Apply(Apply(s, Submit(c)), RingSq);
    IdentifiedMore(s.submitted, id, s.len);
    BelowMore(s, t, depth);
  }

  lemma FirstRound(len: nat, sq: seq<Command>, cq: seq<Completion>, id: nat) returns (steps: seq<Step>, s: State)
    requires 3 <= len && ValidInit(len, sq, cq)
    ensures Run(Init(len, sq, cq), steps) == Some(s) && FirstWaits(s, id, 1) && s.len == len
  {
    hide Parts, Slot, Phase, Run, CompletionFor, PairCid;
    var s0 := Init(len, sq, cq);
    InitInv(len, sq, cq);
    FillNone(len, sq, cq);
    EmptyLogs(s0);
    s := SendNext(s0, [], s0, id, 2);
    steps := [] + [Submit(NextQueued(id, len, 0)), RingSq];
    CanFetch(s);
    EmptyLogs(s);
    s := Onward(s0, steps, s, Fetch);
    steps := steps + [Fetch];
  }

  /** The next command comes and goes, and the first still waits. */
  lemma NextRound(s0: State, steps: seq<Step>, s: State, id: nat, m: nat) returns (steps': seq<Step>, t: State)
    requires Wf(s0) && Run(s0, steps) == Some(s) && FirstWaits(s, id, m) && s.len >= 3
    ensures Run(s0, steps') == Some(t) && FirstWaits(t, id, m + 1) && t.len == s.len
  {
    hide Parts, Slot, Phase, Run, Apply, Enabled, Identified, SubmitsBelow;
    var sent := SendNext(s0, steps, s, id, 2);
    steps' := steps + [Submit(NextQueued(id, s.len, m)), RingSq];
    ReportedAll(sent);
    var answered := Answered(s0, steps', sent, m);
    steps' := steps' + [Fetch, Execute(m, 0), Post(m)];
    ReportedAll(answered);
    t := Acknowledged(s0, steps', answered);
    steps' := steps' + [Consume(1), RingCq, Latch];
    SameBelow(sent, t, 2);
  }

  lemma SameBelow(s: State, t: State, depth: nat)
    requires SubmitsBelow(s, depth) && t.ahead == s.ahead
    ensures SubmitsBelow(t, depth)
  {
  }

  lemma ReportedAll(s: State)
    requires Inv(s)
    ensures |s.reported| == |s.posted| == |s.answers|
  {
    hide Slot, Phase;
  }

  lemma {:induction false} Rounds(len: nat, sq: seq<Command>, cq: seq<Completion>, id: nat, m: nat)
    returns (steps: seq<Step>, s: State)
    requires 3 <= len && ValidInit(len, sq, cq) && m > 0
    ensures Run(Init(len, sq, cq), steps) == Some(s) && FirstWaits(s, id, m) && s.len == len
  {
    hide FirstWaits, Run;
    if m == 1 {
      steps, s := FirstRound(len, sq, cq, id);
    } else {
      steps, s := Rounds(len, sq, cq, id, m - 1);
      InitInv(len, sq, cq);
      steps, s := NextRound(Init(len, sq, cq), steps, s, id, m - 1);
    }
  }

  /** While the first command waits, the ring goes once round: the command that takes its slot takes its
      identifier too. */
  lemma RepeatedId(len: nat, sq: seq<Command>, cq: seq<Completion>, id: nat) returns (steps: seq<Step>, s: State)
    requires 3 <= len && ValidInit(len, sq, cq)
    ensures Run(Init(len, sq, cq), steps) == Some(s) && AtRest(s) && s.len == len
    ensures Identified(s.submitted, id, len) && SubmitsBelow(s, 2)
    ensures UnderWay(s, 0) && UnderWay(s, len) && s.submitted[0].cid == s.submitted[len].cid
  {
    hide Parts, Phase, Run, Apply, Enabled, SubmitsBelow, PairCid;
    steps, s := Rounds(len, sq, cq, id, len);
    InitInv(len, sq, cq);
    s := SendNext(Init(len, sq, cq), steps, s, id, 2);
    steps := steps + [Submit(NextQueued(id, len, len)), RingSq];
    FullLap(0, len);
    AnsweredBefore(s);
  }

  lemma AnsweredBefore(s: State)
    requires Inv(s)
    ensures forall j :: 0 <= j < |s.answers| ==> s.answers[j] < |s.fetched|
  {
    hide Slot, Phase, Indices, SqMemory, CqMemory, Taken, Protocol.Work;
    forall j | 0 <= j < |s.answers|
      ensures s.answers[j] < |s.fetched|
    {
      assert Entry(s, j);
    }
  }

  /** In every run the commands under way carry different identifiers if and only if the client keeps
      no more than one of them under way: the slot of a command is free again once it is fetched. */
  lemma NeverRepeatIff(id: nat, len: nat, depth: nat)
    requires 2 <= len <= QUEUE_LENGTH && depth < len
    ensures NeverRepeat(id, len, depth) <==> depth <= 1
  {
    hide Parts, Slot, Phase, Apply, Run, UnderWay, Identified;
    if depth <= 1 {
      forall sq, cq, steps, s |
        ValidInit(len, sq, cq) && Run(Init(len, sq, cq), steps) == Some(s) && SubmitsBelow(s, depth)
        ensures IdsDiffer(s)
      {
        InitInv(len, sq, cq);
        RunInv(Init(len, sq, cq), steps);
        AheadBound(Init(len, sq, cq), steps, s, depth);
        OneId(s);
      }
    } else {
      var sq, cq := seq(len, _ => ZERO_COMMAND), seq(len, _ => ZERO_COMPLETION);
      var steps, s := RepeatedId(len, sq, cq, id);
      assert !IdsDiffer(s);
    }
  }

  lemma OneId(s: State)
    requires Inv(s) && Outstanding(s) <= 1
    ensures IdsDiffer(s)
  {
    hide Parts, UnderWay;
    forall k: nat, l: nat | k < l && UnderWay(s, k) && UnderWay(s, l)
      ensures false
    {
      OneUnderWay(s, k, l);
    }
  }
}
