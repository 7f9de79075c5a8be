/** Several queue pairs on one disk, as the threads of examples/throughput.rs use them: each pair is a
    protocol of its own, and the commands of all of them are executed, in any interleaving, on the same
    data. */
module ManyPairs {
  import opened Options
  import opened Ring
  import opened Commands
  import opened Protocol
  import opened ProtocolTheorems
  import opened Transfers
  import opened Layout
  import opened Memory
  import opened QueuePair
  import opened ManyTransfers

  /** One execution: which command of which pair. */
  datatype Execution = Execution(pair: nat, index: nat, cmd: Command)

  datatype System = System(pairs: seq<State>, data: Data, log: seq<Execution>)

  datatype Move = Move(pair: nat, step: Step)

  ghost predicate AllWf(pairs: seq<State>) { forall p :: 0 <= p < |pairs| ==> Wf(pairs[p]) }

  ghost predicate AllInv(pairs: seq<State>) { forall p :: 0 <= p < |pairs| ==> Inv(pairs[p]) }

  ghost predicate AllDrained(pairs: seq<State>) { forall p :: 0 <= p < |pairs| ==> Drained(pairs[p]) }

  /** A step of one pair; an execution reports the status the command really has. */
  ghost predicate Possible(sys: System, m: Move)
    requires AllWf(sys.pairs)
  {
    && m.pair < |sys.pairs| && Enabled(sys.pairs[m.pair], m.step)
    && (m.step.Execute? ==> m.step.status == Exec(sys.data, sys.pairs[m.pair].fetched[m.step.i]).status)
  }

  ghost function Next(sys: System, m: Move): (r: System)
    requires AllWf(sys.pairs) && Possible(sys, m)
    ensures AllWf(r.pairs)
  {
    var s := sys.pairs[m.pair];
    var pairs := sys.pairs[m.pair := Apply(s, m.step)];
    if m.step.Execute? then
      var c := s.fetched[m.step.i];
      System(pairs, Exec(sys.data, c).data, sys.log + [Execution(m.pair, m.step.i, c)])
    else sys.(pairs := pairs)
  }

  ghost function RunAll(sys: System, moves: seq<Move>): (r: Option<System>)
    requires AllWf(sys.pairs)
    ensures r.Some? ==> AllWf(r.value.pairs)
  {
    if moves == [] then Some(sys)
    else
      var n := |moves| - 1;
      match RunAll(sys, moves[..n])
      case None => None
      case Some(m) => if Possible(m, moves[n]) then Some(Next(m, moves[n])) else None
  }

  // ---------------------------------------------------------------- the account

  function Cmds(log: seq<Execution>): (r: seq<Command>)
    ensures |r| == |log|
  {
    seq(|log|, k requires 0 <= k < |log| => log[k].cmd)
  }

  /** Entry k is about a command of this round, and its result is what the execution gave. */
  ghost predicate Logged(base: Data, epochs: seq<nat>, sys: System, k: nat)
    requires k < |sys.log|
  {
    var e := sys.log[k];
    && e.pair < |sys.pairs| == |epochs| && epochs[e.pair] <= e.index < |sys.pairs[e.pair].fetched|
    && e.cmd == sys.pairs[e.pair].fetched[e.index] && e.index in sys.pairs[e.pair].results
    && sys.pairs[e.pair].results[e.index] == Exec(ExecAll(base, Cmds(sys.log[..k])), e.cmd).status
  }

  ghost predicate InLog(log: seq<Execution>, p: nat, i: nat) {
    exists k :: 0 <= k < |log| && log[k].pair == p && log[k].index == i
  }

  /** Since the data was `base`, when each pair had had epochs[p] commands and answered them, exactly
      the commands in the log have been executed. */
  ghost predicate Account(base: Data, epochs: seq<nat>, sys: System) {
    && |epochs| == |sys.pairs| && AllInv(sys.pairs)
    && (forall p :: 0 <= p < |sys.pairs| ==> Settled(sys.pairs[p], epochs[p]))
    && sys.data == ExecAll(base, Cmds(sys.log))
    && (forall k :: 0 <= k < |sys.log| ==> Logged(base, epochs, sys, k))
    && (forall p, i :: 0 <= p < |sys.pairs| && epochs[p] <= i && i in sys.pairs[p].results ==> InLog(sys.log, p, i))
  }

  function Epochs(pairs: seq<State>): (r: seq<nat>)
    ensures |r| == |pairs|
  {
    seq(|pairs|, p requires 0 <= p < |pairs| => |pairs[p].submitted|)
  }

  lemma InvWf(pairs: seq<State>)
    requires AllInv(pairs)
    ensures AllWf(pairs)
  {
    hide Parts;
  }

  lemma AccountStart(sys: System)
    requires AllInv(sys.pairs) && AllDrained(sys.pairs) && sys.log == []
    ensures Account(sys.data, Epochs(sys.pairs), sys)
  {
    hide Parts, Settled;
    assert Cmds(sys.log) == [];
    forall p | 0 <= p < |sys.pairs|
      ensures Settled(sys.pairs[p], |sys.pairs[p].submitted|)
      ensures forall i :: i in sys.pairs[p].results ==> i < |sys.pairs[p].submitted|
    {
      DrainedStart(sys.pairs[p]);
    }
  }

  lemma DrainedStart(s: State)
    requires Inv(s) && Drained(s)
    ensures Settled(s, |s.submitted|) && forall i :: i in s.results ==> i < |s.submitted|
  {
    DrainedSettles(s);
    DrainedWork(s);
    hide Slot, Phase;
  }

  lemma AccountStep(base: Data, epochs: seq<nat>, sys: System, m: Move)
    requires Account(base, epochs, sys) && AllWf(sys.pairs) && Possible(sys, m)
    ensures Account(base, epochs, Next(sys, m))
  {
    hide Parts, Settled, Exec, ExecAll, Apply, Logged, InLog, Enabled;
    var t := Next(sys, m);
    var s := sys.pairs[m.pair];
    StepInv(s, m.step);
    assert Settled(t.pairs[m.pair], epochs[m.pair]) by { StepSettled(s, m.step, epochs[m.pair]); }
    if m.step.Execute? {
      LogExecution(base, epochs, sys, m);
    } else {
      LogKept(base, epochs, sys, m);
    }
  }

  lemma StepSettled(s: State, a: Step, epoch: nat)
    requires Inv(s) && Enabled(s, a) && Settled(s, epoch)
    ensures Settled(Apply(s, a), epoch)
  {
    hide Settled;
    SettledKept(s, a, epoch);
  }

  /** What a step other than an execution leaves of a pair's record. */
  lemma RecordKept(s: State, a: Step)
    requires Wf(s) && Enabled(s, a) && !a.Execute?
    ensures Apply(s, a).results == s.results && s.fetched <= Apply(s, a).fetched
  {
    hide Slot, Phase;
  }

  lemma RecordAdded(s: State, i: nat, status: nat)
    requires Inv(s) && Enabled(s, Execute(i, status))
    ensures var t := Apply(s, Execute(i, status));
      && t.fetched == s.fetched && i < |s.fetched| && i !in s.results && t.results == s.results[i := status]
  {
    hide Slot, Phase, Indices, Order, SqMemory, CqMemory, Entries, Taken, Logs;
  }

  lemma LogKept(base: Data, epochs: seq<nat>, sys: System, m: Move)
    requires Account(base, epochs, sys) && AllWf(sys.pairs) && Possible(sys, m) && !m.step.Execute?
    ensures var t := Next(sys, m);
      && t.log == sys.log && t.data == sys.data && |t.pairs| == |sys.pairs|
      && (forall k :: 0 <= k < |t.log| ==> Logged(base, epochs, t, k))
      && (forall p, i :: 0 <= p < |t.pairs| && epochs[p] <= i && i in t.pairs[p].results ==> InLog(t.log, p, i))
  {
    hide Parts, Settled, Exec, ExecAll, Apply, Enabled, InLog;
    RecordKept(sys.pairs[m.pair], m.step);
    var t := Next(sys, m);
    forall k | 0 <= k < |t.log|
      ensures Logged(base, epochs, t, k)
    {
      assert Logged(base, epochs, sys, k);
    }
  }

  lemma LogExecution(base: Data, epochs: seq<nat>, sys: System, m: Move)
    requires Account(base, epochs, sys) && AllWf(sys.pairs) && Possible(sys, m) && m.step.Execute?
    ensures var t := Next(sys, m);
      && t.data == ExecAll(base, Cmds(t.log)) && |t.pairs| == |sys.pairs|
      && (forall k :: 0 <= k < |t.log| ==> Logged(base, epochs, t, k))
      && (forall p, i :: 0 <= p < |t.pairs| && epochs[p] <= i && i in t.pairs[p].results ==> InLog(t.log, p, i))
  {
    hide Parts, Settled, Exec, ExecAll, Apply, Enabled, InLog;
    var s := sys.pairs[m.pair];
    var i := m.step.i;
    RecordAdded(s, i, m.step.status);
    NotSettled(s, i, m.step.status, epochs[m.pair]);
    var t := Next(sys, m);
    var c := s.fetched[i];
    assert Cmds(t.log) == Cmds(sys.log) + [c];
    ExecAllAppend(base, Cmds(sys.log), c);
    forall k | 0 <= k < |t.log|
      ensures Logged(base, epochs, t, k)
    {
      if k < |sys.log| {
        assert Logged(base, epochs, sys, k);
        assert t.log[..k] == sys.log[..k];
      } else {
        assert t.log[..k] == sys.log;
      }
    }
    forall p: nat, j: nat | p < |t.pairs| && epochs[p] <= j && j in t.pairs[p].results
      ensures InLog(t.log, p, j)
    {
      LogGrows(sys.log, Execution(m.pair, i, c), p, j);
    }
  }

  lemma LogGrows(log: seq<Execution>, e: Execution, p: nat, j: nat)
    ensures InLog(log, p, j) || (e.pair == p && e.index == j) ==> InLog(log + [e], p, j)
  {
    if InLog(log, p, j) {
      var k :| 0 <= k < |log| && log[k].pair == p && log[k].index == j;
      assert (log + [e])[k] == log[k];
    }
    assert (log + [e])[|log|] == e;
  }

  lemma NotSettled(s: State, i: nat, status: nat, epoch: nat)
    requires Inv(s) && Settled(s, epoch) && Enabled(s, Execute(i, status))
    ensures epoch <= i
  {
    hide Slot, Phase, Indices, Order, SqMemory, CqMemory, Entries, Taken, Logs;
  }

  lemma {:induction false} RunAccount(sys: System, moves: seq<Move>)
    requires AllInv(sys.pairs) && AllDrained(sys.pairs) && sys.log == []
    ensures AllWf(sys.pairs)
    ensures RunAll(sys, moves).Some? ==> Account(sys.data, Epochs(sys.pairs), RunAll(sys, moves).value)
  {
    hide Parts, Account, Next, Possible, AllDrained;
    InvWf(sys.pairs);
    if moves == [] {
      AccountStart(sys);
    } else {
      var n := |moves| - 1;
      RunAccount(sys, moves[..n]);
      var before := RunAll(sys, moves[..n]);
      if before.Some? && Possible(before.value, moves[n]) {
        AccountStep(sys.data, Epochs(sys.pairs), before.value, moves[n]);
      }
    }
  }

  // ---------------------------------------------------------------- the commands of all pairs

  ghost predicate Begun(pairs: seq<State>, epochs: seq<nat>) {
    |epochs| == |pairs| && forall p :: 0 <= p < |pairs| ==> epochs[p] <= |pairs[p].submitted|
  }

  /** What the pairs have submitted in this round, pair after pair. */
  function Flat(pairs: seq<State>, epochs: seq<nat>): seq<Command>
    requires Begun(pairs, epochs)
  {
    if pairs == [] then []
    else
      var n := |pairs| - 1;
      Flat(pairs[..n], epochs[..n]) + pairs[n].submitted[epochs[n]..]
  }

  /** Where those of pair p begin. */
  function Offset(pairs: seq<State>, epochs: seq<nat>, p: nat): nat
    requires Begun(pairs, epochs) && p <= |pairs|
  {
    |Flat(pairs[..p], epochs[..p])|
  }

  lemma {:induction false} FlatAt(pairs: seq<State>, epochs: seq<nat>, p: nat, i: nat)
    requires Begun(pairs, epochs) && p < |pairs| && epochs[p] <= i < |pairs[p].submitted|
    ensures var m := Offset(pairs, epochs, p) + (i - epochs[p]);
      m < |Flat(pairs, epochs)| && Flat(pairs, epochs)[m] == pairs[p].submitted[i]
  {
    var n := |pairs| - 1;
    if p < n {
      FlatAt(pairs[..n], epochs[..n], p, i);
      assert pairs[..n][..p] == pairs[..p] && epochs[..n][..p] == epochs[..p];
    }
  }

  lemma {:induction false} FlatFind(pairs: seq<State>, epochs: seq<nat>, m: nat) returns (p: nat, i: nat)
    requires Begun(pairs, epochs) && m < |Flat(pairs, epochs)|
    ensures p < |pairs| && epochs[p] <= i < |pairs[p].submitted| && m == Offset(pairs, epochs, p) + (i - epochs[p])
  {
    var n := |pairs| - 1;
    var before := |Flat(pairs[..n], epochs[..n])|;
    if m < before {
      p, i := FlatFind(pairs[..n], epochs[..n], m);
      assert pairs[..n][..p] == pairs[..p] && epochs[..n][..p] == epochs[..p];
    } else {
      p, i := n, epochs[n] + (m - before);
    }
  }

  ghost predicate LogInside(sys: System, epochs: seq<nat>) {
    |epochs| == |sys.pairs| && forall k :: 0 <= k < |sys.log| ==>
      sys.log[k].pair < |sys.pairs| && epochs[sys.log[k].pair] <= sys.log[k].index
  }

  /** The log as an order of the commands of all pairs. */
  ghost function LogOrder(sys: System, epochs: seq<nat>): (r: seq<nat>)
    requires Begun(sys.pairs, epochs)
    requires LogInside(sys, epochs)
    ensures |r| == |sys.log|
  {
    seq(|sys.log|, k requires 0 <= k < |sys.log| =>
      Offset(sys.pairs, epochs, sys.log[k].pair) + (sys.log[k].index - epochs[sys.log[k].pair]))
  }

  lemma AccountBegun(base: Data, epochs: seq<nat>, sys: System)
    requires Account(base, epochs, sys)
    ensures Begun(sys.pairs, epochs) && LogInside(sys, epochs)
    ensures forall k :: 0 <= k < |sys.log| ==>
              && sys.log[k].pair < |sys.pairs|
              && epochs[sys.log[k].pair] <= sys.log[k].index < |sys.pairs[sys.log[k].pair].submitted|
              && sys.log[k].cmd == sys.pairs[sys.log[k].pair].submitted[sys.log[k].index]
  {
    hide Exec, ExecAll, InLog, Parts, Settled;
    forall p | 0 <= p < |sys.pairs|
      ensures epochs[p] <= |sys.pairs[p].submitted|
    {
      SettledBound(sys.pairs[p], epochs[p]);
    }
    forall k | 0 <= k < |sys.log|
      ensures sys.log[k].pair < |sys.pairs|
      ensures epochs[sys.log[k].pair] <= sys.log[k].index < |sys.pairs[sys.log[k].pair].submitted|
      ensures sys.log[k].cmd == sys.pairs[sys.log[k].pair].submitted[sys.log[k].index]
    {
      assert Logged(base, epochs, sys, k);
      FetchedSubmitted(sys.pairs[sys.log[k].pair]);
    }
  }

  lemma SettledBound(s: State, epoch: nat)
    requires Inv(s) && Settled(s, epoch)
    ensures epoch <= |s.submitted|
  {
    hide Slot, Phase, Indices, SqMemory, CqMemory, Taken;
  }

  lemma FetchedSubmitted(s: State)
    requires Inv(s)
    ensures s.fetched <= s.submitted
  {
    hide Slot, Phase, Indices, SqMemory, CqMemory, Entries, Taken, Protocol.Work;
  }

  lemma LogIsPick(base: Data, epochs: seq<nat>, sys: System)
    requires Account(base, epochs, sys)
    ensures Begun(sys.pairs, epochs)
    ensures LogInside(sys, epochs)
    ensures var order := LogOrder(sys, epochs);
      && (forall k :: 0 <= k < |order| ==> order[k] < |Flat(sys.pairs, epochs)|)
      && Cmds(sys.log) == Pick(Flat(sys.pairs, epochs), order)
  {
    hide Account, Flat, Offset, Begun;
    AccountBegun(base, epochs, sys);
    var order := LogOrder(sys, epochs);
    forall k | 0 <= k < |order|
      ensures order[k] < |Flat(sys.pairs, epochs)| && Flat(sys.pairs, epochs)[order[k]] == sys.log[k].cmd
    {
      FlatAt(sys.pairs, epochs, sys.log[k].pair, sys.log[k].index);
    }
  }

  lemma LogComplete(base: Data, epochs: seq<nat>, sys: System)
    requires Account(base, epochs, sys) && AllDrained(sys.pairs) && Begun(sys.pairs, epochs)
    requires LogInside(sys, epochs)
    ensures forall m :: 0 <= m < |Flat(sys.pairs, epochs)| ==> m in LogOrder(sys, epochs)
  {
    hide Flat, Offset, Parts, Settled, Logged, ExecAll;
    var order := LogOrder(sys, epochs);
    forall m | 0 <= m < |Flat(sys.pairs, epochs)|
      ensures m in order
    {
      var p, i := FlatFind(sys.pairs, epochs, m);
      DrainedResult(sys.pairs[p], i);
      assert InLog(sys.log, p, i);
      var k :| 0 <= k < |sys.log| && sys.log[k].pair == p && sys.log[k].index == i;
      assert order[k] == m;
    }
  }

  lemma DrainedResult(s: State, i: nat)
    requires Inv(s) && Drained(s) && i < |s.submitted|
    ensures i in s.results
  {
    DrainedWork(s);
    hide Slot, Phase, Indices, SqMemory, CqMemory, Taken, Logs;
  }

  // ---------------------------------------------------------------- any interleaving

  /** Independent transfers on several pairs: once every pair has all its answers, in whatever way the
      pairs and their controllers took turns, the data is that of the assignments of all of them, and
      every completion reported success. */
  lemma PairsDone(sys: System, moves: seq<Move>, end: System, ios: seq<Io>)
    requires AllInv(sys.pairs) && AllDrained(sys.pairs) && sys.log == [] && AllWf(sys.pairs)
    requires RunAll(sys, moves) == Some(end) && AllDrained(end.pairs)
    requires Begun(end.pairs, Epochs(sys.pairs)) && MakesEach(sys.data, Flat(end.pairs, Epochs(sys.pairs)), ios)
    requires AllFit(sys.data, ios) && Pairwise(ios)
    ensures end.data == WholeAll(sys.data, ios) && |end.pairs| == |sys.pairs|
    ensures forall p :: 0 <= p < |end.pairs| ==> AllSucceeded(end.pairs[p], |sys.pairs[p].submitted|)
  {
    hide Parts, Account, Flat, Pairwise, MakesEach, WholeAll, ExecAll, AllFit, RunAll, LogOrder, AllSucceeded, AllInv,
         AllWf, Begun;
    var epochs := Epochs(sys.pairs);
    RunAccount(sys, moves);
    LogIsPick(sys.data, epochs, end);
    LogComplete(sys.data, epochs, end);
    SameNumber(sys.data, Flat(end.pairs, epochs), ios);
    CommandOrder(sys.data, Flat(end.pairs, epochs), ios, LogOrder(end, epochs));
    AccountData(sys.data, epochs, end);
    forall p | 0 <= p < |end.pairs|
      ensures AllSucceeded(end.pairs[p], epochs[p])
    {
      PairSucceeded(sys.data, epochs, end, ios, p);
    }
  }

  lemma AccountData(base: Data, epochs: seq<nat>, sys: System)
    requires Account(base, epochs, sys)
    ensures sys.data == ExecAll(base, Cmds(sys.log)) && |epochs| == |sys.pairs|
  {
    hide ExecAll, Logged, InLog, AllInv, Settled;
  }

  ghost predicate AllSucceeded(s: State, epoch: nat) {
    |s.posted| == |s.submitted| && forall j :: epoch <= j < |s.posted| ==> StatusField(s.posted[j]) == SUCCESS
  }

  /** Execution k of independent transfers succeeds. */
  lemma ExecutionSucceeds(base: Data, cmds: seq<Command>, ios: seq<Io>, order: seq<nat>, k: nat)
    requires AllFit(base, ios) && Pairwise(ios) && MakesEach(base, cmds, ios) && k < |order|
    requires forall j :: 0 <= j < |order| ==> order[j] < |cmds|
    ensures Exec(ExecAll(base, Pick(cmds, order[..k])), cmds[order[k]]).status == SUCCESS
  {
    hide Exec, ExecAll, Pairwise, Effect, Moves, Chosen, Whole;
    CommandsEffect(base, cmds, ios, order[..k]);
    ShapeOf(base, ExecAll(base, Pick(cmds, order[..k])), ios, Chosen(order[..k]));
    ExecWhole(base, ExecAll(base, Pick(cmds, order[..k])), cmds[order[k]], ios[order[k]]);
  }

  lemma PairSucceeded(base: Data, epochs: seq<nat>, sys: System, ios: seq<Io>, p: nat)
    requires Account(base, epochs, sys) && AllDrained(sys.pairs) && Begun(sys.pairs, epochs) && p < |sys.pairs|
    requires MakesEach(base, Flat(sys.pairs, epochs), ios) && AllFit(base, ios) && Pairwise(ios)
    ensures AllSucceeded(sys.pairs[p], epochs[p])
  {
    hide Parts, Flat, Pairwise, MakesEach, ExecAll, Exec, AllFit, LogOrder, Settled, Logged, InLog, StatusField;
    LogIsPick(base, epochs, sys);
    var s := sys.pairs[p];
    DrainedWork(s);
    var cmds, order := Flat(sys.pairs, epochs), LogOrder(sys, epochs);
    forall j | epochs[p] <= j < |s.posted|
      ensures StatusField(s.posted[j]) == SUCCESS
    {
      var i := s.answers[j];
      AnswerStatus(s, epochs[p], j);
      assert InLog(sys.log, p, i);
      var k := FindLog(sys.log, p, i);
      LoggedStatus(base, epochs, sys, k);
      assert Cmds(sys.log[..k]) == Pick(cmds, order[..k]);
      ExecutionSucceeds(base, cmds, ios, order, k);
      assert Cmds(sys.log)[k] == cmds[order[k]];
    }
  }

  lemma FindLog(log: seq<Execution>, p: nat, i: nat) returns (k: nat)
    requires InLog(log, p, i)
    ensures k < |log| && log[k].pair == p && log[k].index == i
  {
    k :| 0 <= k < |log| && log[k].pair == p && log[k].index == i;
  }

  lemma LoggedStatus(base: Data, epochs: seq<nat>, sys: System, k: nat)
    requires Account(base, epochs, sys) && k < |sys.log|
    ensures var e := sys.log[k];
      && e.pair < |sys.pairs| && e.index in sys.pairs[e.pair].results
      && sys.pairs[e.pair].results[e.index] == Exec(ExecAll(base, Cmds(sys.log[..k])), e.cmd).status
  {
    hide Exec, ExecAll, AllInv, Settled, InLog;
    assert Logged(base, epochs, sys, k);
  }

  lemma AnswerStatus(s: State, epoch: nat, j: nat)
    requires Inv(s) && Settled(s, epoch) && epoch <= j < |s.posted|
    ensures j < |s.answers| && epoch <= s.answers[j] && s.answers[j] in s.results
    ensures StatusField(s.posted[j]) == s.results[s.answers[j]]
  {
    hide Slot, Phase, Indices, SqMemory, CqMemory, Taken, Logs, StatusField;
    assert Entry(s, j);
  }

  // ---------------------------------------------------------------- several threads of submit_io

  /** All the requests, thread after thread. */
  function FlatRequests(reqs: seq<seq<Request>>): seq<Request> {
    if reqs == [] then [] else FlatRequests(reqs[..|reqs| - 1]) + reqs[|reqs| - 1]
  }

  lemma {:induction false} PiecesAppend(a: seq<Request>, b: seq<Request>)
    ensures RequestPieces(a + b) == RequestPieces(a) + RequestPieces(b)
    decreases |b|
  {
    hide Pieces, IoOf, CutsOf, RoundUp;
    if b == [] {
      assert a + b == a;
    } else {
      var n := |b| - 1;
      assert (a + b)[..|a + b| - 1] == a + b[..n];
      PiecesAppend(a, b[..n]);
    }
  }

  /** Since its epoch, each pair has been given its own requests. */
  ghost predicate Requested(pairs: seq<State>, epochs: seq<nat>, ids: seq<nat>, reqs: seq<seq<Request>>)
    requires Begun(pairs, epochs)
  {
    && |ids| == |reqs| == |pairs|
    && forall p :: 0 <= p < |pairs| ==>
         && pairs[p].len > 0
         && pairs[p].submitted[epochs[p]..] == RequestCommands(ids[p], epochs[p], pairs[p].len, reqs[p])
  }

  ghost predicate AllUsable(d: Data, reqs: seq<Request>) { forall i :: 0 <= i < |reqs| ==> Usable(d, reqs[i]) }

  lemma {:induction false} FlatMakes(d: Data, pairs: seq<State>, epochs: seq<nat>, ids: seq<nat>,
                                     reqs: seq<seq<Request>>)
    requires Begun(pairs, epochs) && Requested(pairs, epochs, ids, reqs) && AllUsable(d, FlatRequests(reqs))
    ensures MakesEach(d, Flat(pairs, epochs), RequestPieces(FlatRequests(reqs)))
  {
    hide MakesEach, Usable, RequestCommands, RequestPieces;
    if pairs == [] {
      MakesNone(d);
      NoPieces();
    } else {
      var n := |pairs| - 1;
      var earlier := FlatRequests(reqs[..n]);
      UsableParts(d, earlier, reqs[n]);
      FlatMakes(d, pairs[..n], epochs[..n], ids[..n], reqs[..n]);
      UseEach(d, reqs[n]);
      RequestsMake(d, ids[n], epochs[n], pairs[n].len, reqs[n]);
      MakesAppend(d, Flat(pairs[..n], epochs[..n]), RequestPieces(earlier), pairs[n].submitted[epochs[n]..],
                  RequestPieces(reqs[n]));
      PiecesAppend(earlier, reqs[n]);
    }
  }

  lemma NoPieces()
    ensures RequestPieces([]) == []
  {
  }

  lemma UseEach(d: Data, reqs: seq<Request>)
    requires AllUsable(d, reqs)
    ensures forall i :: 0 <= i < |reqs| ==> Usable(d, reqs[i])
  {
  }

  lemma UsableParts(d: Data, a: seq<Request>, b: seq<Request>)
    requires AllUsable(d, a + b)
    ensures AllUsable(d, a) && AllUsable(d, b)
  {
    hide Usable;
    assert forall i :: 0 <= i < |a| ==> (a + b)[i] == a[i];
    assert forall i :: 0 <= i < |b| ==> (a + b)[|a| + i] == b[i];
  }

  /** No run takes back what was submitted, so `Begun` holds after every one. */
  lemma RoundBegun(sys: System, moves: seq<Move>, end: System)
    requires AllInv(sys.pairs) && AllDrained(sys.pairs) && sys.log == [] && AllWf(sys.pairs)
    requires RunAll(sys, moves) == Some(end)
    ensures Begun(end.pairs, Epochs(sys.pairs))
  {
    hide RunAll, AllInv, AllWf, AllDrained, Begun, Account;
    RunAccount(sys, moves);
    AccountBegun(sys.data, Epochs(sys.pairs), end);
  }

  /** Threads that submit buffers on pairs of their own, with all blocks and memory apart: once every
      pair is drained again, the data is that of the assignments of all the buffers, which can be made
      in any order, and every completion reported success. */
  lemma SeveralPairsDone(sys: System, moves: seq<Move>, end: System, ids: seq<nat>, reqs: seq<seq<Request>>)
    requires AllInv(sys.pairs) && AllDrained(sys.pairs) && sys.log == [] && AllWf(sys.pairs)
    requires RunAll(sys, moves) == Some(end) && AllDrained(end.pairs) && Begun(end.pairs, Epochs(sys.pairs))
    requires Requested(end.pairs, Epochs(sys.pairs), ids, reqs)
    requires AllUsable(sys.data, FlatRequests(reqs)) && Pairwise(Ios(FlatRequests(reqs)))
    ensures AllFit(sys.data, Ios(FlatRequests(reqs))) && end.data == WholeAll(sys.data, Ios(FlatRequests(reqs)))
    ensures |end.pairs| == |sys.pairs|
    ensures forall p :: 0 <= p < |end.pairs| ==> AllSucceeded(end.pairs[p], |sys.pairs[p].submitted|)
  {
    hide RunAll, AllInv, AllWf, AllDrained, Begun, Requested, Usable, MakesEach, WholeAll, Pairwise, AllSucceeded, Flat,
         FlatRequests, RequestPieces, AllUsable, Ios, AllFit;
    var all := FlatRequests(reqs);
    UseEach(sys.data, all);
    UsableFit(sys.data, all);
    FlatMakes(sys.data, end.pairs, Epochs(sys.pairs), ids, reqs);
    RequestPiecesPairwise(all);
    RequestPiecesWhole(sys.data, all);
    PairsDone(sys, moves, end, RequestPieces(all));
  }
}
