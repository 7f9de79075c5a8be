/** The peer of a queue pair: a controller with its disk, taking one step at a time in any
    order it likes. `st` is the protocol state (its controller part is this object's own, the
    rest mirrors the driver), `data` the disk and the host memory it can reach. */
module ControllerModel {
  import opened Options
  import opened Ring
  import opened Commands
  import opened Protocol
  import opened ProtocolTheorems
  import opened Transfers
  import opened Layout

  /** Since `base`, when `epoch` commands had been executed, the commands in `log` have been,
      in that order; `data` is what they made of `base`, and each has its true status. */
  ghost predicate Served(base: Data, epoch: nat, log: seq<Command>, s: State, data: Data) {
    && epoch + |log| == |s.executed| && Settled(s, epoch)
    && data == ExecAll(base, log)
    && forall k :: 0 <= k < |log| ==> ServedAt(base, epoch, log, s, k)
  }

  ghost predicate ServedAt(base: Data, epoch: nat, log: seq<Command>, s: State, k: nat)
    requires k < |log| && epoch + |log| == |s.executed|
  {
    var i := s.executed[epoch + k];
    && i < |s.fetched| && i in s.results && log[k] == s.fetched[i]
    && s.results[i] == Exec(ExecAll(base, log[..k]), log[k]).status
  }

  lemma ServedKept(base: Data, epoch: nat, log: seq<Command>, s: State, data: Data, a: Step)
    requires Inv(s) && Enabled(s, a) && !a.Execute? && Served(base, epoch, log, s, data)
    ensures Served(base, epoch, log, Apply(s, a), data)
  {
    hide Exec, ExecAll, Indices, Order, SqMemory, CqMemory, Entries, Taken, Logs, Settled;
    var t := Apply(s, a);
    SettledKept(s, a, epoch);
    forall k | 0 <= k < |log|
      ensures ServedAt(base, epoch, log, t, k)
    {
      assert ServedAt(base, epoch, log, s, k);
    }
  }

  lemma ServedExecute(base: Data, epoch: nat, log: seq<Command>, s: State, data: Data, i: nat)
    requires Inv(s) && Served(base, epoch, log, s, data) && i in s.toExecute
    ensures Wf(s)
    ensures var c := s.fetched[i];
      var o := Exec(data, c);
      Enabled(s, Execute(i, o.status)) && Served(base, epoch, log + [c], Apply(s, Execute(i, o.status)), o.data)
  {
    hide Exec, Indices, Order, SqMemory, CqMemory, Entries, Taken, Settled;
    SettledKept(s, Execute(i, Exec(data, s.fetched[i]).status), epoch);
    var c := s.fetched[i];
    var o := Exec(data, c);
    var t := Apply(s, Execute(i, o.status));
    ExecAllAppend(base, log, c);
    forall k | 0 <= k < |log + [c]|
      ensures ServedAt(base, epoch, log + [c], t, k)
    {
      if k < |log| {
        assert ServedAt(base, epoch, log, s, k);
        assert (log + [c])[..k] == log[..k];
        assert s.executed[epoch + k] in s.results && i !in s.results;
      } else {
        assert (log + [c])[..k] == log;
      }
    }
  }

  /** When everything submitted since the account began is answered, the account is of those
      commands, each once, in some order. */
  lemma DrainedOrder(base: Data, epoch: nat, log: seq<Command>, s: State, data: Data) returns (order: seq<nat>)
    requires Inv(s) && Served(base, epoch, log, s, data) && s.consumed == |s.submitted|
    ensures |order| == |log| == |s.submitted| - epoch
    ensures forall k :: 0 <= k < |order| ==> order[k] < |order| && epoch + order[k] == s.executed[epoch + k]
    ensures forall i :: 0 <= i < |order| ==> i in order
    ensures log == Pick(s.submitted[epoch..], order)
  {
    hide Exec, ExecAll, Parts;
    DrainedWork(s);
    order := seq(|log|, k requires 0 <= k < |log| =>
      if s.executed[epoch + k] >= epoch then s.executed[epoch + k] - epoch else 0);
    forall k | 0 <= k < |order|
      ensures order[k] < |order| && epoch + order[k] == s.executed[epoch + k]
      ensures log[k] == s.submitted[epoch..][order[k]]
    {
      assert ServedAt(base, epoch, log, s, k);
    }
    forall i | 0 <= i < |order|
      ensures i in order
    {
      assert epoch + i in s.executed;
      var k :| 0 <= k < |s.executed| && s.executed[k] == epoch + i;
      assert order[k - epoch] == i;
    }
  }

  /** ... and each completion carries the status its command had when it was executed. */
  lemma DrainedStatus(base: Data, epoch: nat, log: seq<Command>, s: State, data: Data, j: nat) returns (k: nat)
    requires Inv(s) && Served(base, epoch, log, s, data) && s.consumed == |s.submitted| && epoch <= j < |s.submitted|
    ensures |s.posted| == |s.answers| == |s.submitted| && k < |log| && s.executed[epoch + k] == s.answers[j]
    ensures StatusField(s.posted[j]) == Exec(ExecAll(base, log[..k]), log[k]).status
  {
    hide Exec, ExecAll, Slot, Phase, StatusField, Indices, Order, SqMemory, CqMemory, Taken, Logs;
    DrainedWork(s);
    assert Entry(s, j);
    assert s.answers[j] in s.executed;
    var e :| 0 <= e < |s.executed| && s.executed[e] == s.answers[j];
    k := e - epoch;
    assert ServedAt(base, epoch, log, s, k);
  }

  /** The whole story of one transfer: once everything submitted for it is answered, in whatever
      order, every completion reports success and the data is that of one assignment. */
  lemma DrainedTransfer(base: Data, epoch: nat, log: seq<Command>, s: State, data: Data, io: Io, cuts: seq<nat>)
    requires Inv(s) && Served(base, epoch, log, s, data) && s.consumed == |s.submitted| && epoch <= |s.submitted|
    requires Fits(base, io) && MovesAll(base, s.submitted[epoch..], io, cuts)
    ensures data == Whole(base, io)
    ensures |s.posted| == |s.submitted| && forall j :: epoch <= j < |s.posted| ==> StatusField(s.posted[j]) == SUCCESS
  {
    hide Exec, ExecAll, Parts, Whole, StatusField;
    var order := DrainedOrder(base, epoch, log, s, data);
    var cmds := s.submitted[epoch..];
    OrderIndependent(base, cmds, io, cuts, order);
    DrainedWork(s);
    forall j | epoch <= j < |s.posted|
      ensures StatusField(s.posted[j]) == SUCCESS
    {
      var k := DrainedStatus(base, epoch, log, s, data, j);
      assert log[..k] == Pick(cmds, order[..k]);
      ExecOrder(base, cmds, io, cuts, order[..k]);
      ExecPiece(base, ExecAll(base, log[..k]), cmds, io, cuts, Chosen(order[..k]), order[k]);
    }
  }

  /** The story of a single command. */
  lemma DrainedSingle(base: Data, epoch: nat, log: seq<Command>, s: State, data: Data)
    requires Inv(s) && Served(base, epoch, log, s, data) && s.consumed == |s.submitted| == epoch + 1
    ensures var o := Exec(base, s.submitted[epoch]);
      data == o.data && |s.posted| == epoch + 1 && StatusField(s.posted[epoch]) == o.status
  {
    hide Exec, Parts, StatusField;
    var order := DrainedOrder(base, epoch, log, s, data);
    var k := DrainedStatus(base, epoch, log, s, data, epoch);
    assert order[0] == 0 && k == 0;
    assert log[..0] == [] && log == [] + [s.submitted[epoch]];
    ExecAllAppend(base, [], s.submitted[epoch]);
  }

  lemma FetchFrame(s: State)
    requires Wf(s) && Enabled(s, Fetch)
    ensures Apply(s, Fetch).cq == s.cq
  {
  }

  lemma ExecuteFrame(s: State, i: nat, status: nat)
    requires Wf(s) && Enabled(s, Execute(i, status))
    ensures Apply(s, Execute(i, status)).cq == s.cq
  {
  }

  lemma SomeStep(s: State)
    requires Wf(s)
    requires Enabled(s, Fetch) || s.toExecute != {} || exists i :: i in s.toPost && Enabled(s, Post(i))
    ensures exists a: Step :: ControllerStep(a) && Enabled(s, a)
  {
    if s.toExecute != {} {
      var i :| i in s.toExecute;
      assert ControllerStep(Execute(i, 0)) && Enabled(s, Execute(i, 0));
    } else if Enabled(s, Fetch) {
      assert ControllerStep(Fetch);
    } else {
      var i :| i in s.toPost && Enabled(s, Post(i));
      assert ControllerStep(Post(i));
    }
  }

  class Controller {
    var st: State
    var data: Data
    ghost const len0: nat
    ghost const sq0: seq<Command>
    ghost const cq0: seq<Completion>
    ghost var trace: seq<Step>
    ghost var base: Data
    ghost var epoch: nat
    ghost var log: seq<Command>

    /** The state is the outcome of a run from freshly created rings. */
    ghost predicate Valid()
      reads this
    {
      && ValidInit(len0, sq0, cq0) && Run(Init(len0, sq0, cq0), trace) == Some(st)
      && Inv(st) && Served(base, epoch, log, st, data)
    }

    constructor (len: nat, sq: seq<Command>, cq: seq<Completion>, data: Data)
      requires ValidInit(len, sq, cq)
      ensures Valid() && st == Init(len, sq, cq) && this.data == base == data && epoch == 0 && log == []
    {
      hide Parts;
      InitInv(len, sq, cq);
      st, this.data := Init(len, sq, cq), data;
      len0, sq0, cq0, trace := len, sq, cq, [];
      base, epoch, log := data, 0, [];
    }

    /** Records a step of the driver, or a step of the controller that leaves the data alone. */
    method Take(a: Step)
      requires Valid() && Enabled(st, a) && !a.Execute?
      modifies this`st, this`trace
      ensures Valid() && st == Apply(old(st), a)
    {
      hide Parts, Served;
      StepInv(st, a);
      RunAppend(Init(len0, sq0, cq0), trace, a);
      ServedKept(base, epoch, log, st, data, a);
      trace := trace + [a];
      st := Apply(st, a);
    }

    method DoExecute(i: nat)
      requires Valid() && i in st.toExecute
      modifies this`st, this`trace, this`data, this`log
      ensures Valid()
      ensures exists status :: Enabled(old(st), Execute(i, status)) && st == Apply(old(st), Execute(i, status))
    {
      hide Parts, Served;
      var o := Exec(data, st.fetched[i]);
      var a := Execute(i, o.status);
      StepInv(st, a);
      RunAppend(Init(len0, sq0, cq0), trace, a);
      ServedExecute(base, epoch, log, st, data, i);
      trace, log := trace + [a], log + [st.fetched[i]];
      st, data := Apply(st, a), o.data;
    }

    method DoPost(i: nat, ring: array<Completion>)
      requires Valid() && ring[..] == st.cq && Enabled(st, Post(i))
      modifies this`st, this`trace, ring
      ensures Valid() && ring[..] == st.cq && st == Apply(old(st), Post(i))
    {
      ring[st.cqTail] := CompletionFor(st, i);
      Take(Post(i));
    }

    /** One step of the controller, whichever of those possible it chooses. */
    method StepOnce(ring: array<Completion>)
      requires Valid() && ring[..] == st.cq
      requires exists a: Step :: ControllerStep(a) && Enabled(st, a)
      modifies this`st, this`trace, this`data, this`log, ring
      ensures Valid() && ring[..] == st.cq
      ensures SameDriver(old(st), st) && Owed(st) < Owed(old(st))
    {
      hide Parts, Served, SameDriver, Owed, Apply;
      ghost var before := st;
      WorkDisjoint(st);
      ghost var a: Step;
      if {
        case Enabled(st, Fetch) =>
          a := Fetch;
          FetchFrame(st);
          Take(Fetch);
        case st.toExecute != {} =>
          var i :| i in st.toExecute;
          DoExecute(i);
          ghost var status :| Enabled(before, Execute(i, status)) && st == Apply(before, Execute(i, status));
          a := Execute(i, status);
          ExecuteFrame(before, i, status);
        case exists i :: i in st.toPost && Enabled(st, Post(i)) =>
          var i :| i in st.toPost && Enabled(st, Post(i));
          a := Post(i);
          DoPost(i, ring);
      }
      ControllerStepPays(before, a);
    }

    /** Any number of steps, while the driver does something else. */
    method Interleave(ring: array<Completion>)
      requires Valid() && ring[..] == st.cq
      modifies this`st, this`trace, this`data, this`log, ring
      ensures Valid() && ring[..] == st.cq
      ensures SameDriver(old(st), st) && Owed(st) <= Owed(old(st))
    {
      hide Parts, Served, Owed;
      while *
        invariant Valid() && ring[..] == st.cq && SameDriver(old(st), st) && Owed(st) <= Owed(old(st))
        decreases Owed(st)
      {
        if Enabled(st, Fetch) || st.toExecute != {} || exists i :: i in st.toPost && Enabled(st, Post(i)) {
          SomeStep(st);
          OwedNonNegative(st);
          StepOnce(ring);
        } else {
          break;
        }
      }
    }

    /** The driver changes its memory while nothing is outstanding; the account starts afresh. */
    method HostUpdate(d: Data)
      requires Valid() && st.consumed == |st.submitted|
      modifies this`data, this`base, this`epoch, this`log
      ensures Valid() && data == base == d && epoch == |st.submitted| && log == []
    {
      hide Parts;
      DrainedSettles(st);
      data := d;
      base, epoch, log := d, |st.executed|, [];
    }
  }
}
