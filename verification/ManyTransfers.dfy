/** Several transfers under way at once: any commands whose blocks and memory do not get in each
    other's way can be executed in any order, with the outcome of their assignments in any order. */
module ManyTransfers {
  import opened Options
  import opened Ring
  import opened Commands
  import opened Protocol
  import opened ProtocolTheorems
  import opened Transfers
  import opened Layout
  import opened Prps
  import opened Memory
  import opened PairIo
  import opened ControllerModel
  import opened QueuePair

  /** Two transfers can be under way together: no write shares its blocks, and no read its memory. */
  predicate Independent(a: Io, b: Io) {
    && (a.write || b.write ==> Separate(a.at, a.total, b.at, b.total))
    && (!a.write || !b.write ==> Separate(a.phys, a.total, b.phys, b.total))
  }

  ghost predicate Pairwise(ios: seq<Io>) {
    forall i, j :: 0 <= i < j < |ios| ==> Independent(ios[i], ios[j])
  }

  ghost predicate AllFit(d: Data, ios: seq<Io>) {
    forall i :: 0 <= i < |ios| ==> Fits(d, ios[i])
  }

  /** One assignment after another. */
  ghost function WholeAll(d: Data, ios: seq<Io>): (r: Data)
    requires AllFit(d, ios)
    ensures |r.disk| == |d.disk| && |r.mem| == |d.mem| && r.list == d.list && r.listPhys == d.listPhys
  {
    if ios == [] then d
    else
      var n := |ios| - 1;
      Whole(WholeAll(d, ios[..n]), ios[n])
  }

  // ---------------------------------------------------------------- the effect of some of them

  predicate InTarget(io: Io, disk: bool, k: nat) {
    io.write == disk && (if disk then io.at <= k < io.at + io.total else io.phys <= k < io.phys + io.total)
  }

  /** Byte k of the disk, or of memory, is a target of one of the transfers in `done`. */
  ghost predicate Hit(ios: seq<Io>, done: set<nat>, disk: bool, k: nat) {
    exists t :: t in done && t < |ios| && InTarget(ios[t], disk, k)
  }

  /** The target of io holds what its source held. */
  ghost predicate Moved(d0: Data, d: Data, io: Io)
    requires Fits(d0, io) && Fits(d, io)
  {
    if io.write then d.disk[io.at..io.at + io.total] == d0.mem[io.phys..io.phys + io.total]
    else d.mem[io.phys..io.phys + io.total] == d0.disk[io.at..io.at + io.total]
  }

  ghost predicate SameShape(d0: Data, d: Data) {
    |d.disk| == |d0.disk| && |d.mem| == |d0.mem| && d.list == d0.list && d.listPhys == d0.listPhys
  }

  /** The transfers in `done` have been made, in whatever order, and nothing else. */
  ghost predicate Effect(d0: Data, d: Data, ios: seq<Io>, done: set<nat>)
    requires AllFit(d0, ios)
  {
    && SameShape(d0, d)
    && (forall t :: t in done && t < |ios| ==> Moved(d0, d, ios[t]))
    && (forall k :: 0 <= k < |d.disk| && !Hit(ios, done, true, k) ==> d.disk[k] == d0.disk[k])
    && (forall k :: 0 <= k < |d.mem| && !Hit(ios, done, false, k) ==> d.mem[k] == d0.mem[k])
  }

  lemma NotHit(ios: seq<Io>, done: set<nat>, t: nat, disk: bool, k: nat)
    requires Pairwise(ios) && t < |ios|
    requires if disk then !ios[t].write && ios[t].at <= k < ios[t].at + ios[t].total
             else ios[t].write && ios[t].phys <= k < ios[t].phys + ios[t].total
    ensures !Hit(ios, done, disk, k)
  {
    forall s | s in done && s < |ios|
      ensures !InTarget(ios[s], disk, k)
    {
      if s < t {
        assert Independent(ios[s], ios[t]);
      } else if t < s {
        assert Independent(ios[t], ios[s]);
      }
    }
  }

  /** The source of a transfer is still as it was. */
  lemma SourceKept(d0: Data, d: Data, ios: seq<Io>, done: set<nat>, t: nat)
    requires AllFit(d0, ios) && Pairwise(ios) && Effect(d0, d, ios, done) && t < |ios|
    ensures Fits(d, ios[t])
    ensures var io := ios[t];
      if io.write then d.mem[io.phys..io.phys + io.total] == d0.mem[io.phys..io.phys + io.total]
      else d.disk[io.at..io.at + io.total] == d0.disk[io.at..io.at + io.total]
  {
    hide Hit, Moved, Independent;
    var io := ios[t];
    if io.write {
      forall k | io.phys <= k < io.phys + io.total
        ensures d.mem[k] == d0.mem[k]
      {
        NotHit(ios, done, t, false, k);
      }
    } else {
      forall k | io.at <= k < io.at + io.total
        ensures d.disk[k] == d0.disk[k]
      {
        NotHit(ios, done, t, true, k);
      }
    }
  }

  /** Another transfer leaves a target alone. */
  lemma TargetKept(d0: Data, d: Data, io: Io, other: Io)
    requires Fits(d0, io) && Fits(d0, other) && SameShape(d0, d) && Moved(d0, d, io) && Independent(io, other)
    ensures Moved(d0, Whole(d, other), io)
  {
    hide Splice;
    var e := Whole(d, other);
    if io.write {
      assert e.disk[io.at..io.at + io.total] == d.disk[io.at..io.at + io.total];
    } else {
      assert e.mem[io.phys..io.phys + io.total] == d.mem[io.phys..io.phys + io.total];
    }
  }

  lemma NowMoved(d0: Data, d: Data, io: Io)
    requires Fits(d0, io) && SameShape(d0, d)
    requires if io.write then d.mem[io.phys..io.phys + io.total] == d0.mem[io.phys..io.phys + io.total]
             else d.disk[io.at..io.at + io.total] == d0.disk[io.at..io.at + io.total]
    ensures SameShape(d0, Whole(d, io)) && Moved(d0, Whole(d, io), io)
  {
    hide Splice;
    var e := Whole(d, io);
    if io.write {
      assert e.disk[io.at..io.at + io.total] == d.mem[io.phys..io.phys + io.total];
    } else {
      assert e.mem[io.phys..io.phys + io.total] == d.disk[io.at..io.at + io.total];
    }
  }

  lemma Unhit(ios: seq<Io>, done: set<nat>, t: nat, disk: bool, k: nat)
    requires t < |ios| && !Hit(ios, done + {t}, disk, k)
    ensures !Hit(ios, done, disk, k) && !InTarget(ios[t], disk, k)
  {
    assert t in done + {t};
    assert forall s :: s in done ==> s in done + {t};
  }

  /** One more transfer, in whatever order. */
  lemma EffectStep(d0: Data, d: Data, ios: seq<Io>, done: set<nat>, t: nat)
    requires AllFit(d0, ios) && Pairwise(ios) && Effect(d0, d, ios, done) && t < |ios|
    ensures Fits(d, ios[t]) && Effect(d0, Whole(d, ios[t]), ios, done + {t})
  {
    hide Hit, Moved, Independent, Splice;
    SourceKept(d0, d, ios, done, t);
    NowMoved(d0, d, ios[t]);
    var e := Whole(d, ios[t]);
    forall s | s in done + {t} && s < |ios|
      ensures Moved(d0, e, ios[s])
    {
      if s < t {
        TargetKept(d0, d, ios[s], ios[t]);
      } else if t < s {
        assert Independent(ios[t], ios[s]);
        Symmetric(ios[t], ios[s]);
        TargetKept(d0, d, ios[s], ios[t]);
      }
    }
    forall k | 0 <= k < |e.disk| && !Hit(ios, done + {t}, true, k)
      ensures e.disk[k] == d0.disk[k]
    {
      Unhit(ios, done, t, true, k);
    }
    forall k | 0 <= k < |e.mem| && !Hit(ios, done + {t}, false, k)
      ensures e.mem[k] == d0.mem[k]
    {
      Unhit(ios, done, t, false, k);
    }
  }

  lemma Symmetric(a: Io, b: Io)
    requires Independent(a, b)
    ensures Independent(b, a)
  {
  }

  /** When all are done there is only one possible outcome. */
  lemma EffectUnique(d0: Data, d: Data, e: Data, ios: seq<Io>, done: set<nat>, done': set<nat>)
    requires AllFit(d0, ios) && Effect(d0, d, ios, done) && Effect(d0, e, ios, done')
    requires forall t :: 0 <= t < |ios| ==> t in done && t in done'
    ensures d == e
  {
    hide Hit;
    forall k | 0 <= k < |d.disk|
      ensures d.disk[k] == e.disk[k]
    {
      SameByte(d0, d, e, ios, done, done', true, k);
    }
    forall k | 0 <= k < |d.mem|
      ensures d.mem[k] == e.mem[k]
    {
      SameByte(d0, d, e, ios, done, done', false, k);
    }
  }

  /** The byte a target byte was copied from. */
  function SourceByte(d0: Data, io: Io, disk: bool, k: nat): Byte
    requires Fits(d0, io) && InTarget(io, disk, k)
  {
    if disk then d0.mem[io.phys + (k - io.at)] else d0.disk[io.at + (k - io.phys)]
  }

  lemma MovedByte(d0: Data, d: Data, io: Io, disk: bool, k: nat)
    requires Fits(d0, io) && Fits(d, io) && Moved(d0, d, io) && InTarget(io, disk, k)
    ensures (if disk then d.disk[k] else d.mem[k]) == SourceByte(d0, io, disk, k)
  {
    if disk {
      assert d.disk[k] == d.disk[io.at..io.at + io.total][k - io.at];
    } else {
      assert d.mem[k] == d.mem[io.phys..io.phys + io.total][k - io.phys];
    }
  }

  lemma EffectMoved(d0: Data, d: Data, ios: seq<Io>, done: set<nat>, t: nat)
    requires AllFit(d0, ios) && Effect(d0, d, ios, done) && t in done && t < |ios|
    ensures Fits(d0, ios[t]) && Fits(d, ios[t]) && Moved(d0, d, ios[t])
  {
    hide Hit, Moved;
  }

  lemma SameByte(d0: Data, d: Data, e: Data, ios: seq<Io>, done: set<nat>, done': set<nat>, disk: bool, k: nat)
    requires AllFit(d0, ios) && Effect(d0, d, ios, done) && Effect(d0, e, ios, done')
    requires forall t :: 0 <= t < |ios| ==> t in done && t in done'
    requires k < if disk then |d.disk| else |d.mem|
    ensures |d.disk| == |e.disk| && |d.mem| == |e.mem|
    ensures if disk then d.disk[k] == e.disk[k] else d.mem[k] == e.mem[k]
  {
    hide Moved, SourceByte, InTarget;
    if t: nat :| t < |ios| && InTarget(ios[t], disk, k) {
      EffectMoved(d0, d, ios, done, t);
      EffectMoved(d0, e, ios, done', t);
      MovedByte(d0, d, ios[t], disk, k);
      MovedByte(d0, e, ios[t], disk, k);
    } else {
      assert !Hit(ios, done, disk, k) && !Hit(ios, done', disk, k);
    }
  }

  // ---------------------------------------------------------------- any order

  lemma EffectStart(d0: Data, ios: seq<Io>)
    requires AllFit(d0, ios)
    ensures Effect(d0, d0, ios, {})
  {
  }

  lemma {:induction false} WholeAllEffect(d0: Data, ios: seq<Io>, order: seq<nat>)
    requires AllFit(d0, ios) && Pairwise(ios) && forall k :: 0 <= k < |order| ==> order[k] < |ios|
    ensures AllFit(d0, Pick(ios, order)) && Effect(d0, WholeAll(d0, Pick(ios, order)), ios, Chosen(order))
  {
    hide Pairwise, Effect, Whole, Chosen;
    if order == [] {
      EffectStart(d0, ios);
      assert Chosen(order) == {} by { NoneChosen(); }
    } else {
      var n := |order| - 1;
      WholeAllEffect(d0, ios, order[..n]);
      assert Pick(ios, order)[..n] == Pick(ios, order[..n]);
      EffectStep(d0, WholeAll(d0, Pick(ios, order[..n])), ios, Chosen(order[..n]), order[n]);
      ChosenAppend(order);
    }
  }

  lemma AllChosen(order: seq<nat>, n: nat)
    requires forall i :: 0 <= i < n ==> i in order
    ensures forall i :: 0 <= i < n ==> i in Chosen(order)
  {
    forall i | 0 <= i < n
      ensures i in Chosen(order)
    {
      InChosen(order, i);
    }
  }

  lemma InChosen(order: seq<nat>, i: nat)
    requires i in order
    ensures i in Chosen(order)
  {
  }

  /** The assignments themselves can be made in any order, each at least once. */
  lemma AssignmentOrder(d0: Data, ios: seq<Io>, order: seq<nat>)
    requires AllFit(d0, ios) && Pairwise(ios) && forall k :: 0 <= k < |order| ==> order[k] < |ios|
    requires forall i :: 0 <= i < |ios| ==> i in order
    ensures AllFit(d0, Pick(ios, order)) && WholeAll(d0, Pick(ios, order)) == WholeAll(d0, ios)
  {
    hide Pairwise, Effect, WholeAll, Chosen, AllFit;
    WholeAllEffect(d0, ios, order);
    var inOrder := seq(|ios|, k => k);
    WholeAllEffect(d0, ios, inOrder);
    assert Pick(ios, inOrder) == ios;
    forall i | 0 <= i < |ios|
      ensures i in inOrder
    {
      assert inOrder[i] == i;
    }
    AllChosen(order, |ios|);
    AllChosen(inOrder, |ios|);
    EffectUnique(d0, WholeAll(d0, Pick(ios, order)), WholeAll(d0, ios), ios, Chosen(order), Chosen(inOrder));
  }

  /** Command i makes the whole of transfer i. */
  ghost predicate MakesEach(d: Data, cmds: seq<Command>, ios: seq<Io>) {
    |cmds| == |ios| && forall i :: 0 <= i < |cmds| ==> Moves(d, cmds[i], ios[i], 0, ios[i].total)
  }

  lemma ExecWhole(d0: Data, d: Data, c: Command, io: Io)
    requires SameShape(d0, d) && Fits(d0, io) && Moves(d0, c, io, 0, io.total)
    ensures Exec(d, c) == Outcome(Whole(d, io), SUCCESS)
  {
    hide Describes, Exec, Splice;
    SameList(d0, d, c.ptr0, c.ptr1, io.phys, io.total);
    ExecTransfer(d, c, io.phys);
    OutcomeOf(d, c);
  }

  lemma OutcomeOf(d: Data, c: Command)
    ensures Exec(d, c) == Outcome(Exec(d, c).data, Exec(d, c).status)
  {
    hide Exec;
  }

  lemma ShapeOf(d0: Data, d: Data, ios: seq<Io>, done: set<nat>)
    requires AllFit(d0, ios) && Effect(d0, d, ios, done)
    ensures SameShape(d0, d)
  {
    hide Hit, Moved;
  }

  lemma {:induction false} CommandsEffect(d0: Data, cmds: seq<Command>, ios: seq<Io>, order: seq<nat>)
    requires AllFit(d0, ios) && Pairwise(ios) && MakesEach(d0, cmds, ios)
    requires forall k :: 0 <= k < |order| ==> order[k] < |ios|
    ensures Effect(d0, ExecAll(d0, Pick(cmds, order)), ios, Chosen(order))
  {
    hide Pairwise, Effect, Whole, Exec, Chosen, Moves;
    if order == [] {
      EffectStart(d0, ios);
      assert Chosen(order) == {} by { NoneChosen(); }
    } else {
      var n := |order| - 1;
      CommandsEffect(d0, cmds, ios, order[..n]);
      assert Pick(cmds, order)[..n] == Pick(cmds, order[..n]);
      var d := ExecAll(d0, Pick(cmds, order[..n]));
      ShapeOf(d0, d, ios, Chosen(order[..n]));
      ExecWhole(d0, d, cmds[order[n]], ios[order[n]]);
      EffectStep(d0, d, ios, Chosen(order[..n]), order[n]);
      ChosenAppend(order);
    }
  }

  /** In whatever order the commands are executed, each at least once, the outcome is that of the
      assignments. */
  lemma CommandOrder(d0: Data, cmds: seq<Command>, ios: seq<Io>, order: seq<nat>)
    requires AllFit(d0, ios) && Pairwise(ios) && MakesEach(d0, cmds, ios)
    requires forall k :: 0 <= k < |order| ==> order[k] < |ios|
    requires forall i :: 0 <= i < |ios| ==> i in order
    ensures ExecAll(d0, Pick(cmds, order)) == WholeAll(d0, ios)
  {
    hide Pairwise, Effect, MakesEach, Chosen, ExecAll, WholeAll, AllFit;
    SameNumber(d0, cmds, ios);
    CommandsEffect(d0, cmds, ios, order);
    AssignmentOrder(d0, ios, order);
    WholeAllEffect(d0, ios, order);
    AllChosen(order, |ios|);
    EffectUnique(d0, ExecAll(d0, Pick(cmds, order)), WholeAll(d0, Pick(ios, order)), ios, Chosen(order),
                 Chosen(order));
  }

  // ---------------------------------------------------------------- one transfer and its pieces

  /** The pieces of a transfer, as transfers of their own. */
  function Pieces(io: Io, cuts: seq<nat>): (r: seq<Io>)
    requires cuts != [] && forall i :: 0 <= i < |cuts| - 1 ==> cuts[i] <= cuts[i + 1]
    ensures |r| == |cuts| - 1
  {
    seq(|cuts| - 1, i requires 0 <= i < |cuts| - 1 => PieceOfIo(io, cuts[i], cuts[i + 1]))
  }

  function PieceOfIo(io: Io, from: nat, to: nat): Io
    requires from <= to
  {
    Io(io.write, io.at + from, io.phys + from, to - from)
  }

  /** p is a part of io. */
  predicate PartOf(p: Io, io: Io) {
    p.write == io.write && io.at <= p.at && io.phys <= p.phys && p.at - io.at == p.phys - io.phys
    && p.at + p.total <= io.at + io.total
  }

  lemma PartsIndependent(p: Io, a: Io, q: Io, b: Io)
    requires PartOf(p, a) && PartOf(q, b) && Independent(a, b)
    ensures Independent(p, q)
  {
  }

  lemma PiecesArePairwise(io: Io, cuts: seq<nat>)
    requires Tiling(cuts, io.total)
    ensures Pairwise(Pieces(io, cuts)) && forall i :: 0 <= i < |cuts| - 1 ==> PartOf(Pieces(io, cuts)[i], io)
  {
    forall i | 0 <= i < |cuts| - 1
      ensures PartOf(Pieces(io, cuts)[i], io)
    {
      assert i + 1 < |cuts| - 1 ==> cuts[i + 1] < cuts[|cuts| - 1];
    }
    forall i, j | 0 <= i < j < |cuts| - 1
      ensures Independent(Pieces(io, cuts)[i], Pieces(io, cuts)[j])
    {
      assert i + 1 < j ==> cuts[i + 1] < cuts[j];
    }
  }

  lemma NextPiece(d: Data, io: Io, from: nat, to: nat)
    requires Fits(d, io) && from <= to <= io.total
    ensures var e := Whole(d, UpTo(io, from));
      Fits(e, PieceOfIo(io, from, to)) && Whole(e, PieceOfIo(io, from, to)) == Whole(d, UpTo(io, to))
  {
    hide Splice;
    if io.write {
      SpliceExtend(d.disk, io.at, d.mem, io.phys, from, to);
    } else {
      SpliceExtend(d.mem, io.phys, d.disk, io.at, from, to);
    }
  }

  lemma NothingMoved(d: Data, io: Io)
    requires Fits(d, io)
    ensures Whole(d, UpTo(io, 0)) == d
  {
    if io.write {
      assert Splice(d.disk, io.at, d.mem[io.phys..io.phys]) == d.disk;
    } else {
      assert Splice(d.mem, io.phys, d.disk[io.at..io.at]) == d.mem;
    }
  }

  lemma PiecesFit(d: Data, io: Io, cuts: seq<nat>)
    requires Tiling(cuts, io.total) && Fits(d, io)
    ensures AllFit(d, Pieces(io, cuts))
  {
    forall i | 0 <= i < |cuts| - 1
      ensures Fits(d, Pieces(io, cuts)[i])
    {
      assert i + 1 < |cuts| - 1 ==> cuts[i + 1] < cuts[|cuts| - 1];
    }
  }

  lemma {:induction false} FirstPieces(d: Data, io: Io, cuts: seq<nat>, m: nat)
    requires Tiling(cuts, io.total) && Fits(d, io) && m < |cuts|
    ensures cuts[m] <= io.total && AllFit(d, Pieces(io, cuts)[..m])
    ensures WholeAll(d, Pieces(io, cuts)[..m]) == Whole(d, UpTo(io, cuts[m]))
  {
    hide Whole, Splice, Tiling, Pieces, Fits;
    CutBounds(cuts, io.total, m);
    PiecesFit(d, io, cuts);
    CutsRise(cuts, io.total);
    var ps := Pieces(io, cuts);
    if m == 0 {
      assert ps[..0] == [];
      NothingMoved(d, io);
    } else {
      CutBounds(cuts, io.total, m - 1);
      FirstPieces(d, io, cuts, m - 1);
      assert ps[..m][..m - 1] == ps[..m - 1] && ps[..m][m - 1] == ps[m - 1];
      PieceAt(io, cuts, m - 1);
      NextPiece(d, io, cuts[m - 1], cuts[m]);
    }
  }

  lemma CutBounds(cuts: seq<nat>, total: nat, m: nat)
    requires Tiling(cuts, total) && m < |cuts|
    ensures cuts[m] <= total && cuts[0] == 0 && (m + 1 < |cuts| ==> cuts[m] <= cuts[m + 1])
  {
    assert m < |cuts| - 1 ==> cuts[m] < cuts[|cuts| - 1];
  }

  /** A transfer is its pieces. */
  lemma PiecesAreWhole(d: Data, io: Io, cuts: seq<nat>)
    requires Tiling(cuts, io.total) && Fits(d, io)
    ensures AllFit(d, Pieces(io, cuts)) && WholeAll(d, Pieces(io, cuts)) == Whole(d, io)
  {
    hide Whole;
    FirstPieces(d, io, cuts, |cuts| - 1);
    assert Pieces(io, cuts)[..|cuts| - 1] == Pieces(io, cuts);
    assert UpTo(io, io.total) == io;
  }

  lemma {:induction false} WholeAllAppend(d: Data, a: seq<Io>, b: seq<Io>)
    requires AllFit(d, a) && AllFit(d, b)
    ensures AllFit(d, a + b) && AllFit(WholeAll(d, a), b) && WholeAll(d, a + b) == WholeAll(WholeAll(d, a), b)
    decreases |b|
  {
    hide Whole;
    if b == [] {
      assert a + b == a;
    } else {
      var n := |b| - 1;
      assert (a + b)[..|a + b| - 1] == a + b[..n];
      WholeAllAppend(d, a, b[..n]);
    }
  }

  // ---------------------------------------------------------------- several calls of submit_io

  datatype Request = Request(dma: Dma, lba: nat, write: bool)

  function IoOf(r: Request): Io { TransferOf(r.dma, r.lba, r.write) }

  function Ios(reqs: seq<Request>): (r: seq<Io>)
    ensures |r| == |reqs| && forall i :: 0 <= i < |r| ==> r[i] == IoOf(reqs[i])
  {
    seq(|reqs|, i requires 0 <= i < |reqs| => IoOf(reqs[i]))
  }

  /** A page-aligned buffer, apart from the list page, and an address that does not overflow. */
  predicate Usable(d: Data, r: Request) {
    && r.dma.phys % PAGE == 0 && r.lba + BlockCount(r.dma.size) <= U64
    && Apart(d, r.dma.phys, RoundUp(r.dma.size)) && Fits(d, IoOf(r))
  }

  /** What the calls queue, one after another. */
  function RequestCommands(id: nat, start: nat, len: nat, reqs: seq<Request>): seq<Command>
    requires len > 0
  {
    if reqs == [] then []
    else
      var n := |reqs| - 1;
      var earlier := RequestCommands(id, start, len, reqs[..n]);
      earlier + PairCommands(id, start + |earlier|, len, reqs[n].dma, reqs[n].lba, reqs[n].write)
  }

  function CutsOf(r: Request): seq<nat> { Cuts(RoundUp(r.dma.size), PAIR_CHUNK) }

  ghost function RequestPieces(reqs: seq<Request>): seq<Io> {
    if reqs == [] then []
    else
      var n := |reqs| - 1;
      CutsTile(RoundUp(reqs[n].dma.size), PAIR_CHUNK);
      RequestPieces(reqs[..n]) + Pieces(IoOf(reqs[n]), CutsOf(reqs[n]))
  }

  lemma CutsRise(cuts: seq<nat>, total: nat)
    requires Tiling(cuts, total)
    ensures cuts != [] && forall i :: 0 <= i < |cuts| - 1 ==> cuts[i] <= cuts[i + 1]
  {
  }

  lemma PieceAt(io: Io, cuts: seq<nat>, i: nat)
    requires cuts != [] && forall i :: 0 <= i < |cuts| - 1 ==> cuts[i] <= cuts[i + 1]
    requires i < |cuts| - 1
    ensures Pieces(io, cuts)[i] == PieceOfIo(io, cuts[i], cuts[i + 1])
  {
  }

  lemma MakesOne(d: Data, cmds: seq<Command>, io: Io, cuts: seq<nat>)
    requires MovesAll(d, cmds, io, cuts)
    ensures MakesEach(d, cmds, Pieces(io, cuts))
  {
    hide Moves, Tiling, Pieces;
    CutsRise(cuts, io.total);
    var ps := Pieces(io, cuts);
    forall i | 0 <= i < |cmds|
      ensures Moves(d, cmds[i], ps[i], 0, ps[i].total)
    {
      PieceAt(io, cuts, i);
      MovesPiece(d, cmds[i], io, cuts[i], cuts[i + 1]);
    }
  }

  lemma MovesPiece(d: Data, c: Command, io: Io, from: nat, to: nat)
    requires Moves(d, c, io, from, to)
    ensures Moves(d, c, PieceOfIo(io, from, to), 0, to - from)
  {
    hide Describes;
  }

  lemma MakesAppend(d: Data, a: seq<Command>, x: seq<Io>, b: seq<Command>, y: seq<Io>)
    requires MakesEach(d, a, x) && MakesEach(d, b, y)
    ensures MakesEach(d, a + b, x + y)
  {
    hide Moves;
  }

  lemma {:induction false} RequestsMake(d: Data, id: nat, start: nat, len: nat, reqs: seq<Request>)
    requires len > 0 && forall i :: 0 <= i < |reqs| ==> Usable(d, reqs[i])
    ensures MakesEach(d, RequestCommands(id, start, len, reqs), RequestPieces(reqs))
  {
    hide MakesEach, MovesAll, Apart, BlockCount, RoundUp, PairCommands, Cuts, Pieces;
    if reqs == [] {
      assert MakesEach(d, [], []) by { MakesNone(d); }
    } else {
      var n := |reqs| - 1;
      RequestsMake(d, id, start, len, reqs[..n]);
      var earlier := RequestCommands(id, start, len, reqs[..n]);
      assert Usable(d, reqs[n]);
      PairCommandsMove(d, id, start + |earlier|, len, reqs[n].dma, reqs[n].lba, reqs[n].write);
      CutsTile(RoundUp(reqs[n].dma.size), PAIR_CHUNK);
      var cmds := PairCommands(id, start + |earlier|, len, reqs[n].dma, reqs[n].lba, reqs[n].write);
      MakesOne(d, cmds, IoOf(reqs[n]), CutsOf(reqs[n]));
      MakesAppend(d, earlier, RequestPieces(reqs[..n]), cmds, Pieces(IoOf(reqs[n]), CutsOf(reqs[n])));
    }
  }

  lemma MakesNone(d: Data)
    ensures MakesEach(d, [], [])
  {
  }

  /** Every piece is part of one of the transfers. */
  ghost predicate PartsOf(ps: seq<Io>, ios: seq<Io>) {
    forall i :: 0 <= i < |ps| ==> exists j :: 0 <= j < |ios| && PartOf(ps[i], ios[j])
  }

  lemma PartsAcross(ps: seq<Io>, ios: seq<Io>, q: seq<Io>, io: Io)
    requires PartsOf(ps, ios) && forall i :: 0 <= i < |q| ==> PartOf(q[i], io)
    requires forall j :: 0 <= j < |ios| ==> Independent(ios[j], io)
    requires Pairwise(ps) && Pairwise(q)
    ensures Pairwise(ps + q) && PartsOf(ps + q, ios + [io])
  {
    hide Independent, PartOf;
    forall i, j | 0 <= i < j < |ps + q|
      ensures Independent((ps + q)[i], (ps + q)[j])
    {
      if i < |ps| <= j {
        var k :| 0 <= k < |ios| && PartOf(ps[i], ios[k]);
        PartsIndependent(ps[i], ios[k], q[j - |ps|], io);
      } else if |ps| <= i {
        assert Independent(q[i - |ps|], q[j - |ps|]);
      }
    }
    forall i | 0 <= i < |ps + q|
      ensures exists j :: 0 <= j < |ios + [io]| && PartOf((ps + q)[i], (ios + [io])[j])
    {
      if i < |ps| {
        var k :| 0 <= k < |ios| && PartOf(ps[i], ios[k]);
        assert (ios + [io])[k] == ios[k];
      } else {
        assert (ios + [io])[|ios|] == io && PartOf(q[i - |ps|], io);
      }
    }
  }

  lemma {:induction false} RequestPiecesPairwise(reqs: seq<Request>)
    requires Pairwise(Ios(reqs))
    ensures Pairwise(RequestPieces(reqs)) && PartsOf(RequestPieces(reqs), Ios(reqs))
  {
    hide Independent, PartOf, RoundUp, Cuts, IoOf, Pieces;
    if reqs != [] {
      var n := |reqs| - 1;
      assert Ios(reqs) == Ios(reqs[..n]) + [IoOf(reqs[n])];
      RequestPiecesPairwise(reqs[..n]);
      CutsTile(RoundUp(reqs[n].dma.size), PAIR_CHUNK);
      CutsOfIo(reqs[n]);
      PiecesArePairwise(IoOf(reqs[n]), CutsOf(reqs[n]));
      assert forall j :: 0 <= j < n ==> Independent(Ios(reqs)[j], Ios(reqs)[n]);
      PartsAcross(RequestPieces(reqs[..n]), Ios(reqs[..n]), Pieces(IoOf(reqs[n]), CutsOf(reqs[n])), IoOf(reqs[n]));
    }
  }

  lemma CutsOfIo(r: Request)
    ensures Tiling(CutsOf(r), IoOf(r).total)
  {
    hide RoundUp;
    CutsTile(RoundUp(r.dma.size), PAIR_CHUNK);
  }

  lemma {:induction false} RequestPiecesWhole(d: Data, reqs: seq<Request>)
    requires AllFit(d, Ios(reqs))
    ensures AllFit(d, RequestPieces(reqs)) && WholeAll(d, RequestPieces(reqs)) == WholeAll(d, Ios(reqs))
  {
    hide RoundUp, Cuts, IoOf, Pieces, Whole;
    if reqs != [] {
      var n := |reqs| - 1;
      assert Ios(reqs)[..n] == Ios(reqs[..n]);
      RequestPiecesWhole(d, reqs[..n]);
      CutsTile(RoundUp(reqs[n].dma.size), PAIR_CHUNK);
      CutsOfIo(reqs[n]);
      var io := IoOf(reqs[n]);
      assert Fits(d, Ios(reqs)[n]);
      PiecesFit(d, io, CutsOf(reqs[n]));
      WholeAllAppend(d, RequestPieces(reqs[..n]), Pieces(io, CutsOf(reqs[n])));
      PiecesAreWhole(WholeAll(d, RequestPieces(reqs[..n])), io, CutsOf(reqs[n]));
    }
  }

  /** Commands that make independent transfers, submitted to a drained pair: once everything is
      answered, in whatever order, every completion reported success, and the data is that of the
      assignments. */
  lemma DrainedIndependent(base: Data, epoch: nat, log: seq<Command>, s: State, data: Data, ios: seq<Io>)
    requires Inv(s) && Served(base, epoch, log, s, data) && Drained(s) && epoch <= |s.submitted|
    requires AllFit(base, ios) && Pairwise(ios) && MakesEach(base, s.submitted[epoch..], ios)
    ensures data == WholeAll(base, ios)
    ensures |s.posted| == |s.submitted| && forall j :: epoch <= j < |s.posted| ==> StatusField(s.posted[j]) == SUCCESS
  {
    hide Parts, Pairwise, MakesEach, WholeAll, ExecAll, Exec, StatusField, Whole;
    var cmds := s.submitted[epoch..];
    SameNumber(base, cmds, ios);
    var order := DrainedOrder(base, epoch, log, s, data);
    CommandOrder(base, cmds, ios, order);
    DrainedWork(s);
    forall j | epoch <= j < |s.posted|
      ensures StatusField(s.posted[j]) == SUCCESS
    {
      var k := DrainedStatus(base, epoch, log, s, data, j);
      assert log[..k] == Pick(cmds, order[..k]);
      CommandsEffect(base, cmds, ios, order[..k]);
      ShapeOf(base, ExecAll(base, log[..k]), ios, Chosen(order[..k]));
      OneMakes(base, cmds, ios, order[k]);
      ExecWhole(base, ExecAll(base, log[..k]), log[k], ios[order[k]]);
    }
  }

  /** Several buffers submitted to a drained pair, all under way at once, with blocks and memory
      apart: once everything is answered, every completion reported success, and the data is that of
      the assignments of all the buffers, which can be made in any order (see AssignmentOrder). */
  lemma ManyTransfersDone(base: Data, epoch: nat, log: seq<Command>, s: State, data: Data, id: nat, reqs: seq<Request>)
    requires Inv(s) && Served(base, epoch, log, s, data) && Drained(s) && epoch <= |s.submitted|
    requires s.submitted[epoch..] == RequestCommands(id, epoch, s.len, reqs)
    requires Pairwise(Ios(reqs)) && forall i :: 0 <= i < |reqs| ==> Usable(base, reqs[i])
    ensures AllFit(base, Ios(reqs)) && data == WholeAll(base, Ios(reqs))
    ensures |s.posted| == |s.submitted| && forall j :: epoch <= j < |s.posted| ==> StatusField(s.posted[j]) == SUCCESS
  {
    hide Parts, Pairwise, MakesEach, Usable, WholeAll, RequestCommands, RequestPieces, StatusField, IoOf;
    UsableFit(base, reqs);
    RequestsMake(base, id, epoch, s.len, reqs);
    RequestPiecesPairwise(reqs);
    RequestPiecesWhole(base, reqs);
    DrainedIndependent(base, epoch, log, s, data, RequestPieces(reqs));
  }

  lemma SameNumber(d: Data, cmds: seq<Command>, ios: seq<Io>)
    requires MakesEach(d, cmds, ios)
    ensures |cmds| == |ios|
  {
    hide Moves;
  }

  lemma OneMakes(d: Data, cmds: seq<Command>, ios: seq<Io>, i: nat)
    requires MakesEach(d, cmds, ios) && AllFit(d, ios) && i < |cmds|
    ensures i < |ios| && Moves(d, cmds[i], ios[i], 0, ios[i].total) && Fits(d, ios[i])
  {
    hide Moves;
  }

  lemma UsableFit(d: Data, reqs: seq<Request>)
    requires forall i :: 0 <= i < |reqs| ==> Usable(d, reqs[i])
    ensures AllFit(d, Ios(reqs))
  {
    hide Apart, RoundUp, BlockCount, IoOf;
  }

  lemma RequestStep(id: nat, start: nat, len: nat, reqs: seq<Request>, i: nat)
    requires len > 0 && i < |reqs|
    ensures var earlier := RequestCommands(id, start, len, reqs[..i]);
      && RequestCommands(id, start, len, reqs[..i + 1])
         == earlier + PairCommands(id, start + |earlier|, len, reqs[i].dma, reqs[i].lba, reqs[i].write)
  {
    hide PairCommands;
    var some := reqs[..i + 1];
    assert some[..i] == reqs[..i] && some[i] == reqs[i];
  }

  lemma {:induction false} RequestPrefix(id: nat, start: nat, len: nat, reqs: seq<Request>, i: nat)
    requires len > 0 && i <= |reqs|
    ensures |RequestCommands(id, start, len, reqs[..i])| <= |RequestCommands(id, start, len, reqs)|
    decreases |reqs| - i
  {
    hide RequestCommands, PairCommands;
    if i == |reqs| {
      assert reqs[..i] == reqs;
    } else {
      RequestStep(id, start, len, reqs, i);
      RequestPrefix(id, start, len, reqs, i + 1);
    }
  }

  /** The state of the client after i calls. */
  ghost predicate SentSome(before: State, s: State, id: nat, reqs: seq<Request>, i: nat)
    requires before.len > 0 && i <= |reqs|
  {
    && s.len == before.len && s.consumed == before.consumed
    && s.submitted == before.submitted + RequestCommands(id, |before.submitted|, before.len, reqs[..i])
  }

  lemma SentNone(s: State, id: nat, reqs: seq<Request>)
    requires s.len > 0
    ensures SentSome(s, s, id, reqs, 0)
  {
    assert reqs[..0] == [];
  }

  method SubmitNext(qpair: NvmeQueuePair, reqs: seq<Request>, i: nat, ghost before: State) returns (n: nat)
    requires qpair.Valid() && Drained(before) && before.len > 0 && i < |reqs|
    requires SentSome(before, qpair.peer.st, qpair.id, reqs, i)
    requires |RequestCommands(qpair.id, |before.submitted|, before.len, reqs)| < before.len
    modifies qpair.Repr()
    ensures qpair.Valid() && SentSome(before, qpair.peer.st, qpair.id, reqs, i + 1)
    ensures n == |qpair.peer.st.submitted| - |old(qpair.peer.st.submitted)|
    ensures qpair.peer.base == old(qpair.peer.base) && qpair.peer.epoch == old(qpair.peer.epoch)
  {
    hide Inv, PairCommands, RequestCommands, NvmeQueuePair.Valid, Room;
    RequestStep(qpair.id, |before.submitted|, before.len, reqs, i);
    RequestPrefix(qpair.id, |before.submitted|, before.len, reqs, i + 1);
    RoomForRest(qpair);
    n := qpair.SubmitIo(reqs[i].dma, reqs[i].lba, reqs[i].write);
  }

  lemma RoomForRest(qpair: NvmeQueuePair)
    requires qpair.Valid()
    ensures qpair.sub.len == qpair.peer.st.len >= 2
    ensures qpair.peer.st.len - 1 - Outstanding(qpair.peer.st) <= Room(qpair.peer.st)
    ensures Drained(qpair.peer.st) ==> qpair.sub.IsEmpty()
  {
    hide Parts, Slot, Phase, Served, Run;
    RoomBound(qpair.peer.st);
  }

  lemma Account(qpair: NvmeQueuePair)
    requires qpair.Valid()
    ensures Inv(qpair.peer.st) && qpair.peer.st.consumed <= |qpair.peer.st.posted|
    ensures Served(qpair.peer.base, qpair.peer.epoch, qpair.peer.log, qpair.peer.st, qpair.peer.data)
  {
    hide Parts, Slot, Phase, Served, Run;
    qpair.TakenBound(qpair.peer.st);
  }

  /** A client that submits all of them and then waits for all of them at once. */
  method TransferAll(qpair: NvmeQueuePair, reqs: seq<Request>) returns (ok: bool)
    requires qpair.Valid() && Drained(qpair.peer.st) && qpair.peer.st.len > 0
    requires |RequestCommands(qpair.id, |qpair.peer.st.submitted|, qpair.peer.st.len, reqs)| < qpair.peer.st.len
    requires Pairwise(Ios(reqs)) && forall i :: 0 <= i < |reqs| ==> Usable(qpair.peer.data, reqs[i])
    modifies qpair.Repr()
    ensures qpair.Valid() && Drained(qpair.peer.st) && qpair.sub.IsEmpty() && ok
    ensures AllFit(old(qpair.peer.data), Ios(reqs)) && qpair.peer.data == WholeAll(old(qpair.peer.data), Ios(reqs))
  {
    hide Inv, Usable, Pairwise, RequestCommands, WholeAll, Ios, NvmeQueuePair.Valid, Room, StatusField, SentSome,
         Served;
    ghost var base := qpair.peer.data;
    Rebase(qpair);
    ghost var before := qpair.peer.st;
    SentNone(before, qpair.id, reqs);
    var total, i := 0, 0;
    while i < |reqs|
      invariant i <= |reqs| && qpair.Valid() && SentSome(before, qpair.peer.st, qpair.id, reqs, i)
      invariant total == |qpair.peer.st.submitted| - |before.submitted|
      invariant qpair.peer.base == base && qpair.peer.epoch == |before.submitted|
    {
      var n := SubmitNext(qpair, reqs, i, before);
      total, i := total + n, i + 1;
    }
    SentAll(before, qpair.peer.st, qpair.id, reqs);
    ok := true;
    if total > 0 {
      var r := qpair.CompleteIo(total);
      ok := r != None;
    }
    Account(qpair);
    RoomForRest(qpair);
    ManyTransfersDone(base, |before.submitted|, qpair.peer.log, qpair.peer.st, qpair.peer.data, qpair.id, reqs);
  }

  lemma SentAll(before: State, s: State, id: nat, reqs: seq<Request>)
    requires before.len > 0 && Drained(before) && SentSome(before, s, id, reqs, |reqs|)
    ensures s.submitted == before.submitted + RequestCommands(id, |before.submitted|, before.len, reqs)
    ensures s.len == before.len && s.consumed == |before.submitted|
  {
    assert reqs[..|reqs|] == reqs;
  }

  method Rebase(qpair: NvmeQueuePair)
    requires qpair.Valid() && Drained(qpair.peer.st)
    modifies qpair.peer
    ensures qpair.Valid() && qpair.peer.st == old(qpair.peer.st)
    ensures qpair.peer.data == qpair.peer.base == old(qpair.peer.data)
    ensures qpair.peer.epoch == |qpair.peer.st.submitted|
  {
    hide Parts, Run, Served;
    qpair.peer.HostUpdate(qpair.peer.data);
  }
}
