/** One buffer moved by several commands: the pieces are disjoint on the disk and in memory,
    so the order in which the controller executes them does not matter. */
module Layout {
  import opened Commands
  import opened Transfers

  /** A transfer between `total` bytes of memory at phys and the disk from byte `at`. */
  datatype Io = Io(write: bool, at: nat, phys: nat, total: nat)

  /** Cut positions: piece i is the bytes from cuts[i] up to cuts[i + 1]. */
  ghost predicate Tiling(cuts: seq<nat>, total: nat) {
    && cuts != [] && cuts[0] == 0 && cuts[|cuts| - 1] == total
    && forall i, j :: 0 <= i < j < |cuts| ==> cuts[i] < cuts[j]
  }

  /** Command c moves the bytes of io from `from` up to `to`. */
  ghost predicate Moves(d: Data, c: Command, io: Io, from: nat, to: nat) {
    && from < to
    && (c.opcode == if io.write then OP_WRITE else OP_READ)
    && Lba(c) * BLOCK == io.at + from && Blocks(c) * BLOCK == to - from
    && Describes(d, c.ptr0, c.ptr1, io.phys + from, to - from)
  }

  ghost predicate MovesAll(d: Data, cmds: seq<Command>, io: Io, cuts: seq<nat>) {
    && Tiling(cuts, io.total) && |cuts| == |cmds| + 1
    && forall i :: 0 <= i < |cmds| ==> Moves(d, cmds[i], io, cuts[i], cuts[i + 1])
  }

  predicate Fits(d: Data, io: Io) {
    io.at + io.total <= |d.disk| && io.phys + io.total <= |d.mem|
  }

  /** The whole transfer as one assignment. */
  function Whole(d: Data, io: Io): (r: Data)
    requires Fits(d, io)
  {
    if io.write then d.(disk := Splice(d.disk, io.at, d.mem[io.phys..io.phys + io.total]))
    else d.(mem := Splice(d.mem, io.phys, d.disk[io.at..io.at + io.total]))
  }

  function ExecAll(d: Data, cmds: seq<Command>): Data {
    if cmds == [] then d
    else Exec(ExecAll(d, cmds[..|cmds| - 1]), cmds[|cmds| - 1]).data
  }

  lemma ExecAllAppend(d: Data, cmds: seq<Command>, c: Command)
    ensures ExecAll(d, cmds + [c]) == Exec(ExecAll(d, cmds), c).data
  {
    assert (cmds + [c])[..|cmds|] == cmds;
  }

  /** No command touches the list page or changes the size of the disk or the memory. */
  lemma {:induction false} ExecAllKeeps(d: Data, cmds: seq<Command>)
    ensures var e := ExecAll(d, cmds);
      e.list == d.list && e.listPhys == d.listPhys && |e.mem| == |d.mem| && |e.disk| == |d.disk|
  {
    hide Expand, Gather, Splice, Scatter;
    if cmds != [] {
      ExecAllKeeps(d, cmds[..|cmds| - 1]);
    }
  }

  function Pick<T>(xs: seq<T>, order: seq<nat>): (r: seq<T>)
    requires forall k :: 0 <= k < |order| ==> order[k] < |xs|
    ensures |r| == |order| && forall k :: 0 <= k < |r| ==> r[k] == xs[order[k]]
  {
    seq(|order|, k requires 0 <= k < |order| => xs[order[k]])
  }

  // ---------------------------------------------------------------- partial progress

  predicate InPiece(cuts: seq<nat>, i: nat, k: nat) {
    i + 1 < |cuts| && cuts[i] <= k < cuts[i + 1]
  }

  lemma PieceBounds(cuts: seq<nat>, i: nat, k: nat)
    requires cuts != [] && Tiling(cuts, cuts[|cuts| - 1]) && InPiece(cuts, i, k)
    ensures k < cuts[|cuts| - 1]
  {
    assert i + 1 < |cuts| - 1 ==> cuts[i + 1] < cuts[|cuts| - 1];
  }

  /** The target after the pieces in `done`: those hold the source's bytes, all else is old. */
  ghost predicate Spliced(old_: seq<Byte>, new_: seq<Byte>, at: nat, src: seq<Byte>, from: nat, cuts: seq<nat>,
                          done: set<nat>)
    requires cuts != [] && Tiling(cuts, cuts[|cuts| - 1])
    requires at + cuts[|cuts| - 1] <= |old_| && from + cuts[|cuts| - 1] <= |src|
  {
    && |new_| == |old_|
    && (forall k :: 0 <= k < at || at + cuts[|cuts| - 1] <= k < |old_| ==> new_[k] == old_[k])
    && (forall i, k :: InPiece(cuts, i, k) ==>
         at + k < |new_| && at + k < |old_| && from + k < |src| &&
         new_[at + k] == if i in done then src[from + k] else old_[at + k])
  }

  /** Writing one more piece, in whatever order. */
  lemma SplicePiece(old_: seq<Byte>, new_: seq<Byte>, at: nat, src: seq<Byte>, from: nat, cuts: seq<nat>,
                    done: set<nat>, i: nat)
    requires cuts != [] && Tiling(cuts, cuts[|cuts| - 1])
    requires at + cuts[|cuts| - 1] <= |old_| && from + cuts[|cuts| - 1] <= |src|
    requires Spliced(old_, new_, at, src, from, cuts, done) && i < |cuts| - 1
    ensures cuts[i] < cuts[i + 1] <= cuts[|cuts| - 1]
    ensures Spliced(old_, Splice(new_, at + cuts[i], src[from + cuts[i]..from + cuts[i + 1]]), at, src, from, cuts,
                    done + {i})
  {
    var last := |cuts| - 1;
    assert cuts[i + 1] <= cuts[last];
    var r := Splice(new_, at + cuts[i], src[from + cuts[i]..from + cuts[i + 1]]);
    forall j: nat, k: nat | InPiece(cuts, j, k)
      ensures at + k < |r| && r[at + k] == if j in done + {i} then src[from + k] else old_[at + k]
    {
      PieceBounds(cuts, j, k);
      if j < i {
        assert cuts[j + 1] <= cuts[i];
      } else if i < j {
        assert cuts[i + 1] <= cuts[j];
      }
    }
  }

  lemma {:induction false} PieceOf(cuts: seq<nat>, k: nat) returns (i: nat)
    requires cuts != [] && Tiling(cuts, cuts[|cuts| - 1]) && k < cuts[|cuts| - 1]
    ensures i < |cuts| - 1 && cuts[i] <= k < cuts[i + 1]
  {
    i := 0;
    while cuts[i + 1] <= k
      invariant i < |cuts| - 1 && cuts[i] <= k
      decreases |cuts| - i
    {
      i := i + 1;
    }
  }

  /** When every piece is written, the target is one splice. */
  lemma SplicedAll(old_: seq<Byte>, new_: seq<Byte>, at: nat, src: seq<Byte>, from: nat, cuts: seq<nat>, done: set<nat>)
    requires cuts != [] && Tiling(cuts, cuts[|cuts| - 1])
    requires at + cuts[|cuts| - 1] <= |old_| && from + cuts[|cuts| - 1] <= |src|
    requires Spliced(old_, new_, at, src, from, cuts, done) && forall i :: 0 <= i < |cuts| - 1 ==> i in done
    ensures new_ == Splice(old_, at, src[from..from + cuts[|cuts| - 1]])
  {
    var total := cuts[|cuts| - 1];
    var r := Splice(old_, at, src[from..from + total]);
    forall k | 0 <= k < |old_|
      ensures new_[k] == r[k]
    {
      if at <= k < at + total {
        var i := PieceOf(cuts, k - at);
        assert InPiece(cuts, i, k - at);
        assert new_[at + (k - at)] == src[from + (k - at)];
      }
    }
  }

  /** d is d0 after the commands in `done`. */
  ghost predicate Partly(d0: Data, d: Data, io: Io, cuts: seq<nat>, done: set<nat>)
    requires Fits(d0, io) && Tiling(cuts, io.total)
  {
    && d.list == d0.list && d.listPhys == d0.listPhys
    && if io.write then d.mem == d0.mem && Spliced(d0.disk, d.disk, io.at, d0.mem, io.phys, cuts, done)
       else d.disk == d0.disk && Spliced(d0.mem, d.mem, io.phys, d0.disk, io.at, cuts, done)
  }

  lemma ExecPiece(d0: Data, d: Data, cmds: seq<Command>, io: Io, cuts: seq<nat>, done: set<nat>, i: nat)
    requires Fits(d0, io) && MovesAll(d0, cmds, io, cuts) && Partly(d0, d, io, cuts, done) && i < |cmds|
    ensures Exec(d, cmds[i]).status == SUCCESS
    ensures Partly(d0, Exec(d, cmds[i]).data, io, cuts, done + {i})
  {
    hide Expand, Contiguous, Splice, Spliced;
    var c := cmds[i];
    assert Moves(d0, c, io, cuts[i], cuts[i + 1]);
    SameList(d0, d, c.ptr0, c.ptr1, io.phys + cuts[i], cuts[i + 1] - cuts[i]);
    assert cuts[i + 1] <= io.total;
    Lengths(d0, d, io, cuts, done);
    ExecTransfer(d, c, io.phys + cuts[i]);
    if io.write {
      SplicePiece(d0.disk, d.disk, io.at, d0.mem, io.phys, cuts, done, i);
    } else {
      SplicePiece(d0.mem, d.mem, io.phys, d0.disk, io.at, cuts, done, i);
    }
  }

  lemma Lengths(d0: Data, d: Data, io: Io, cuts: seq<nat>, done: set<nat>)
    requires Fits(d0, io) && Tiling(cuts, io.total) && Partly(d0, d, io, cuts, done)
    ensures |d.disk| == |d0.disk| && |d.mem| == |d0.mem|
  {
  }

  /** Expansion reads the list page only. */
  lemma SameList(d: Data, d': Data, ptr0: nat, ptr1: nat, addr: nat, bytes: nat)
    requires d.list == d'.list && d.listPhys == d'.listPhys
    ensures Describes(d, ptr0, ptr1, addr, bytes) == Describes(d', ptr0, ptr1, addr, bytes)
  {
    var first := PAGE - ptr0 % PAGE;
    if bytes > first {
      SameSegments(d, d', ptr1, bytes - first);
    }
  }

  lemma {:induction false} SameSegments(d: Data, d': Data, p: nat, rest: nat)
    requires d.list == d'.list && d.listPhys == d'.listPhys
    ensures ListSegments(d, p, rest) == ListSegments(d', p, rest)
    decreases rest
  {
    if rest > 0 {
      SameSegments(d, d', p + 8, rest - (if rest <= PAGE then rest else PAGE));
    }
  }

  // ---------------------------------------------------------------- one after another

  function UpTo(io: Io, n: nat): Io { io.(total := n) }

  predicate PrefixFits(d: Data, io: Io, n: nat) { n == 0 || Fits(d, UpTo(io, n)) }

  /** The first n bytes of the transfer as one assignment. */
  function Prefix(d: Data, io: Io, n: nat): Data
    requires PrefixFits(d, io, n)
  {
    if n == 0 then d else Whole(d, UpTo(io, n))
  }

  /** Executed in order, each command succeeds exactly when its blocks exist, and extends the
      transfer; a refused one changes nothing. */
  lemma ExecNext(d0: Data, io: Io, c: Command, from: nat, to: nat)
    requires Moves(d0, c, io, from, to) && PrefixFits(d0, io, from) && io.phys + to <= |d0.mem|
    ensures var o := Exec(Prefix(d0, io, from), c);
      && (o.status == SUCCESS <==> PrefixFits(d0, io, to))
      && o.data == (if PrefixFits(d0, io, to) then Prefix(d0, io, to) else Prefix(d0, io, from))
  {
    hide Describes, Exec, Splice;
    var d := Prefix(d0, io, from);
    SameList(d0, d, c.ptr0, c.ptr1, io.phys + from, to - from);
    ExecTransfer(d, c, io.phys + from);
    if io.at + to <= |d0.disk| {
      PrefixExtend(d0, io, from, to);
    }
  }

  /** The next piece of a transfer extends what there is of it. */
  lemma PrefixExtend(d0: Data, io: Io, from: nat, to: nat)
    requires from < to && Fits(d0, UpTo(io, to)) && PrefixFits(d0, io, from)
    ensures var d := Prefix(d0, io, from);
      |d.disk| == |d0.disk| && |d.mem| == |d0.mem| && Prefix(d0, io, to)
      == if io.write then d.(disk := Splice(d.disk, io.at + from, d.mem[io.phys + from..io.phys + to]))
         else d.(mem := Splice(d.mem, io.phys + from, d.disk[io.at + from..io.at + to]))
  {
    hide Splice, Prefix;
    PrefixIsSplice(d0, io, from);
    PrefixIsSplice(d0, io, to);
    if io.write {
      SpliceExtend(d0.disk, io.at, d0.mem, io.phys, from, to);
    } else {
      SpliceExtend(d0.mem, io.phys, d0.disk, io.at, from, to);
    }
  }

  lemma PrefixIsSplice(d: Data, io: Io, n: nat)
    requires Fits(d, UpTo(io, n))
    ensures Prefix(d, io, n) == Whole(d, UpTo(io, n))
  {
    if n == 0 {
      if io.write {
        assert Splice(d.disk, io.at, d.mem[io.phys..io.phys]) == d.disk;
      } else {
        assert Splice(d.mem, io.phys, d.disk[io.at..io.at]) == d.mem;
      }
    }
  }

  lemma SpliceExtend(old_: seq<Byte>, at: nat, src: seq<Byte>, from: nat, a: nat, b: nat)
    requires a <= b && at + b <= |old_| && from + b <= |src|
    ensures Splice(Splice(old_, at, src[from..from + a]), at + a, src[from + a..from + b])
         == Splice(old_, at, src[from..from + b])
  {
    assert src[from..from + b] == src[from..from + a] + src[from + a..from + b];
  }

  /** A read of blocks that were written, into any memory and whatever became of the source in
      between, returns exactly the bytes written; neither touches any other block or byte. */
  lemma WriteThenRead(d0: Data, d2: Data, w: Io, r: Io)
    requires w.write && !r.write && r.at == w.at && r.total == w.total && Fits(d0, w)
    requires d2.disk == Whole(d0, w).disk && Fits(d2, r)
    ensures var d3 := Whole(d2, r);
      && d3.mem[r.phys..r.phys + r.total] == d0.mem[w.phys..w.phys + w.total]
      && (forall k :: 0 <= k < |d0.disk| && !(w.at <= k < w.at + w.total) ==> d3.disk[k] == d0.disk[k])
      && (forall k :: 0 <= k < |d2.mem| && !(r.phys <= k < r.phys + r.total) ==> d3.mem[k] == d2.mem[k])
  {
    var d3 := Whole(d2, r);
    var got, sent := d3.mem[r.phys..r.phys + r.total], d0.mem[w.phys..w.phys + w.total];
    forall k | 0 <= k < r.total
      ensures got[k] == sent[k]
    {
      assert d2.disk[w.at + k] == sent[k];
      assert d3.mem[r.phys + k] == d2.disk[r.at..r.at + r.total][k];
    }
  }

  // ---------------------------------------------------------------- order independence

  function Chosen(order: seq<nat>): set<nat> { set k | 0 <= k < |order| :: order[k] }

  lemma NoneChosen()
    ensures Chosen([]) == {}
  {
  }

  lemma ChosenAppend(order: seq<nat>)
    requires order != []
    ensures Chosen(order) == Chosen(order[..|order| - 1]) + {order[|order| - 1]}
  {
    var n := |order| - 1;
    assert order == order[..n] + [order[n]];
  }

  lemma NothingDone(d0: Data, io: Io, cuts: seq<nat>)
    requires Fits(d0, io) && Tiling(cuts, io.total)
    ensures Partly(d0, d0, io, cuts, {})
  {
    forall i: nat, k: nat | InPiece(cuts, i, k)
      ensures k < io.total
    {
      PieceBounds(cuts, i, k);
    }
  }

  lemma {:induction false} ExecOrder(d0: Data, cmds: seq<Command>, io: Io, cuts: seq<nat>, order: seq<nat>)
    requires Fits(d0, io) && MovesAll(d0, cmds, io, cuts)
    requires forall k :: 0 <= k < |order| ==> order[k] < |cmds|
    ensures Partly(d0, ExecAll(d0, Pick(cmds, order)), io, cuts, Chosen(order))
  {
    hide Moves, Partly, Exec, Chosen;
    if order == [] {
      NothingDone(d0, io, cuts);
      NoneChosen();
    } else {
      var n := |order| - 1;
      ExecOrder(d0, cmds, io, cuts, order[..n]);
      var d := ExecAll(d0, Pick(cmds, order[..n]));
      ExecPiece(d0, d, cmds, io, cuts, Chosen(order[..n]), order[n]);
      assert Pick(cmds, order)[..n] == Pick(cmds, order[..n]);
      ChosenAppend(order);
    }
  }

  /** In whatever order the controller executes the commands of one transfer (each at least
      once), the outcome is the whole transfer in one assignment, and so the same as in
      submission order. */
  lemma {:induction false} OrderIndependent(d0: Data, cmds: seq<Command>, io: Io, cuts: seq<nat>, order: seq<nat>)
    requires Fits(d0, io) && MovesAll(d0, cmds, io, cuts)
    requires forall k :: 0 <= k < |order| ==> order[k] < |cmds|
    requires forall i :: 0 <= i < |cmds| ==> i in order
    ensures ExecAll(d0, Pick(cmds, order)) == ExecAll(d0, cmds) == Whole(d0, io)
  {
    hide Splice, Spliced;
    CompleteOrder(d0, cmds, io, cuts, order);
    var inOrder := seq(|cmds|, k => k);
    assert Pick(cmds, inOrder) == cmds;
    forall i | 0 <= i < |cmds|
      ensures i in inOrder
    {
      assert inOrder[i] == i;
    }
    CompleteOrder(d0, cmds, io, cuts, inOrder);
  }

  lemma CompleteOrder(d0: Data, cmds: seq<Command>, io: Io, cuts: seq<nat>, order: seq<nat>)
    requires Fits(d0, io) && MovesAll(d0, cmds, io, cuts)
    requires forall k :: 0 <= k < |order| ==> order[k] < |cmds|
    requires forall i :: 0 <= i < |cmds| ==> i in order
    ensures ExecAll(d0, Pick(cmds, order)) == Whole(d0, io)
  {
    hide Splice, Spliced;
    ExecOrder(d0, cmds, io, cuts, order);
    var d := ExecAll(d0, Pick(cmds, order));
    var done := Chosen(order);
    forall i | 0 <= i < |cmds|
      ensures i in done
    {
      assert i in order;
    }
    if io.write {
      SplicedAll(d0.disk, d.disk, io.at, d0.mem, io.phys, cuts, done);
    } else {
      SplicedAll(d0.mem, d.mem, io.phys, d0.disk, io.at, cuts, done);
    }
  }
}
