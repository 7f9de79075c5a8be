/** What a controller does with a read or write command: it expands the two PRP fields
    (section 4.3 of NVM Express 1.4) into memory segments and copies between them and the
    disk. The disk and the host's DMA memory are byte sequences; the PRP list page, which
    the driver allocates separately, is a sequence of entries at `listPhys`. */
module Transfers {
  import opened Commands

  type Byte = bv8

  const BLOCK: nat := 512
  const PAGE: nat := 4096
  const DWORD: nat := 4

  datatype Data = Data(disk: seq<Byte>, mem: seq<Byte>, listPhys: nat, list: seq<nat>)

  datatype Segment = Segment(addr: nat, len: nat)

  datatype Expansion = Fault | Segments(segs: seq<Segment>)

  const DATA_TRANSFER_ERROR := 0x04
  const LBA_OUT_OF_RANGE := 0x80

  // ---------------------------------------------------------------- splicing

  /** s with t written over it from position `at`. */
  function Splice(s: seq<Byte>, at: nat, t: seq<Byte>): (r: seq<Byte>)
    requires at + |t| <= |s|
    ensures |r| == |s|
    ensures forall k :: 0 <= k < |s| ==> r[k] == if at <= k < at + |t| then t[k - at] else s[k]
  {
    s[..at] + t + s[at + |t|..]
  }

  // ---------------------------------------------------------------- PRP expansion

  /** The list entry the controller reads at bus address p, if p is an entry of the list page. */
  function ListEntry(d: Data, p: nat): Expansion {
    if d.listPhys <= p && (p - d.listPhys) % 8 == 0 && (p - d.listPhys) / 8 < |d.list|
    then Segments([Segment(d.list[(p - d.listPhys) / 8], PAGE)]) else Fault
  }

  /** The rest of a transfer described by the list at p: one page-aligned entry for each page.
      The last entry of the page would have to be a pointer to a further list if more follow;
      chained lists are not followed. */
  function ListSegments(d: Data, p: nat, rest: nat): Expansion
    decreases rest
  {
    if rest == 0 then Segments([])
    else
      match ListEntry(d, p)
      case Fault => Fault
      case Segments(e) =>
        if e[0].addr % PAGE != 0 || (rest > PAGE && (p - d.listPhys) / 8 + 1 == |d.list|) then Fault
        else
          var len := if rest <= PAGE then rest else PAGE;
          match ListSegments(d, p + 8, rest - len)
          case Fault => Fault
          case Segments(more) => Segments([Segment(e[0].addr, len)] + more)
  }

  /** PRP1 may start inside a page, but at a multiple of four; PRP2 is unused, a page-aligned entry,
      or a list pointer, depending on how many further pages the transfer needs. */
  function Expand(d: Data, ptr0: nat, ptr1: nat, bytes: nat): Expansion {
    var first := PAGE - ptr0 % PAGE;
    if ptr0 % DWORD != 0 then Fault
    else if bytes <= first then Segments([Segment(ptr0, bytes)])
    else if bytes - first <= PAGE then
      if ptr1 % PAGE == 0 then Segments([Segment(ptr0, first), Segment(ptr1, bytes - first)]) else Fault
    else
      match ListSegments(d, ptr1, bytes - first)
      case Fault => Fault
      case Segments(more) => Segments([Segment(ptr0, first)] + more)
  }

  /** The segments are the `bytes` bytes at addr, in order and without a gap. */
  predicate Contiguous(segs: seq<Segment>, addr: nat, bytes: nat) {
    if segs == [] then bytes == 0
    else segs[0].addr == addr && 0 < segs[0].len <= bytes
         && Contiguous(segs[1..], addr + segs[0].len, bytes - segs[0].len)
  }

  /** The PRP fields describe exactly the buffer at addr. */
  predicate Describes(d: Data, ptr0: nat, ptr1: nat, addr: nat, bytes: nat) {
    var e := Expand(d, ptr0, ptr1, bytes);
    e.Segments? && Contiguous(e.segs, addr, bytes)
  }

  // ---------------------------------------------------------------- execution

  predicate InMemory(mem: seq<Byte>, segs: seq<Segment>) {
    forall k :: 0 <= k < |segs| ==> segs[k].addr + segs[k].len <= |mem|
  }

  function Total(segs: seq<Segment>): nat {
    if segs == [] then 0 else segs[0].len + Total(segs[1..])
  }

  function Gather(mem: seq<Byte>, segs: seq<Segment>): (r: seq<Byte>)
    requires InMemory(mem, segs)
    ensures |r| == Total(segs)
  {
    if segs == [] then []
    else mem[segs[0].addr..segs[0].addr + segs[0].len] + Gather(mem, segs[1..])
  }

  function Scatter(mem: seq<Byte>, segs: seq<Segment>, bytes: seq<Byte>): (r: seq<Byte>)
    requires InMemory(mem, segs) && |bytes| == Total(segs)
    ensures |r| == |mem|
    decreases segs
  {
    if segs == [] then mem
    else Scatter(Splice(mem, segs[0].addr, bytes[..segs[0].len]), segs[1..], bytes[segs[0].len..])
  }

  datatype Outcome = Outcome(data: Data, status: nat)

  /** Executes one command. A command that is refused changes nothing. */
  function Exec(d: Data, c: Command): Outcome {
    var bytes := Blocks(c) * BLOCK;
    var at := Lba(c) * BLOCK;
    var e := Expand(d, c.ptr0, c.ptr1, bytes);
    if c.opcode != OP_WRITE && c.opcode != OP_READ then Outcome(d, INVALID_OPCODE)
    else if at + bytes > |d.disk| then Outcome(d, LBA_OUT_OF_RANGE)
    else if e.Fault? || !InMemory(d.mem, e.segs) || Total(e.segs) != bytes then Outcome(d, DATA_TRANSFER_ERROR)
    else if c.opcode == OP_WRITE then Outcome(d.(disk := Splice(d.disk, at, Gather(d.mem, e.segs))), SUCCESS)
    else Outcome(d.(mem := Scatter(d.mem, e.segs, d.disk[at..at + bytes])), SUCCESS)
  }

  lemma {:induction false} ContiguousSegments(mem: seq<Byte>, segs: seq<Segment>, addr: nat, bytes: nat)
    requires Contiguous(segs, addr, bytes)
    ensures Total(segs) == bytes
    ensures InMemory(mem, segs) <==> addr + bytes <= |mem| || segs == []
  {
    if segs != [] {
      var n := segs[0].len;
      ContiguousSegments(mem, segs[1..], addr + n, bytes - n);
      assert InMemory(mem, segs) <==> segs[0].addr + n <= |mem| && InMemory(mem, segs[1..]) by {
        assert forall k :: 0 < k < |segs| ==> segs[k] == segs[1..][k - 1];
        assert forall k :: 0 <= k < |segs[1..]| ==> segs[1..][k] == segs[k + 1];
      }
      if segs[1..] == [] {
        assert bytes == n;
      }
    }
  }

  lemma RestInMemory(mem: seq<Byte>, segs: seq<Segment>)
    requires segs != [] && InMemory(mem, segs)
    ensures segs[0].addr + segs[0].len <= |mem| && InMemory(mem, segs[1..])
  {
    forall k | 0 <= k < |segs[1..]|
      ensures segs[1..][k].addr + segs[1..][k].len <= |mem|
    {
      assert segs[1..][k] == segs[k + 1];
    }
  }

  lemma JoinSlices(mem: seq<Byte>, addr: nat, n: nat, bytes: nat)
    requires n <= bytes && addr + bytes <= |mem|
    ensures mem[addr..addr + n] + mem[addr + n..addr + bytes] == mem[addr..addr + bytes]
  {
  }

  lemma ContiguousNext(segs: seq<Segment>, addr: nat, bytes: nat)
    requires segs != [] && Contiguous(segs, addr, bytes)
    ensures segs[0].addr == addr && 0 < segs[0].len <= bytes
    ensures Contiguous(segs[1..], addr + segs[0].len, bytes - segs[0].len)
  {
  }

  lemma GatherNext(mem: seq<Byte>, segs: seq<Segment>)
    requires segs != [] && InMemory(mem, segs)
    ensures segs[0].addr + segs[0].len <= |mem| && InMemory(mem, segs[1..])
    ensures Gather(mem, segs) == mem[segs[0].addr..segs[0].addr + segs[0].len] + Gather(mem, segs[1..])
  {
    RestInMemory(mem, segs);
  }

  lemma GatherNothing(mem: seq<Byte>, addr: nat, bytes: nat)
    requires Contiguous([], addr, bytes) && addr + bytes <= |mem|
    ensures Gather(mem, []) == mem[addr..addr + bytes]
  {
  }

  lemma {:induction false} GatherContiguous(mem: seq<Byte>, segs: seq<Segment>, addr: nat, bytes: nat)
    requires Contiguous(segs, addr, bytes) && InMemory(mem, segs) && addr + bytes <= |mem|
    ensures Gather(mem, segs) == mem[addr..addr + bytes]
  {
    hide Contiguous, InMemory, Gather;
    if segs == [] {
      GatherNothing(mem, addr, bytes);
    } else {
      ContiguousNext(segs, addr, bytes);
      GatherNext(mem, segs);
      var n := segs[0].len;
      var next, rest := addr + n, bytes - n;
      GatherContiguous(mem, segs[1..], next, rest);
      assert next + rest == addr + bytes;
      JoinSlices(mem, addr, n, bytes);
    }
  }

  lemma {:induction false} ScatterContiguous(mem: seq<Byte>, segs: seq<Segment>, bytes: seq<Byte>, addr: nat)
    requires Contiguous(segs, addr, |bytes|) && InMemory(mem, segs) && addr + |bytes| <= |mem| && |bytes| == Total(segs)
    ensures Scatter(mem, segs, bytes) == Splice(mem, addr, bytes)
    decreases segs
  {
    if segs == [] {
      assert Splice(mem, addr, bytes) == mem;
    } else {
      var n := segs[0].len;
      var mem' := Splice(mem, addr, bytes[..n]);
      assert InMemory(mem', segs[1..]);
      ScatterContiguous(mem', segs[1..], bytes[n..], addr + n);
      assert Splice(mem', addr + n, bytes[n..]) == Splice(mem, addr, bytes);
    }
  }

  /** What the controller does when the fields describe one buffer: it succeeds exactly when
      the blocks exist, and then moves exactly those bytes. */
  lemma ExecTransfer(d: Data, c: Command, addr: nat)
    requires c.opcode == OP_WRITE || c.opcode == OP_READ
    requires Describes(d, c.ptr0, c.ptr1, addr, Blocks(c) * BLOCK) && addr + Blocks(c) * BLOCK <= |d.mem|
    ensures var bytes, at := Blocks(c) * BLOCK, Lba(c) * BLOCK;
      && (Exec(d, c).status == SUCCESS <==> at + bytes <= |d.disk|)
      && (Exec(d, c).status != SUCCESS ==> Exec(d, c).data == d)
      && (at + bytes <= |d.disk| ==>
           Exec(d, c).data == (if c.opcode == OP_WRITE then d.(disk := Splice(d.disk, at, d.mem[addr..addr + bytes]))
                               else d.(mem := Splice(d.mem, addr, d.disk[at..at + bytes]))))
  {
    hide Expand, Contiguous, Gather, Scatter, Splice;
    var bytes, at := Blocks(c) * BLOCK, Lba(c) * BLOCK;
    var segs := Expand(d, c.ptr0, c.ptr1, bytes).segs;
    ContiguousSegments(d.mem, segs, addr, bytes);
    if at + bytes <= |d.disk| {
      if c.opcode == OP_WRITE {
        GatherContiguous(d.mem, segs, addr, bytes);
      } else {
        ScatterContiguous(d.mem, segs, d.disk[at..at + bytes], addr);
      }
    }
  }

  // ---------------------------------------------------------------- what a command leaves alone

  /** Whatever its fields describe, a write changes no more than its own blocks and a read no more
      than memory. */
  lemma ExecFrame(d: Data, c: Command)
    ensures var e := Exec(d, c).data;
      && e.list == d.list && e.listPhys == d.listPhys && |e.mem| == |d.mem| && |e.disk| == |d.disk|
      && (c.opcode == OP_WRITE ==> e.mem == d.mem) && (c.opcode != OP_WRITE ==> e.disk == d.disk)
      && forall k :: 0 <= k < |d.disk| && !(Lba(c) * BLOCK <= k < Lba(c) * BLOCK + Blocks(c) * BLOCK)
                     ==> e.disk[k] == d.disk[k]
  {
    hide Expand, Gather, Scatter, Splice;
  }

  ghost predicate Zeros(s: seq<Byte>) { forall k :: 0 <= k < |s| ==> s[k] == 0 }

  /** Zeros leave a zero, wherever they go. */
  lemma {:induction false} ScatterZeros(mem: seq<Byte>, segs: seq<Segment>, bytes: seq<Byte>, x: nat)
    requires InMemory(mem, segs) && |bytes| == Total(segs) && Zeros(bytes) && x < |mem| && mem[x] == 0
    ensures Scatter(mem, segs, bytes)[x] == 0
    decreases segs
  {
    if segs != [] {
      var n := segs[0].len;
      ScatterZeros(Splice(mem, segs[0].addr, bytes[..n]), segs[1..], bytes[n..], x);
    }
  }

  /** A read of zero blocks leaves a zero byte of memory zero. */
  lemma ReadZeros(d: Data, c: Command, x: nat)
    requires c.opcode != OP_WRITE && x < |d.mem| && d.mem[x] == 0
    requires forall k :: Lba(c) * BLOCK <= k < Lba(c) * BLOCK + Blocks(c) * BLOCK && k < |d.disk| ==> d.disk[k] == 0
    ensures Exec(d, c).data.mem[x] == 0
  {
    hide Expand, Gather, Scatter, Splice;
    var bytes, at := Blocks(c) * BLOCK, Lba(c) * BLOCK;
    var e := Expand(d, c.ptr0, c.ptr1, bytes);
    if c.opcode == OP_READ && at + bytes <= |d.disk|
       && e.Segments? && InMemory(d.mem, e.segs) && Total(e.segs) == bytes {
      ScatterZeros(d.mem, e.segs, d.disk[at..at + bytes], x);
    }
  }

  lemma {:induction false} GatherZeros(mem: seq<Byte>, segs: seq<Segment>)
    requires InMemory(mem, segs) && Zeros(mem)
    ensures Zeros(Gather(mem, segs))
  {
    if segs != [] {
      RestInMemory(mem, segs);
      GatherZeros(mem, segs[1..]);
    }
  }

  /** A write from memory of zeros leaves a disk of zeros. */
  lemma WriteZeros(d: Data, c: Command)
    requires c.opcode == OP_WRITE && Zeros(d.mem) && Zeros(d.disk)
    ensures Zeros(Exec(d, c).data.disk)
  {
    hide Expand, Gather, Scatter;
    var e := Expand(d, c.ptr0, c.ptr1, Blocks(c) * BLOCK);
    if e.Segments? && InMemory(d.mem, e.segs) {
      GatherZeros(d.mem, e.segs);
    }
  }

  /** The fields are refused, or send the first byte behind the first `first` ones elsewhere. */
  ghost predicate Misses(d: Data, ptr0: nat, ptr1: nat, bytes: nat, first: nat) {
    var e := Expand(d, ptr0, ptr1, bytes);
    && 0 < first < bytes
    && (e.Segments? ==>
          && |e.segs| >= 2 && e.segs[0] == Segment(ptr0, first)
          && e.segs[1].len > 0 && e.segs[1].addr != ptr0 + first)
  }

  lemma GatherSecond(mem: seq<Byte>, segs: seq<Segment>)
    requires InMemory(mem, segs) && |segs| >= 2 && segs[1].len > 0
    ensures var first := segs[0].len;
      first < |Gather(mem, segs)| && Gather(mem, segs)[first] == mem[segs[1].addr]
  {
    assert segs[1..][0] == segs[1];
    assert InMemory(mem, segs[1..]);
  }

  /** A one behind the first segment goes to the second and nowhere else. */
  lemma ScatterSecond(mem: seq<Byte>, segs: seq<Segment>, bytes: seq<Byte>, x: nat)
    requires InMemory(mem, segs) && |bytes| == Total(segs) && |segs| >= 2 && segs[1].len > 0
    requires x < |mem| && mem[x] == 0 && x != segs[1].addr
    requires forall k :: 0 <= k < |bytes| && k != segs[0].len ==> bytes[k] == 0
    ensures Scatter(mem, segs, bytes)[x] == 0
  {
    var first := segs[0].len;
    var mem1 := Splice(mem, segs[0].addr, bytes[..first]);
    var rest := segs[1..];
    var bytes1 := bytes[first..];
    assert rest[0] == segs[1] && InMemory(mem1, rest);
    assert mem1[x] == 0;
    var mem2 := Splice(mem1, rest[0].addr, bytes1[..rest[0].len]);
    assert mem2[x] == 0;
    assert InMemory(mem2, rest[1..]);
    ScatterZeros(mem2, rest[1..], bytes1[rest[0].len..], x);
  }

  /** A write that misses does not bring the byte that is the only one set. */
  lemma MissedWrite(d: Data, c: Command, first: nat)
    requires c.opcode == OP_WRITE && Misses(d, c.ptr0, c.ptr1, Blocks(c) * BLOCK, first)
    requires forall k :: 0 <= k < |d.mem| && k != c.ptr0 + first ==> d.mem[k] == 0
    requires Lba(c) * BLOCK + first < |d.disk| && d.disk[Lba(c) * BLOCK + first] == 0
    ensures Exec(d, c).data.disk[Lba(c) * BLOCK + first] == 0
  {
    hide Expand, Gather, Scatter;
    var e := Expand(d, c.ptr0, c.ptr1, Blocks(c) * BLOCK);
    if e.Segments? && InMemory(d.mem, e.segs) {
      GatherSecond(d.mem, e.segs);
    }
  }

  /** A read that misses does not bring it either. */
  lemma MissedRead(d: Data, c: Command, first: nat)
    requires c.opcode == OP_READ && Misses(d, c.ptr0, c.ptr1, Blocks(c) * BLOCK, first)
    requires forall k :: 0 <= k < |d.disk| && k != Lba(c) * BLOCK + first ==> d.disk[k] == 0
    requires c.ptr0 + first < |d.mem| && d.mem[c.ptr0 + first] == 0
    ensures Exec(d, c).data.mem[c.ptr0 + first] == 0
  {
    hide Expand, Gather, Scatter, Total;
    var bytes, at := Blocks(c) * BLOCK, Lba(c) * BLOCK;
    var e := Expand(d, c.ptr0, c.ptr1, bytes);
    if at + bytes <= |d.disk| && e.Segments? && InMemory(d.mem, e.segs) && Total(e.segs) == bytes {
      ScatterSecond(d.mem, e.segs, d.disk[at..at + bytes], c.ptr0 + first);
    }
  }
}
