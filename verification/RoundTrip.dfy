/** The client of tests/simple_read_write.rs and examples/simple_io.rs: bytes are written, the
    buffer is cleared, and reading brings the bytes back. */
module RoundTrip {
  import opened Protocol
  import opened Transfers
  import opened Layout
  import opened Memory
  import opened ControllerModel
  import opened QueuePair
  import opened Device

  /** The client changes its buffer, between calls of the driver. */
  method Store(nvme: NvmeDevice, at: nat, bytes: seq<Byte>)
    requires nvme.Valid() && at + |bytes| <= |nvme.io.peer.data.mem|
    modifies nvme.Repr()
    ensures nvme.Valid()
    ensures nvme.io.peer.data == old(nvme.io.peer.data).(mem := Splice(old(nvme.io.peer.data.mem), at, bytes))
  {
    hide Parts, Run, Served;
    nvme.io.peer.HostUpdate(nvme.io.peer.data.(mem := Splice(nvme.io.peer.data.mem, at, bytes)));
  }

  /** For every buffer, every prefix of it and every address: the calls succeed exactly when the
      blocks exist, and then the bytes have come back, the disk holds the buffer, and no other
      block and no byte outside the buffer's blocks has changed. */
  method WriteClearRead(nvme: NvmeDevice, buffer: Dma, bytes: seq<Byte>, lba: nat) returns (ok: bool)
    requires nvme.Valid() && Reachable(nvme.io.peer.data, buffer, lba) && |bytes| <= buffer.size
    modifies nvme.Repr()
    ensures ok <==> PrefixFits(old(nvme.io.peer.data), TransferOf(buffer, lba, true), RoundUp(buffer.size))
    ensures ok ==> nvme.Valid()
    ensures ok ==> CameBack(old(nvme.io.peer.data), nvme.io.peer.data, buffer, bytes, lba)
  {
    ghost var d0 := nvme.io.peer.data;
    hide NvmeDevice.Valid, NvmeQueuePair.Valid, Inv, Transferred, RoundUp, BlockCount, PrefixFits, CameBack,
         Reachable, Prefix, Splice, TransferOf;
    BufferInMemory(d0, buffer, lba);
    Store(nvme, buffer.phys, bytes);
    ghost var d1 := nvme.io.peer.data;
    SameShape(d0, d1, buffer, lba);
    ok := nvme.Write(buffer, lba);
    ghost var d2 := nvme.io.peer.data;
    TransferredShape(d1, d2, buffer, lba, true, ok);
    if !ok {
      return;
    }
    SameShape(d1, d2, buffer, lba);
    Store(nvme, buffer.phys, seq(|bytes|, _ => 0));
    ghost var d3 := nvme.io.peer.data;
    SameShape(d2, d3, buffer, lba);
    ok := nvme.Read(buffer, lba);
    TransferredShape(d3, nvme.io.peer.data, buffer, lba, false, ok);
    BothWays(d0, d1, d2, d3, nvme.io.peer.data, buffer, bytes, lba);
  }

  lemma BufferInMemory(d: Data, buffer: Dma, lba: nat)
    requires Reachable(d, buffer, lba)
    ensures buffer.phys + buffer.size <= buffer.phys + RoundUp(buffer.size) <= |d.mem|
  {
    RoundUpLeast(buffer.size, 0);
  }

  /** Only sizes and the list matter for what a buffer can be used for. */
  lemma SameShape(d: Data, e: Data, buffer: Dma, lba: nat)
    requires |d.mem| == |e.mem| && |d.disk| == |e.disk| && d.list == e.list && d.listPhys == e.listPhys
    ensures Reachable(d, buffer, lba) == Reachable(e, buffer, lba)
    ensures forall io, n :: PrefixFits(d, io, n) == PrefixFits(e, io, n)
  {
    hide RoundUp, BlockCount;
  }

  lemma TransferredShape(d: Data, e: Data, buffer: Dma, lba: nat, write: bool, ok: bool)
    requires e.list == d.list && Transferred(d, e, buffer, lba, write, WRITE_CHUNK, ok)
    ensures |d.mem| == |e.mem| && |d.disk| == |e.disk| && d.listPhys == e.listPhys
    ensures var io := TransferOf(buffer, lba, write);
      (ok <==> PrefixFits(d, io, io.total)) && (ok ==> e == Prefix(d, io, io.total))
  {
    hide RoundUp, BlockCount, Cuts;
    assert d.(list := e.list) == d;
  }

  ghost predicate CameBack(d0: Data, e: Data, buffer: Dma, bytes: seq<Byte>, lba: nat) {
    var total := RoundUp(buffer.size);
    && |e.mem| == |d0.mem| && |e.disk| == |d0.disk| && buffer.phys + total <= |d0.mem| && |bytes| <= total
    && e.mem == Splice(d0.mem, buffer.phys, bytes)
    && (if total == 0 then e.disk == d0.disk
        else lba * BLOCK + total <= |d0.disk|
             && e.disk == Splice(d0.disk, lba * BLOCK, e.mem[buffer.phys..buffer.phys + total]))
  }

  lemma BothWays(d0: Data, d1: Data, d2: Data, d3: Data, d4: Data, buffer: Dma, bytes: seq<Byte>, lba: nat)
    requires buffer.phys + RoundUp(buffer.size) <= |d0.mem| && |bytes| <= buffer.size <= RoundUp(buffer.size)
    requires d1 == d0.(mem := Splice(d0.mem, buffer.phys, bytes))
    requires var io := TransferOf(buffer, lba, true);
      PrefixFits(d1, io, io.total) && d2 == Prefix(d1, io, io.total)
    requires |d2.mem| == |d0.mem| && d3 == d2.(mem := Splice(d2.mem, buffer.phys, seq(|bytes|, _ => 0)))
    requires var io := TransferOf(buffer, lba, false);
      PrefixFits(d3, io, io.total) && d4 == Prefix(d3, io, io.total)
    ensures CameBack(d0, d4, buffer, bytes, lba)
  {
    hide RoundUp, BlockCount, Splice;
    var w, r := TransferOf(buffer, lba, true), TransferOf(buffer, lba, false);
    if w.total > 0 {
      WriteThenRead(d1, d3, w, r);
      assert d4.mem == d1.mem;
    } else {
      assert bytes == [] && d4.mem == d0.mem == Splice(d0.mem, buffer.phys, []);
    }
  }
}
