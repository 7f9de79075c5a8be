/** src/memory.rs: page sizes, DMA buffers, and how a buffer is cut into chunks. */
module Memory {
  import opened Options
  import opened Arithmetic
  import opened Ring
  import opened Transfers
  import opened Layout

  // ---------------------------------------------------------------- page sizes

  datatype Pagesize = Page4K | Page2M | Page1G {
    function Size(): nat {
      match this
      case Page4K => 0x1000
      case Page2M => 0x20_0000
      case Page1G => 0x4000_0000
    }

    /** `((size >> shift) + 1) << shift` unless size is already a multiple. */
    function ShiftUp(size: nat): nat {
      if size % Size() == 0 then size else (size / Size() + 1) * Size()
    }
  }

  function RoundTo(size: nat, page: nat): nat
    requires page > 0
  {
    if size % page == 0 then size else (size / page + 1) * page
  }

  lemma RoundToLeast(size: nat, page: nat, m: nat)
    requires page > 0
    ensures RoundTo(size, page) % page == 0 && size <= RoundTo(size, page) < size + page
    ensures m % page == 0 && size <= m ==> RoundTo(size, page) <= m
  {
    var q, r := size / page, size % page;
    Quotient(size, page);
    Commute(page, q);
    if r != 0 {
      OneMore(q, page);
      DivModUnique((q + 1) * page, page, q + 1, 0);
      if m % page == 0 && size <= m {
        var k := m / page;
        Quotient(m, page);
        Commute(page, k);
        if k <= q {
          MulMono(k, q, page);
        } else {
          MulMono(q + 1, k, page);
        }
      }
    }
  }

  /** shift_up is the least multiple of the page size at or above its argument, and idempotent. */
  lemma ShiftUpLeast(p: Pagesize, size: nat, m: nat)
    ensures p.ShiftUp(size) % p.Size() == 0 && size <= p.ShiftUp(size) < size + p.Size()
    ensures m % p.Size() == 0 && size <= m ==> p.ShiftUp(size) <= m
    ensures p.ShiftUp(p.ShiftUp(size)) == p.ShiftUp(size)
  {
    assert p.ShiftUp(size) == RoundTo(size, p.Size());
    RoundToLeast(size, p.Size(), m);
  }

  lemma MultipleOfMultiple(x: nat, k: nat, q: nat)
    requires k > 0 && q > 0 && k * q > 0 && x % (k * q) == 0
    ensures x % q == 0
  {
    var n := x / (k * q);
    assert x == (k * q) * n == (n * k) * q;
    DivModUnique(x, q, n * k, 0);
  }

  /** A size rounded for page size p needs no further rounding for any page size not larger. */
  lemma ShiftUpStable(p: Pagesize, q: Pagesize, size: nat)
    requires q.Size() <= p.Size()
    ensures q.ShiftUp(p.ShiftUp(size)) == p.ShiftUp(size)
  {
    ShiftUpLeast(p, size, size);
    var k := match (p, q)
      case (Page2M, Page4K) => 0x200
      case (Page1G, Page4K) => 0x4_0000
      case (Page1G, Page2M) => 0x200
      case _ => 1;
    assert p.Size() == k * q.Size();
    MultipleOfMultiple(p.ShiftUp(size), k, q.Size());
  }

  // ---------------------------------------------------------------- buffers and chunks

  datatype Dma = Dma(virt: nat, phys: nat, size: nat)

  datatype Chunk = Chunk(phys: nat, len: nat)

  /** Two ranges of addresses share no byte. */
  predicate Separate(a: nat, aSize: nat, b: nat, bSize: nat) {
    a + aSize <= b || b + bSize <= a
  }

  /** `slice(range)`; indexing past the end panics. */
  function Slice(d: Dma, from: nat, to: nat): Dma
    requires from <= to <= d.size
  {
    Dma(d.virt + from, d.phys + from, to - from)
  }

  /** The offsets at which chunks of at most c bytes begin and end, from `from` on. */
  function CutsFrom(from: nat, size: nat, c: nat): (r: seq<nat>)
    requires c > 0 && from <= size
    ensures r != [] && r[0] == from && r[|r| - 1] == size
    decreases size - from
  {
    if from == size then [from]
    else [from] + CutsFrom(if from + c <= size then from + c else size, size, c)
  }

  function Cuts(size: nat, c: nat): seq<nat>
    requires c > 0
  {
    CutsFrom(0, size, c)
  }

  ghost predicate Increasing(r: seq<nat>) {
    forall i, j :: 0 <= i < j < |r| ==> r[i] < r[j]
  }

  /** Each piece is c long, or reaches the end. */
  ghost predicate Steps(r: seq<nat>, size: nat, c: nat) {
    forall i :: 0 <= i < |r| - 1 ==> r[i + 1] == if r[i] + c <= size then r[i] + c else size
  }

  lemma {:induction false} CutsFromTile(from: nat, size: nat, c: nat)
    requires c > 0 && from <= size
    ensures Increasing(CutsFrom(from, size, c)) && Steps(CutsFrom(from, size, c), size, c)
    decreases size - from
  {
    if from < size {
      var next := if from + c <= size then from + c else size;
      CutsFromTile(next, size, c);
      Prepend(from, CutsFrom(next, size, c), size, c);
    }
  }

  lemma Prepend(from: nat, rest: seq<nat>, size: nat, c: nat)
    requires rest != [] && Increasing(rest) && Steps(rest, size, c)
    requires from < rest[0] == if from + c <= size then from + c else size
    ensures Increasing([from] + rest) && Steps([from] + rest, size, c)
  {
    var r := [from] + rest;
    forall i, j | 0 <= i < j < |r|
      ensures r[i] < r[j]
    {
      if i > 0 {
        assert rest[i - 1] < rest[j - 1];
      } else if j > 1 {
        assert rest[0] < rest[j - 1];
      }
    }
    forall i | 0 <= i < |r| - 1
      ensures r[i + 1] == if r[i] + c <= size then r[i] + c else size
    {
      if i > 0 {
        assert rest[(i - 1) + 1] == if rest[i - 1] + c <= size then rest[i - 1] + c else size;
      }
    }
  }

  /** The chunks tile the buffer: non-empty, contiguous, covering it once, each full but the last. */
  lemma CutsTile(size: nat, c: nat)
    requires c > 0
    ensures Tiling(Cuts(size, c), size) && Steps(Cuts(size, c), size, c)
    ensures forall i :: 0 <= i < |Cuts(size, c)| - 1 ==> Cuts(size, c)[i] < size
  {
    CutsFromTile(0, size, c);
    var cuts := Cuts(size, c);
    assert forall i :: 0 <= i < |cuts| - 1 ==> cuts[i] < cuts[|cuts| - 1];
  }

  /** Chunk i begins i chunk sizes into the buffer. */
  lemma {:induction false} CutsAt(size: nat, c: nat, i: nat)
    requires c > 0 && i + 1 < |Cuts(size, c)|
    ensures Cuts(size, c)[i] == i * c < size
    ensures Cuts(size, c)[i + 1] == if i * c + c <= size then i * c + c else size
  {
    hide Cuts;
    CutsTile(size, c);
    if i > 0 {
      CutsAt(size, c, i - 1);
      OneMore(i - 1, c);
    } else {
      FirstCut(size, c);
    }
  }

  lemma FirstCut(size: nat, c: nat)
    requires c > 0
    ensures Cuts(size, c)[0] == 0 && (|Cuts(size, c)| == 1 <==> size == 0)
  {
  }

  /** A buffer is cut into as many chunks as it has chunk sizes, begun ones included. */
  lemma CutsNumber(size: nat, c: nat)
    requires c > 0
    ensures |Cuts(size, c)| - 1 == (size + c - 1) / c
  {
    hide Cuts;
    CutsTile(size, c);
    FirstCut(size, c);
    var n := |Cuts(size, c)| - 1;
    if n == 0 {
      DivModUnique(c - 1, c, 0, c - 1);
    } else {
      CutsAt(size, c, n - 1);
      OneMore(n - 1, c);
      DivModUnique(size + c - 1, c, n, size - (n - 1) * c - 1);
    }
  }

  /** A slice lies inside its buffer, at the same place in both address spaces. */
  lemma SliceInside(d: Dma, from: nat, to: nat)
    requires from <= to <= d.size
    ensures var s := Slice(d, from, to);
      && s.size == to - from && s.virt - d.virt == s.phys - d.phys == from
      && d.phys <= s.phys && s.phys + s.size <= d.phys + d.size
      && d.virt <= s.virt && s.virt + s.size <= d.virt + d.size
  {
  }

  /** `(len + 512 - 1) / 512` */
  function BlockCount(len: nat): nat { (len + BLOCK - 1) / BLOCK }

  function RoundUp(len: nat): nat { BlockCount(len) * BLOCK }

  /** Moving a whole buffer to or from the blocks at lba; the last block may reach past its end. */
  function TransferOf(dma: Dma, lba: nat, write: bool): Io {
    Io(write, lba * BLOCK, dma.phys, RoundUp(dma.size))
  }

  lemma RoundUpBounds(len: nat)
    ensures RoundUp(len) % BLOCK == 0 && len <= RoundUp(len) < len + BLOCK
  {
  }

  lemma RoundUpBelow(len: nat, m: nat)
    requires m % BLOCK == 0 && len <= m
    ensures RoundUp(len) <= m
  {
    assert m == BLOCK * (m / BLOCK);
  }

  lemma RoundUpShift(len: nat, m: nat)
    requires m % BLOCK == 0
    ensures RoundUp(m + len) == m + RoundUp(len)
  {
    assert m == BLOCK * (m / BLOCK);
    assert BlockCount(m + len) == m / BLOCK + BlockCount(len);
  }

  /** RoundUp gives the least multiple of 512 at or above. */
  lemma RoundUpLeast(len: nat, m: nat)
    ensures RoundUp(len) % BLOCK == 0 && len <= RoundUp(len) < len + BLOCK
    ensures m % BLOCK == 0 && len <= m ==> RoundUp(len) <= m
    ensures m % BLOCK == 0 ==> RoundUp(m + len) == m + RoundUp(len)
    ensures RoundUp(len) == 0 <==> len == 0
  {
    assert len == 0 ==> RoundUp(len) == 0;
    hide RoundUp;
    RoundUpBounds(len);
    if m % BLOCK == 0 {
      RoundUpShift(len, m);
      if len <= m {
        RoundUpBelow(len, m);
      }
    }
  }

  /** One byte that a read brings, and one that it does not reach. */
  lemma ReadByte(d: Data, io: Io, i: nat)
    requires !io.write && Fits(d, io)
    ensures i < io.total ==> Whole(d, io).mem[io.phys + i] == d.disk[io.at + i]
    ensures io.total <= i && io.phys + i < |d.mem| ==> Whole(d, io).mem[io.phys + i] == d.mem[io.phys + i]
  {
    if i < io.total {
      assert d.disk[io.at..io.at + io.total][i] == d.disk[io.at + i];
    }
  }

  /** Reading whole blocks into a buffer stays inside the buffer, whatever the data, exactly if the
      buffer is whole blocks itself. */
  lemma ReadInsideIff(dma: Dma, lba: nat)
    ensures (forall d: Data | Fits(d, TransferOf(dma, lba, false)) ::
              forall k :: dma.phys + dma.size <= k < |d.mem| ==>
                Whole(d, TransferOf(dma, lba, false)).mem[k] == d.mem[k])
            <==> dma.size % BLOCK == 0
  {
    hide RoundUp, Splice;
    RoundUpLeast(dma.size, dma.size);
    var io := TransferOf(dma, lba, false);
    if dma.size % BLOCK != 0 {
      var d := Data(seq(io.at + io.total, _ => 1), seq(io.phys + io.total, _ => 0), 0, []);
      assert Fits(d, io);
      ReadByte(d, io, dma.size);
      assert Whole(d, io).mem[dma.phys + dma.size] == 1;
    } else {
      forall d: Data, k | Fits(d, io) && dma.phys + dma.size <= k < |d.mem|
        ensures Whole(d, io).mem[k] == d.mem[k]
      {
        ReadByte(d, io, k - dma.phys);
      }
    }
  }

  /** Piece i of the rounded-up buffer is piece i of the buffer, rounded up. */
  ghost predicate SamePiece(r: seq<nat>, w: seq<nat>, i: nat)
    requires i + 1 < |r| == |w|
  {
    w[i] == r[i] < r[i + 1] && r[i] % BLOCK == 0 && w[i + 1] == w[i] + RoundUp(r[i + 1] - r[i])
  }

  lemma SumOfBlocks(a: nat, b: nat)
    requires a % BLOCK == 0 && b % BLOCK == 0
    ensures (a + b) % BLOCK == 0 && RoundUp(b) == b
  {
    hide RoundUp;
    RoundUpLeast(b, b);
    assert a + b == BLOCK * (a / BLOCK + b / BLOCK);
  }

  /** A first piece in front of the others. */
  lemma FirstPiece(from: nat, next: nat, next': nat, r: seq<nat>, w: seq<nat>)
    requires r != [] && |w| == |r| && r[0] == next && w[0] == next'
    requires forall i :: 0 <= i < |r| - 1 ==> SamePiece(r, w, i)
    requires from < next && from % BLOCK == 0 && next' == from + RoundUp(next - from)
    ensures forall i :: 0 <= i < |r| ==> SamePiece([from] + r, [from] + w, i)
  {
    hide RoundUp;
    forall i | 0 <= i < |r|
      ensures SamePiece([from] + r, [from] + w, i)
    {
      if i > 0 {
        assert SamePiece(r, w, i - 1);
      }
    }
  }

  /** The last piece, shorter than a chunk, is rounded up but not beyond the chunk. */
  lemma LastPiece(from: nat, size: nat, c: nat)
    requires c > 0 && c % BLOCK == 0 && from % BLOCK == 0 && from < size < from + c
    ensures RoundUp(size) == from + RoundUp(size - from) && from < RoundUp(size) <= from + c
    ensures CutsFrom(from, size, c) == [from, size] && CutsFrom(from, RoundUp(size), c) == [from, RoundUp(size)]
  {
    hide RoundUp;
    RoundUpLeast(size - from, from);
    SumOfBlocks(from, c);
    RoundUpLeast(size, from + c);
    assert CutsFrom(size, size, c) == [size];
    assert CutsFrom(RoundUp(size), RoundUp(size), c) == [RoundUp(size)];
  }

  lemma {:induction false} CutsFromRounded(from: nat, size: nat, c: nat)
    requires c > 0 && c % BLOCK == 0 && from <= size <= RoundUp(size) && from % BLOCK == 0
    ensures var r, w := CutsFrom(from, size, c), CutsFrom(from, RoundUp(size), c);
      |w| == |r| && forall i :: 0 <= i < |r| - 1 ==> SamePiece(r, w, i)
    decreases size - from
  {
    hide RoundUp, SamePiece;
    if from == size {
      SumOfBlocks(0, from);
    } else if from + c <= size {
      SumOfBlocks(from, c);
      CutsFromRounded(from + c, size, c);
      FirstPiece(from, from + c, from + c, CutsFrom(from + c, size, c), CutsFrom(from + c, RoundUp(size), c));
    } else {
      LastPiece(from, size, c);
      assert [from, size] == [from] + [size] && [from, RoundUp(size)] == [from] + [RoundUp(size)];
      FirstPiece(from, size, RoundUp(size), [size], [RoundUp(size)]);
    }
  }

  /** When the chunk size is a multiple of 512, the chunks rounded up to blocks are the chunks of
      the rounded-up buffer: in particular their block counts add up to that of the whole. */
  lemma ChunkBlocks(size: nat, c: nat)
    requires c > 0 && c % BLOCK == 0
    ensures var r, w := Cuts(size, c), Cuts(RoundUp(size), c);
      |w| == |r| && forall i :: 0 <= i < |r| - 1 ==> SamePiece(r, w, i)
  {
    RoundUpLeast(size, 0);
    CutsFromRounded(0, size, c);
  }

  lemma {:induction false} CutsFromAligned(from: nat, size: nat, c: nat, m: nat)
    requires c > 0 && m > 0 && from <= size && from % m == 0
    requires forall x: nat :: x % m == 0 ==> (x + c) % m == 0
    ensures forall i :: 0 <= i < |CutsFrom(from, size, c)| - 1 ==> CutsFrom(from, size, c)[i] % m == 0
    decreases size - from
  {
    if from + c <= size {
      CutsFromAligned(from + c, size, c, m);
      assert CutsFrom(from, size, c) == [from] + CutsFrom(from + c, size, c);
    }
  }

  /** Chunks of a whole number of pages begin at page offsets. */
  lemma CutsAligned(size: nat, c: nat)
    requires c > 0 && c % PAGE == 0
    ensures forall i :: 0 <= i < |Cuts(size, c)| - 1 ==> Cuts(size, c)[i] % PAGE == 0
  {
    CutsFromAligned(0, size, c, PAGE);
  }

  lemma PagesAreBlocks(c: nat)
    requires c % PAGE == 0
    ensures c % BLOCK == 0
  {
    assert c == BLOCK * (8 * (c / PAGE));
  }

  /** Everything about piece i, for chunks of a whole number of pages. */
  lemma PieceFacts(size: nat, c: nat, i: nat)
    requires c > 0 && c % PAGE == 0 && i + 1 < |Cuts(size, c)|
    ensures var r, w := Cuts(size, c), Cuts(RoundUp(size), c);
      |w| == |r| && SamePiece(r, w, i) && w[i] % PAGE == 0 && w[i] < w[i + 1] <= w[i] + c && w[i + 1] <= RoundUp(size)
  {
    hide RoundUp, Cuts;
    var w := Cuts(RoundUp(size), c);
    PagesAreBlocks(c);
    ChunkBlocks(size, c);
    CutsTile(RoundUp(size), c);
    CutsAligned(RoundUp(size), c);
    assert i + 1 < |w| - 1 ==> w[i + 1] < w[|w| - 1];
  }

  /** The k-th chunk of a buffer, if it has that many. */
  function ChunkOf(dma: Dma, c: nat, k: nat): Option<Chunk>
    requires c > 0
  {
    var cuts := Cuts(dma.size, c);
    if k + 1 < |cuts| && cuts[k] <= cuts[k + 1] then Some(Chunk(dma.phys + cuts[k], cuts[k + 1] - cuts[k])) else None
  }

  /** There is a k-th chunk exactly for the first |cuts| - 1 indices. */
  lemma ChunkOfSome(dma: Dma, c: nat, k: nat)
    requires c > 0
    ensures ChunkOf(dma, c, k) != None <==> k + 1 < |Cuts(dma.size, c)|
  {
    CutsTile(dma.size, c);
  }

  /** The iterator of src/memory.rs. */
  class DmaChunks {
    var currentOffset: nat
    const chunkSize: nat
    const dma: Dma

    constructor (dma: Dma, bytes: nat)
      requires bytes > 0
      ensures chunkSize == bytes && this.dma == dma && Ready(0)
    {
      currentOffset, chunkSize, this.dma := 0, bytes, dma;
    }

    /** k chunks have been returned. */
    ghost predicate Ready(k: nat)
      reads this
    {
      chunkSize > 0 && k < |Cuts(dma.size, chunkSize)| && currentOffset == Cuts(dma.size, chunkSize)[k]
    }

    /** The k-th call returns the k-th chunk; after the last one, None, and nothing changes. */
    method Next(ghost k: nat) returns (r: Option<Chunk>)
      requires Ready(k)
      modifies this
      ensures r == ChunkOf(dma, chunkSize, k)
      ensures if r != None then Ready(k + 1) else Ready(k)
    {
      CutsTile(dma.size, chunkSize);
      if currentOffset >= dma.size {
        r := None;
      } else {
        var rest := dma.size - currentOffset;
        var len := if chunkSize <= rest then chunkSize else rest;
        r := Some(Chunk(dma.phys + currentOffset, len));
        currentOffset := currentOffset + len;
      }
    }
  }
}
