/** What batched_write and batched_read do in full, for batches whose commands are all well placed:
    the stretches of each chunk that its commands move, chunk after chunk. */
module BatchCalls {
  import opened Arithmetic
  import opened Commands
  import opened Transfers
  import opened Prps
  import opened Layout
  import opened ManyTransfers
  import opened Batches
  import opened BatchLimits

  // ---------------------------------------------------------------- one batch

  /** What the caller of a batch provides: the blocks the commands name exist, the buffer is aligned
      and large enough, and for commands of more than two pages the list is as init filled it. */
  ghost predicate BatchUsable(d: Data, buffer: nat, lba: nat, n: nat, len: nat)
    requires n > 0
  {
    && lba + len / BLOCK <= U64 && (lba + BatchAdvance(n, len)) * BLOCK <= |d.disk| && buffer + len <= |d.mem|
    && buffer % PAGE == 0 && Apart(d, buffer, len)
    && (BatchBlocks(n, len) * BLOCK > 2 * PAGE ==> InitFill(d, buffer))
  }

  /** Every command of the batch has PRPs that describe its stretch. */
  ghost predicate WellPlaced(n: nat, len: nat)
    requires n > 0
  {
    forall i :: 0 <= i < n ==> Placed(i * BatchSize(n, len), BatchBlocks(n, len) * BLOCK)
  }

  /** Command i moves the whole blocks at the start of stretch i; what is left of the stretch, and
      of the chunk, it does not. */
  function Stretch(buffer: nat, lba: nat, step: nat, blocks: nat, write: bool, i: nat): Io {
    Io(write, (lba + i * blocks) * BLOCK, buffer + i * step, blocks * BLOCK)
  }

  function Stretches(buffer: nat, lba: nat, n: nat, len: nat, write: bool): (r: seq<Io>)
    requires n > 0
    ensures |r| == n
  {
    seq(n, i requires 0 <= i < n => Stretch(buffer, lba, BatchSize(n, len), BatchBlocks(n, len), write, i))
  }

  lemma StretchesApart(buffer: nat, lba: nat, step: nat, blocks: nat, write: bool, i: nat, j: nat)
    requires i < j && blocks * BLOCK <= step
    ensures Independent(Stretch(buffer, lba, step, blocks, write, i), Stretch(buffer, lba, step, blocks, write, j))
  {
    Multiple(i, j, step);
    Multiple(i, j, blocks);
  }

  /** The blocks of a command fit its stretch, and the stretch the chunk. */
  lemma StretchInside(n: nat, len: nat, i: nat)
    requires 0 < n && n * BLOCK <= len && i < n
    ensures var step, blocks := BatchSize(n, len), BatchBlocks(n, len);
      0 < blocks && blocks * BLOCK <= step && i * step + step <= len && i * blocks + blocks <= BatchAdvance(n, len)
  {
    SizeBounds(n, len);
    StepsInChunk(n, len, i);
    BlocksInChunk(n, len, i);
    Floor(BatchSize(n, len));
  }

  lemma Floor(x: nat)
    ensures x / BLOCK * BLOCK <= x
  {
  }

  lemma StretchMoves(d: Data, buffer: nat, start: nat, qlen: nat, nsid: nat, lba: nat, n: nat, len: nat, write: bool,
                     i: nat)
    requires qlen > 0 && 0 < n && n * BLOCK <= len <= BATCH_CHUNK && i < n
    requires BatchUsable(d, buffer, lba, n, len) && WellPlaced(n, len)
    ensures var io := Stretches(buffer, lba, n, len, write)[i];
      && Moves(d, BatchCommands(d.listPhys, buffer, start, qlen, nsid, lba, n, len, write)[i], io, 0, io.total)
      && Fits(d, io)
  {
    hide Describes, BatchCommands, Placed, BatchPtr, Apart, InitFill;
    BatchDecode(d.listPhys, buffer, start, qlen, nsid, lba, n, len, write, i);
    StretchInside(n, len, i);
    var step, blocks := BatchSize(n, len), BatchBlocks(n, len);
    assert Placed(i * step, blocks * BLOCK);
    hide BatchSize, BatchBlocks, BatchAdvance;
    PlacedIff(d, buffer, len, i * step, blocks * BLOCK);
  }

  /** The commands of a well placed batch make its stretches, which are independent of each other. */
  lemma StretchesMake(d: Data, buffer: nat, start: nat, qlen: nat, nsid: nat, lba: nat, n: nat, len: nat, write: bool)
    requires qlen > 0 && 0 < n && n * BLOCK <= len <= BATCH_CHUNK
    requires BatchUsable(d, buffer, lba, n, len) && WellPlaced(n, len)
    ensures var ios := Stretches(buffer, lba, n, len, write);
      && MakesEach(d, BatchCommands(d.listPhys, buffer, start, qlen, nsid, lba, n, len, write), ios)
      && Pairwise(ios) && AllFit(d, ios)
  {
    hide Moves, BatchCommands, BatchUsable, WellPlaced, BatchSize, BatchBlocks, Independent, Fits, Stretch;
    var cmds := BatchCommands(d.listPhys, buffer, start, qlen, nsid, lba, n, len, write);
    var ios := Stretches(buffer, lba, n, len, write);
    forall i | 0 <= i < n
      ensures Moves(d, cmds[i], ios[i], 0, ios[i].total) && Fits(d, ios[i])
    {
      StretchMoves(d, buffer, start, qlen, nsid, lba, n, len, write, i);
    }
    forall i, j | 0 <= i < j < n
      ensures Independent(ios[i], ios[j])
    {
      StretchInside(n, len, i);
      StretchesApart(buffer, lba, BatchSize(n, len), BatchBlocks(n, len), write, i, j);
    }
  }

  // ---------------------------------------------------------------- what a batch moves

  /** Where piece i begins, if all have `size` bytes. */
  function At(i: nat, size: nat): nat { i * size }

  lemma AtNext(i: nat, size: nat)
    ensures At(0, size) == 0 && At(i + 1, size) == At(i, size) + size
  {
    NextMultiple(i, size);
  }

  lemma AtBefore(i: nat, m: nat, size: nat)
    requires i < m
    ensures At(i, size) + size <= At(m, size)
  {
    Multiple(i, m, size);
  }

  /** The first `size` bytes of each of the first m stretches of src. */
  function Heads(src: seq<Byte>, step: nat, size: nat, m: nat): (r: seq<Byte>)
    requires size <= step && At(m, step) <= |src|
    ensures |r| == At(m, size)
  {
    if m == 0 then []
    else
      AtNext(m - 1, step);
      AtNext(m - 1, size);
      Heads(src, step, size, m - 1) + src[At(m - 1, step)..At(m - 1, step) + size]
  }

  /** dst with the first `size` bytes of each of its first m stretches replaced by those of src. */
  function Spread(dst: seq<Byte>, step: nat, size: nat, src: seq<Byte>, m: nat): (r: seq<Byte>)
    requires size <= step && At(m, step) <= |dst| && At(m, size) <= |src|
    ensures |r| == |dst|
  {
    if m == 0 then dst
    else
      AtNext(m - 1, step);
      AtNext(m - 1, size);
      Splice(Spread(dst, step, size, src, m - 1), At(m - 1, step), src[At(m - 1, size)..At(m - 1, size) + size])
  }

  lemma HeadsNext(src: seq<Byte>, step: nat, size: nat, m: nat)
    requires m > 0 && size <= step && At(m, step) <= |src|
    ensures At(m - 1, step) + step == At(m, step) && At(m - 1, size) + size == At(m, size)
    ensures Heads(src, step, size, m)
            == Heads(src, step, size, m - 1) + src[At(m - 1, step)..At(m - 1, step) + size]
  {
    hide At;
    AtNext(m - 1, step);
    AtNext(m - 1, size);
  }

  lemma SpreadNext(dst: seq<Byte>, step: nat, size: nat, src: seq<Byte>, m: nat)
    requires m > 0 && size <= step && At(m, step) <= |dst| && At(m, size) <= |src|
    ensures At(m - 1, step) + step == At(m, step) && At(m - 1, size) + size == At(m, size)
    ensures Spread(dst, step, size, src, m)
            == Splice(Spread(dst, step, size, src, m - 1), At(m - 1, step),
                      src[At(m - 1, size)..At(m - 1, size) + size])
  {
    hide At, Splice;
    AtNext(m - 1, step);
    AtNext(m - 1, size);
  }

  lemma SpreadNone(dst: seq<Byte>, step: nat, size: nat, src: seq<Byte>)
    requires size <= step
    ensures Spread(dst, step, size, src, 0) == dst
  {
  }

  /** Byte k of head i is byte k of stretch i. */
  lemma {:induction false} HeadsAt(src: seq<Byte>, step: nat, size: nat, m: nat, i: nat, k: nat)
    requires size <= step && At(m, step) <= |src| && i < m && k < size
    ensures At(i, step) + k < |src| && At(i, size) + k < At(m, size)
    ensures Heads(src, step, size, m)[At(i, size) + k] == src[At(i, step) + k]
  {
    hide Heads, At;
    HeadsNext(src, step, size, m);
    AtBefore(i, m, step);
    AtBefore(i, m, size);
    if i < m - 1 {
      AtBefore(i, m - 1, size);
      HeadsAt(src, step, size, m - 1, i, k);
    }
  }

  /** Byte k of stretch i is byte k of head i, if it is one of the first `size`. */
  lemma {:induction false} SpreadMoved(dst: seq<Byte>, step: nat, size: nat, src: seq<Byte>, m: nat, i: nat, k: nat)
    requires size <= step && At(m, step) <= |dst| && At(m, size) <= |src| && i < m && k < size
    ensures At(i, step) + k < |dst| && At(i, size) + k < |src|
    ensures Spread(dst, step, size, src, m)[At(i, step) + k] == src[At(i, size) + k]
  {
    hide Spread, At;
    SpreadNext(dst, step, size, src, m);
    AtBefore(i, m, step);
    AtBefore(i, m, size);
    if i < m - 1 {
      AtBefore(i, m - 1, step);
      SpreadMoved(dst, step, size, src, m - 1, i, k);
    }
  }

  predicate InHead(step: nat, size: nat, i: nat, x: nat) { At(i, step) <= x < At(i, step) + size }

  /** ... and a byte in none of them is as it was. */
  lemma {:induction false} SpreadKept(dst: seq<Byte>, step: nat, size: nat, src: seq<Byte>, m: nat, x: nat)
    requires size <= step && At(m, step) <= |dst| && At(m, size) <= |src| && x < |dst|
    requires forall i: nat :: i < m ==> !InHead(step, size, i, x)
    ensures Spread(dst, step, size, src, m)[x] == dst[x]
  {
    hide Spread, At;
    if m == 0 {
      SpreadNone(dst, step, size, src);
    } else {
      SpreadNext(dst, step, size, src, m);
      SpreadKept(dst, step, size, src, m - 1, x);
      assert !InHead(step, size, m - 1, x);
    }
  }

  /** Without remainders everything is moved. */
  lemma {:induction false} HeadsWhole(src: seq<Byte>, step: nat, m: nat)
    requires At(m, step) <= |src|
    ensures Heads(src, step, step, m) == src[..At(m, step)]
  {
    hide At;
    AtNext(m, step);
    if m > 0 {
      HeadsNext(src, step, step, m);
      HeadsWhole(src, step, m - 1);
    }
  }

  lemma {:induction false} SpreadWhole(dst: seq<Byte>, step: nat, src: seq<Byte>, m: nat)
    requires At(m, step) <= |dst| && At(m, step) <= |src|
    ensures Spread(dst, step, step, src, m) == Splice(dst, 0, src[..At(m, step)])
  {
    hide Spread, At, Splice;
    AtNext(m, step);
    if m == 0 {
      SpreadNone(dst, step, step, src);
      SpliceNone(dst, 0);
      assert src[..0] == [];
    } else {
      SpreadNext(dst, step, step, src, m);
      SpreadWhole(dst, step, src, m - 1);
      FrontLonger(dst, src, At(m - 1, step), step);
    }
  }

  lemma FrontLonger(dst: seq<Byte>, src: seq<Byte>, a: nat, step: nat)
    requires a + step <= |dst| && a + step <= |src|
    ensures Splice(Splice(dst, 0, src[..a]), a, src[a..a + step]) == Splice(dst, 0, src[..a + step])
  {
  }

  lemma SpliceNone(s: seq<Byte>, at: nat)
    requires at <= |s|
    ensures Splice(s, at, []) == s
  {
  }

  lemma SpliceTwice(s: seq<Byte>, at: nat, a: seq<Byte>, b: seq<Byte>)
    requires at + |a| + |b| <= |s|
    ensures Splice(Splice(s, at, a), at + |a|, b) == Splice(s, at, a + b)
  {
  }

  lemma SpliceInside(s: seq<Byte>, at: nat, t: seq<Byte>, k: nat, u: seq<Byte>)
    requires at + |t| <= |s| && k + |u| <= |t|
    ensures Splice(Splice(s, at, t), at + k, u) == Splice(s, at, Splice(t, k, u))
  {
  }

  /** The chunk in the driver's buffer. */
  function Buffered(d: Data, buffer: nat, len: nat): (r: seq<Byte>)
    requires buffer + len <= |d.mem|
    ensures |r| == len
  {
    d.mem[buffer..buffer + len]
  }

  /** The n runs of blocks of the batch. */
  function Target(disk: seq<Byte>, lba: nat, size: nat, n: nat): (r: seq<Byte>)
    requires lba * BLOCK + At(n, size) <= |disk|
    ensures |r| == At(n, size)
  {
    disk[lba * BLOCK..lba * BLOCK + At(n, size)]
  }

  lemma HeadBounds(lba: nat, n: nat, len: nat, m: nat)
    requires 0 < n && n * BLOCK <= len && m <= n
    ensures var step, size := BatchSize(n, len), BatchBlocks(n, len) * BLOCK;
      && 0 < size <= step && At(m, step) <= At(n, step) <= len && At(m, size) <= At(n, size)
      && (lba + BatchAdvance(n, len)) * BLOCK == lba * BLOCK + At(n, size)
  {
    var step, blocks := BatchSize(n, len), BatchBlocks(n, len);
    StretchInside(n, len, n - 1);
    hide BatchSize, BatchBlocks;
    NextMultiple(n - 1, step);
    MulMono(m, n, step);
    MulMono(m, n, blocks * BLOCK);
    BlockMultiple(n, blocks);
  }

  /** The m-th stretch. */
  lemma StretchNext(buffer: nat, lba: nat, n: nat, len: nat, write: bool, m: nat)
    requires 0 < m <= n
    ensures var step, size := BatchSize(n, len), BatchBlocks(n, len) * BLOCK;
      Stretches(buffer, lba, n, len, write)[m - 1]
      == Io(write, lba * BLOCK + At(m - 1, size), buffer + At(m - 1, step), size)
  {
    hide BatchSize, BatchBlocks;
    BlockMultiple(m - 1, BatchBlocks(n, len));
  }

  lemma SubSlice(s: seq<Byte>, at: nat, n: nat, a: nat, k: nat)
    requires at + n <= |s| && a + k <= n
    ensures s[at..at + n][a..a + k] == s[at + a..at + a + k]
  {
    var t, u := s[at..at + n], s[at + a..at + a + k];
    forall j | 0 <= j < |u|
      ensures t[a..a + k][j] == u[j]
    {
      assert t[a + j] == s[at + (a + j)];
    }
  }

  lemma WriteNext(d: Data, e: Data, buffer: nat, len: nat, at: nat, heads: seq<Byte>, a: nat, size: nat)
    requires buffer + len <= |d.mem| && a + size <= len && at + |heads| + size <= |d.disk|
    requires e == d.(disk := Splice(d.disk, at, heads))
    ensures var io := Io(true, at + |heads|, buffer + a, size);
      && Fits(e, io)
      && Whole(e, io) == d.(disk := Splice(d.disk, at, heads + Buffered(d, buffer, len)[a..a + size]))
  {
    hide Splice;
    SubSlice(d.mem, buffer, len, a, size);
    SpliceTwice(d.disk, at, heads, Buffered(d, buffer, len)[a..a + size]);
  }

  /** The first m stretches of a written chunk are one assignment of their heads, over contiguous
      blocks. */
  lemma {:induction false} WrittenStretches(d: Data, buffer: nat, lba: nat, n: nat, len: nat, m: nat)
    requires 0 < n && n * BLOCK <= len && m <= n && buffer + len <= |d.mem|
    requires (lba + BatchAdvance(n, len)) * BLOCK <= |d.disk| && AllFit(d, Stretches(buffer, lba, n, len, true))
    ensures var step, size := BatchSize(n, len), BatchBlocks(n, len) * BLOCK;
      && size <= step && At(m, step) <= len && lba * BLOCK + At(m, size) <= |d.disk|
      && WholeAll(d, Stretches(buffer, lba, n, len, true)[..m])
         == d.(disk := Splice(d.disk, lba * BLOCK, Heads(Buffered(d, buffer, len), step, size, m)))
  {
    hide BatchSize, BatchBlocks, BatchAdvance, Fits, Whole, WholeAll, Heads, Stretches, Splice, At, Buffered;
    var step, size := BatchSize(n, len), BatchBlocks(n, len) * BLOCK;
    var ios := Stretches(buffer, lba, n, len, true);
    HeadBounds(lba, n, len, m);
    if m == 0 {
      NoHeads(d, Buffered(d, buffer, len), step, size, lba * BLOCK);
      WholeNone(d, ios);
    } else {
      WrittenStretches(d, buffer, lba, n, len, m - 1);
      StretchNext(buffer, lba, n, len, true, m);
      HeadsNext(Buffered(d, buffer, len), step, size, m);
      var heads := Heads(Buffered(d, buffer, len), step, size, m - 1);
      WholeMore(d, ios, m);
      WriteNext(d, WholeAll(d, ios[..m - 1]), buffer, len, lba * BLOCK, heads, At(m - 1, step), size);
    }
  }

  lemma WholeNone(d: Data, ios: seq<Io>)
    requires AllFit(d, ios)
    ensures WholeAll(d, ios[..0]) == d
  {
  }

  lemma WholeMore(d: Data, ios: seq<Io>, m: nat)
    requires AllFit(d, ios) && 0 < m <= |ios|
    ensures Fits(WholeAll(d, ios[..m - 1]), ios[m - 1])
    ensures WholeAll(d, ios[..m]) == Whole(WholeAll(d, ios[..m - 1]), ios[m - 1])
  {
    hide Whole;
    assert ios[..m][..m - 1] == ios[..m - 1];
  }

  lemma NoHeads(d: Data, src: seq<Byte>, step: nat, size: nat, at: nat)
    requires size <= step && at <= |d.disk|
    ensures Heads(src, step, size, 0) == [] && d.(disk := Splice(d.disk, at, [])) == d
  {
    SpliceNone(d.disk, at);
  }

  lemma ReadNext(d: Data, e: Data, buffer: nat, at: nat, got: seq<Byte>, n: nat, a: nat, b: nat, size: nat)
    requires buffer + |got| <= |d.mem| && a + size <= |got| && b + size <= n && at + n <= |d.disk|
    requires e == d.(mem := Splice(d.mem, buffer, got))
    ensures var io := Io(false, at + b, buffer + a, size);
      && Fits(e, io)
      && Whole(e, io) == d.(mem := Splice(d.mem, buffer, Splice(got, a, d.disk[at..at + n][b..b + size])))
  {
    hide Splice;
    SubSlice(d.disk, at, n, b, size);
    SpliceInside(d.mem, buffer, got, a, d.disk[at..at + n][b..b + size]);
  }

  /** The first m stretches of a chunk read fill their heads in the buffer and leave the rest of it as
      it was. */
  lemma {:induction false} ReadStretches(d: Data, buffer: nat, lba: nat, n: nat, len: nat, m: nat)
    requires 0 < n && n * BLOCK <= len && m <= n && buffer + len <= |d.mem|
    requires (lba + BatchAdvance(n, len)) * BLOCK <= |d.disk| && AllFit(d, Stretches(buffer, lba, n, len, false))
    ensures var step, size := BatchSize(n, len), BatchBlocks(n, len) * BLOCK;
      && size <= step && At(m, step) <= len && At(m, size) <= At(n, size) && lba * BLOCK + At(n, size) <= |d.disk|
      && WholeAll(d, Stretches(buffer, lba, n, len, false)[..m])
         == d.(mem := Splice(d.mem, buffer,
                             Spread(Buffered(d, buffer, len), step, size, Target(d.disk, lba, size, n), m)))
  {
    hide BatchSize, BatchBlocks, BatchAdvance, Fits, Whole, WholeAll, Spread, Stretches, Splice, At, Buffered;
    var step, size := BatchSize(n, len), BatchBlocks(n, len) * BLOCK;
    var ios := Stretches(buffer, lba, n, len, false);
    HeadBounds(lba, n, len, m);
    var chunk, target := Buffered(d, buffer, len), Target(d.disk, lba, size, n);
    if m == 0 {
      NoneSpread(d, buffer, len, step, size, target);
      WholeNone(d, ios);
    } else {
      ReadStretches(d, buffer, lba, n, len, m - 1);
      StretchNext(buffer, lba, n, len, false, m);
      SpreadNext(chunk, step, size, target, m);
      var got := Spread(chunk, step, size, target, m - 1);
      WholeMore(d, ios, m);
      ReadNext(d, WholeAll(d, ios[..m - 1]), buffer, lba * BLOCK, got, At(n, size), At(m - 1, step), At(m - 1, size),
               size);
    }
  }

  lemma NoneSpread(d: Data, buffer: nat, len: nat, step: nat, size: nat, src: seq<Byte>)
    requires size <= step && buffer + len <= |d.mem|
    ensures d.(mem := Splice(d.mem, buffer, Spread(Buffered(d, buffer, len), step, size, src, 0))) == d
  {
    assert Splice(d.mem, buffer, Buffered(d, buffer, len)) == d.mem;
  }

  // ---------------------------------------------------------------- a chunk

  /** What of a chunk its batch moves to the disk, in one piece. */
  function KeptOf(chunk: seq<Byte>, n: nat): (r: seq<Byte>)
    requires 0 < n && n * BLOCK <= |chunk|
    ensures |r| == BatchAdvance(n, |chunk|) * BLOCK
  {
    HeadBounds(0, n, |chunk|, n);
    Heads(chunk, BatchSize(n, |chunk|), BatchBlocks(n, |chunk|) * BLOCK, n)
  }

  /** What the buffer holds after its batch, having held `chunk`. */
  function FilledOf(chunk: seq<Byte>, disk: seq<Byte>, lba: nat, n: nat): (r: seq<Byte>)
    requires 0 < n && n * BLOCK <= |chunk| && (lba + BatchAdvance(n, |chunk|)) * BLOCK <= |disk|
    ensures |r| == |chunk|
  {
    HeadBounds(lba, n, |chunk|, n);
    var step, size := BatchSize(n, |chunk|), BatchBlocks(n, |chunk|) * BLOCK;
    Spread(chunk, step, size, Target(disk, lba, size, n), n)
  }

  /** The assignments of a well placed batch, chunk by chunk. */
  lemma BatchWrites(d: Data, buffer: nat, lba: nat, n: nat, len: nat)
    requires 0 < n && n * BLOCK <= len && buffer + len <= |d.mem|
    requires (lba + BatchAdvance(n, len)) * BLOCK <= |d.disk| && AllFit(d, Stretches(buffer, lba, n, len, true))
    ensures WholeAll(d, Stretches(buffer, lba, n, len, true))
            == d.(disk := Splice(d.disk, lba * BLOCK, KeptOf(Buffered(d, buffer, len), n)))
  {
    hide BatchSize, BatchBlocks, WholeAll, Stretches, Splice, Heads;
    WrittenStretches(d, buffer, lba, n, len, n);
    assert Stretches(buffer, lba, n, len, true)[..n] == Stretches(buffer, lba, n, len, true);
  }

  lemma BatchReads(d: Data, buffer: nat, lba: nat, n: nat, len: nat)
    requires 0 < n && n * BLOCK <= len && buffer + len <= |d.mem|
    requires (lba + BatchAdvance(n, len)) * BLOCK <= |d.disk| && AllFit(d, Stretches(buffer, lba, n, len, false))
    ensures WholeAll(d, Stretches(buffer, lba, n, len, false))
            == d.(mem := Splice(d.mem, buffer, FilledOf(Buffered(d, buffer, len), d.disk, lba, n)))
  {
    hide BatchSize, BatchBlocks, WholeAll, Stretches, Splice, Spread, Target;
    ReadStretches(d, buffer, lba, n, len, n);
    assert Stretches(buffer, lba, n, len, false)[..n] == Stretches(buffer, lba, n, len, false);
  }

  /** A batch that divides its chunk moves all of it. */
  lemma DividedChunk(chunk: seq<Byte>, disk: seq<Byte>, lba: nat, n: nat)
    requires 0 < n && n * BLOCK <= |chunk| && |chunk| % (n * BLOCK) == 0
    ensures BatchAdvance(n, |chunk|) * BLOCK == |chunk| && KeptOf(chunk, n) == chunk
    ensures lba * BLOCK + |chunk| <= |disk| ==> FilledOf(chunk, disk, lba, n) == BlockBytes(disk, lba, |chunk|)
  {
    hide BatchSize, BatchBlocks, Spread, Heads, Splice;
    var step := BatchSize(n, |chunk|);
    DividesIff(n, |chunk|);
    WholeStep(n, |chunk|);
    Regroup(n, BatchBlocks(n, |chunk|));
    HeadBounds(lba, n, |chunk|, n);
    HeadsWhole(chunk, step, n);
    assert At(n, step) == |chunk|;
    assert chunk[..At(n, step)] == chunk;
    if lba * BLOCK + |chunk| <= |disk| {
      var target := Target(disk, lba, step, n);
      SpreadWhole(chunk, step, target, n);
      AllNew(chunk, target);
    }
  }

  lemma AllNew(s: seq<Byte>, t: seq<Byte>)
    requires |s| == |t|
    ensures t[..|s|] == t && Splice(s, 0, t) == t
  {
  }

  // ---------------------------------------------------------------- a whole call

  /** Every batch from `off` on has commands, all of them well placed; `listed` says whether the list
      can be used. */
  ghost predicate PlacedFrom(off: nat, total: nat, batchLen: nat, listed: bool)
    requires off <= total
    decreases total - off
  {
    off == total ||
    var len := BatchChunkLen(off, total);
    var n := BatchLen(batchLen, len);
    && n > 0 && WellPlaced(n, len) && (BatchBlocks(n, len) * BLOCK <= 2 * PAGE || listed)
    && PlacedFrom(off + len, total, batchLen, listed)
  }

  /** What of the data batched_write moves from `off` on: the heads of all stretches. */
  function KeptFrom(bytes: seq<Byte>, batchLen: nat, off: nat): (r: seq<Byte>)
    requires off <= |bytes|
    ensures |r| == BlocksFrom(off, |bytes|, batchLen) * BLOCK
    decreases |bytes| - off
  {
    if off == |bytes| then []
    else
      var len := BatchChunkLen(off, |bytes|);
      var n := BatchLen(batchLen, len);
      if n == 0 then [] else KeptOf(bytes[off..off + len], n) + KeptFrom(bytes, batchLen, off + len)
  }

  /** What batched_read delivers from `off` on, the buffer holding `buf`: the blocks in the heads of
      all stretches, and between them what the buffer held, which may come from an earlier chunk. */
  function ReadFrom(disk: seq<Byte>, lba: nat, total: nat, batchLen: nat, off: nat, buf: seq<Byte>): (r: seq<Byte>)
    requires off <= total && BatchChunkLen(off, total) <= |buf|
    requires (lba + BlocksFrom(off, total, batchLen)) * BLOCK <= |disk|
    decreases total - off
  {
    if off == total then []
    else
      var len := BatchChunkLen(off, total);
      var n := BatchLen(batchLen, len);
      if n == 0 then []
      else
        var got := FilledOf(buf[..len], disk, lba, n);
        got + ReadFrom(disk, lba + BatchAdvance(n, len), total, batchLen, off + len, got + buf[len..])
  }

  /** What the whole of a batched call relies on, beyond its placement: the blocks it names exist,
      and the driver's buffer takes a chunk. */
  ghost predicate CallUsable(d: Data, buffer: nat, size: nat, lba: nat, total: nat, batchLen: nat) {
    && BatchChunkLen(0, total) <= size && lba + total / BLOCK <= U64
    && (lba + BlocksFrom(0, total, batchLen)) * BLOCK <= |d.disk|
    && buffer % PAGE == 0 && buffer + size <= |d.mem| && Apart(d, buffer, size)
  }

  /** After `off` bytes of a call that began with d0. */
  ghost predicate Onward(d0: Data, d: Data, buffer: nat, lba: nat, lba': nat, total: nat, batchLen: nat, off: nat) {
    && SameShape(d0, d) && Advanced(lba, total, batchLen, off, lba')
    && PlacedFrom(off, total, batchLen, InitFill(d0, buffer))
  }

  lemma NextPlaced(off: nat, total: nat, batchLen: nat, listed: bool)
    requires off < total && PlacedFrom(off, total, batchLen, listed)
    ensures var len := BatchChunkLen(off, total);
      var n := BatchLen(batchLen, len);
      && n > 0 && n * BLOCK <= len && WellPlaced(n, len) && (BatchBlocks(n, len) * BLOCK <= 2 * PAGE || listed)
      && PlacedFrom(off + len, total, batchLen, listed)
  {
    hide WellPlaced, BatchBlocks;
  }

  lemma NextBlocks(lba: nat, lba': nat, total: nat, batchLen: nat, off: nat)
    requires Advanced(lba, total, batchLen, off, lba') && off < total
    requires BatchLen(batchLen, BatchChunkLen(off, total)) > 0
    ensures var len := BatchChunkLen(off, total);
      var adv := BatchAdvance(BatchLen(batchLen, len), len);
      && lba' + len / BLOCK <= lba + total / BLOCK && Advanced(lba, total, batchLen, off + len, lba' + adv)
      && lba' + adv <= lba + BlocksFrom(0, total, batchLen)
  {
    AdvancedStep(lba, total, batchLen, off, lba');
    hide BatchAdvance, BatchLen, BatchChunkLen, Advanced;
    var len := BatchChunkLen(off, total);
    AdvancedOnward(lba, total, batchLen, off + len, lba' + BatchAdvance(BatchLen(batchLen, len), len));
  }

  lemma ApartPart(d: Data, d': Data, buffer: nat, size: nat, len: nat)
    requires Apart(d, buffer, size) && SameShape(d, d') && len <= size
    ensures Apart(d', buffer, len) && InitFill(d, buffer) == InitFill(d', buffer)
  {
  }

  /** The conditions for the call give those for its next batch. */
  lemma NextUsable(d0: Data, d: Data, buffer: nat, size: nat, lba: nat, lba': nat, total: nat, batchLen: nat, off: nat)
    requires CallUsable(d0, buffer, size, lba, total, batchLen) && off < total
    requires Onward(d0, d, buffer, lba, lba', total, batchLen, off)
    ensures var len := BatchChunkLen(off, total);
      var n := BatchLen(batchLen, len);
      && len <= size && n > 0 && n * BLOCK <= len && WellPlaced(n, len) && BatchUsable(d, buffer, lba', n, len)
      && Advanced(lba, total, batchLen, off + len, lba' + BatchAdvance(n, len))
      && PlacedFrom(off + len, total, batchLen, InitFill(d0, buffer))
  {
    NextPlaced(off, total, batchLen, InitFill(d0, buffer));
    NextBlocks(lba, lba', total, batchLen, off);
    hide WellPlaced, InitFill, Apart, BatchBlocks, BatchAdvance, BlocksFrom, BatchLen, Advanced, PlacedFrom;
    ApartPart(d0, d, buffer, size, BatchChunkLen(off, total));
  }

  /** The condition for a whole call: it can be seen before the call, and does not ask the batches to
      divide their chunks. */
  ghost predicate CallPlaced(d: Data, buffer: nat, size: nat, lba: nat, total: nat, batchLen: nat) {
    CallUsable(d, buffer, size, lba, total, batchLen) && PlacedFrom(0, total, batchLen, InitFill(d, buffer))
  }

  lemma BlocksBound(d0: Data, d: Data, buffer: nat, size: nat, lba: nat, lba': nat, total: nat, batchLen: nat, off: nat)
    requires CallUsable(d0, buffer, size, lba, total, batchLen) && SameShape(d0, d)
    requires Advanced(lba, total, batchLen, off, lba')
    ensures (lba' + BlocksFrom(off, total, batchLen)) * BLOCK <= |d.disk|
  {
    hide BlocksFrom, Apart;
  }

  // ---------------------------------------------------------------- batched_write

  /** The disk with what batched_write has yet to write from `off` on. */
  function Written(disk: seq<Byte>, lba: nat, bytes: seq<Byte>, batchLen: nat, off: nat): (r: seq<Byte>)
    requires off <= |bytes| && (lba + BlocksFrom(off, |bytes|, batchLen)) * BLOCK <= |disk|
    ensures |r| == |disk|
  {
    Splice(disk, lba * BLOCK, KeptFrom(bytes, batchLen, off))
  }

  /** The loop of batched_write after `off` bytes: what is on the disk, together with what is still to
      come, is what the whole call writes. */
  ghost predicate Writing(d0: Data, d: Data, buffer: nat, size: nat, lba: nat, lba': nat, bytes: seq<Byte>,
                          batchLen: nat, off: nat) {
    off <= |bytes| && (CallPlaced(d0, buffer, size, lba, |bytes|, batchLen) ==>
      && Onward(d0, d, buffer, lba, lba', |bytes|, batchLen, off)
      && (lba + BlocksFrom(0, |bytes|, batchLen)) * BLOCK <= |d0.disk|
      && (lba' + BlocksFrom(off, |bytes|, batchLen)) * BLOCK <= |d.disk|
      && Written(d.disk, lba', bytes, batchLen, off) == Written(d0.disk, lba, bytes, batchLen, 0))
  }

  lemma WritingStart(d: Data, buffer: nat, size: nat, lba: nat, bytes: seq<Byte>, batchLen: nat)
    ensures Writing(d, d, buffer, size, lba, lba, bytes, batchLen, 0)
  {
    hide PlacedFrom, InitFill, Apart, BlocksFrom, KeptFrom;
  }

  lemma WrittenNext(disk: seq<Byte>, lba: nat, bytes: seq<Byte>, batchLen: nat, off: nat)
    requires off < |bytes| && (lba + BlocksFrom(off, |bytes|, batchLen)) * BLOCK <= |disk|
    requires BatchLen(batchLen, BatchChunkLen(off, |bytes|)) > 0
    ensures var len := BatchChunkLen(off, |bytes|);
      var n := BatchLen(batchLen, len);
      && n * BLOCK <= len && (lba + BatchAdvance(n, len) + BlocksFrom(off + len, |bytes|, batchLen)) * BLOCK <= |disk|
      && Written(disk, lba, bytes, batchLen, off)
         == Written(Splice(disk, lba * BLOCK, KeptOf(bytes[off..off + len], n)), lba + BatchAdvance(n, len), bytes,
                    batchLen, off + len)
  {
    hide BatchAdvance, Splice, KeptOf;
    var len := BatchChunkLen(off, |bytes|);
    var n := BatchLen(batchLen, len);
    SpliceTwice(disk, lba * BLOCK, KeptOf(bytes[off..off + len], n), KeptFrom(bytes, batchLen, off + len));
  }

  lemma WritingStep(d0: Data, d: Data, d1: Data, e: Data, buffer: nat, size: nat, lba: nat, lba': nat, bytes: seq<Byte>,
                    batchLen: nat, off: nat)
    requires Writing(d0, d, buffer, size, lba, lba', bytes, batchLen, off) && off < |bytes|
    requires CallPlaced(d0, buffer, size, lba, |bytes|, batchLen)
    requires var len := BatchChunkLen(off, |bytes|);
      var n := BatchLen(batchLen, len);
      && n > 0 && buffer + len <= |d.mem| && d1 == d.(mem := Splice(d.mem, buffer, bytes[off..off + len]))
      && AllFit(d1, Stretches(buffer, lba', n, len, true)) && e == WholeAll(d1, Stretches(buffer, lba', n, len, true))
    ensures var len := BatchChunkLen(off, |bytes|);
      var n := BatchLen(batchLen, len);
      Writing(d0, e, buffer, size, lba, lba' + BatchAdvance(n, len), bytes, batchLen, off + len)
  {
    hide CallUsable, PlacedFrom, Splice, BatchAdvance, BatchLen, WholeAll, Stretches, KeptOf, Written, Advanced,
         BlocksFrom, AllFit, WellPlaced, BatchUsable;
    var total := |bytes|;
    var len := BatchChunkLen(off, total);
    var n := BatchLen(batchLen, len);
    NextUsable(d0, d, buffer, size, lba, lba', total, batchLen, off);
    WrittenNext(d.disk, lba', bytes, batchLen, off);
    ChunkCopied(d, d1, buffer, bytes[off..off + len]);
    BatchWrites(d1, buffer, lba', n, len);
    BlocksBound(d0, e, buffer, size, lba, lba' + BatchAdvance(n, len), total, batchLen, off + len);
  }

  lemma ChunkCopied(d: Data, d1: Data, buffer: nat, chunk: seq<Byte>)
    requires buffer + |chunk| <= |d.mem| && d1 == d.(mem := Splice(d.mem, buffer, chunk))
    ensures Buffered(d1, buffer, |chunk|) == chunk
  {
  }

  lemma WritingDone(d0: Data, d: Data, buffer: nat, size: nat, lba: nat, lba': nat, bytes: seq<Byte>, batchLen: nat)
    requires Writing(d0, d, buffer, size, lba, lba', bytes, batchLen, |bytes|)
    requires CallPlaced(d0, buffer, size, lba, |bytes|, batchLen)
    ensures (lba + BlocksFrom(0, |bytes|, batchLen)) * BLOCK <= |d0.disk|
    ensures d.disk == Written(d0.disk, lba, bytes, batchLen, 0)
  {
    hide PlacedFrom, CallUsable, BlocksFrom, Advanced;
    SpliceNone(d.disk, lba' * BLOCK);
  }

  // ---------------------------------------------------------------- batched_read

  /** The loop of batched_read, having `got` so far. */
  ghost predicate Reading(d0: Data, d: Data, buffer: nat, size: nat, lba: nat, lba': nat, got: seq<Byte>, total: nat,
                          batchLen: nat) {
    |got| <= total && (CallPlaced(d0, buffer, size, lba, total, batchLen) ==>
      && Onward(d0, d, buffer, lba, lba', total, batchLen, |got|) && d.disk == d0.disk && buffer + size <= |d.mem|
      && BatchChunkLen(|got|, total) <= size && BatchChunkLen(0, total) <= size
      && (lba + BlocksFrom(0, total, batchLen)) * BLOCK <= |d0.disk|
      && (lba' + BlocksFrom(|got|, total, batchLen)) * BLOCK <= |d.disk|
      && got + ReadFrom(d.disk, lba', total, batchLen, |got|, Buffered(d, buffer, size))
         == ReadFrom(d0.disk, lba, total, batchLen, 0, Buffered(d0, buffer, size)))
  }

  lemma ReadingStart(d: Data, buffer: nat, size: nat, lba: nat, total: nat, batchLen: nat)
    ensures Reading(d, d, buffer, size, lba, lba, [], total, batchLen)
  {
    hide PlacedFrom, InitFill, Apart, BlocksFrom, ReadFrom;
  }

  lemma ReadFromNext(disk: seq<Byte>, lba: nat, total: nat, batchLen: nat, off: nat, buf: seq<Byte>)
    requires off < total && BatchChunkLen(off, total) <= |buf|
    requires (lba + BlocksFrom(off, total, batchLen)) * BLOCK <= |disk|
    requires BatchLen(batchLen, BatchChunkLen(off, total)) > 0
    ensures var len := BatchChunkLen(off, total);
      var n := BatchLen(batchLen, len);
      && n * BLOCK <= len && (lba + BatchAdvance(n, len) + BlocksFrom(off + len, total, batchLen)) * BLOCK <= |disk|
      && (lba + BatchAdvance(n, len)) * BLOCK <= |disk| && BatchChunkLen(off + len, total) <= |buf|
      && var got := FilledOf(buf[..len], disk, lba, n);
         ReadFrom(disk, lba, total, batchLen, off, buf)
         == got + ReadFrom(disk, lba + BatchAdvance(n, len), total, batchLen, off + len, got + buf[len..])
  {
    hide BatchAdvance, FilledOf;
  }

  /** The buffer after a chunk. */
  lemma BufferFilled(d: Data, e: Data, buffer: nat, size: nat, got: seq<Byte>)
    requires |got| <= size && buffer + size <= |d.mem| && e == d.(mem := Splice(d.mem, buffer, got))
    ensures Buffered(e, buffer, |got|) == got && Buffered(e, buffer, size) == got + Buffered(d, buffer, size)[|got|..]
    ensures Buffered(d, buffer, |got|) == Buffered(d, buffer, size)[..|got|]
  {
  }

  lemma ReadingStep(d0: Data, d: Data, e: Data, buffer: nat, size: nat, lba: nat, lba': nat, got: seq<Byte>, total: nat,
                    batchLen: nat)
    requires Reading(d0, d, buffer, size, lba, lba', got, total, batchLen) && |got| < total
    requires CallPlaced(d0, buffer, size, lba, total, batchLen)
    requires var len := BatchChunkLen(|got|, total);
      var n := BatchLen(batchLen, len);
      && n > 0 && buffer + len <= |e.mem|
      && AllFit(d, Stretches(buffer, lba', n, len, false)) && e == WholeAll(d, Stretches(buffer, lba', n, len, false))
    ensures var len := BatchChunkLen(|got|, total);
      var n := BatchLen(batchLen, len);
      Reading(d0, e, buffer, size, lba, lba' + BatchAdvance(n, len), got + Buffered(e, buffer, len), total, batchLen)
  {
    hide CallUsable, PlacedFrom, Splice, BatchAdvance, BatchLen, WholeAll, Stretches, FilledOf, ReadFrom, Advanced,
         BlocksFrom, AllFit, WellPlaced, BatchUsable, Buffered;
    var len := BatchChunkLen(|got|, total);
    var n := BatchLen(batchLen, len);
    NextUsable(d0, d, buffer, size, lba, lba', total, batchLen, |got|);
    var buf := Buffered(d, buffer, size);
    ReadFromNext(d.disk, lba', total, batchLen, |got|, buf);
    BatchReads(d, buffer, lba', n, len);
    var filled := FilledOf(buf[..len], d.disk, lba', n);
    ChunkPrefix(d, buffer, size, len);
    BufferFilled(d, e, buffer, size, filled);
    BlocksBound(d0, e, buffer, size, lba, lba' + BatchAdvance(n, len), total, batchLen, |got| + len);
  }

  lemma ChunkPrefix(d: Data, buffer: nat, size: nat, len: nat)
    requires len <= size && buffer + size <= |d.mem|
    ensures Buffered(d, buffer, len) == Buffered(d, buffer, size)[..len]
  {
  }

  lemma ReadingDone(d0: Data, d: Data, buffer: nat, size: nat, lba: nat, lba': nat, got: seq<Byte>, batchLen: nat)
    requires Reading(d0, d, buffer, size, lba, lba', got, |got|, batchLen)
    requires CallPlaced(d0, buffer, size, lba, |got|, batchLen)
    ensures BatchChunkLen(0, |got|) <= size && buffer + size <= |d0.mem| && d.disk == d0.disk
    ensures (lba + BlocksFrom(0, |got|, batchLen)) * BLOCK <= |d0.disk|
    ensures got == ReadFrom(d0.disk, lba, |got|, batchLen, 0, Buffered(d0, buffer, size))
  {
    hide PlacedFrom, CallUsable, BlocksFrom, Advanced;
  }

  // ---------------------------------------------------------------- without remainders

  /** A call tiles its chunks exactly if its batches are well placed and divide them. */
  lemma {:induction false} TilesFromIff(off: nat, total: nat, batchLen: nat, listed: bool)
    requires off <= total
    ensures TilesFrom(off, total, batchLen, listed)
            <==> PlacedFrom(off, total, batchLen, listed) && DividesFrom(off, total, batchLen)
    decreases total - off
  {
    if off < total {
      hide Placed, BatchBlocks, BatchSize, BatchLen, Tiles, WellPlaced;
      var len := BatchChunkLen(off, total);
      var n := BatchLen(batchLen, len);
      if n > 0 {
        TilesPlacedIff(n, len);
        TilesFromIff(off + len, total, batchLen, listed);
      } else {
        assert !Tiles(n, len) by { NoTiles(len); }
      }
    }
  }

  lemma NoTiles(len: nat)
    ensures !Tiles(0, len)
  {
  }

  lemma TilesPlacedIff(n: nat, len: nat)
    requires n > 0
    ensures Tiles(n, len) <==> WellPlaced(n, len) && len % (n * BLOCK) == 0
    ensures Tiles(n, len) ==> BatchSize(n, len) == BatchBlocks(n, len) * BLOCK
  {
    hide Placed, BatchBlocks, BatchSize;
    TilesIff(n, len);
    if Tiles(n, len) {
      TilesSize(n, len);
    } else if len % (n * BLOCK) == 0 {
      DividesIff(n, len);
      WholeStep(n, len);
    }
  }

  lemma ChunkBounds(off: nat, total: nat)
    requires off < total
    ensures 0 < BatchChunkLen(off, total) <= total - off && BatchChunkLen(off, total) <= BATCH_CHUNK
  {
  }

  /** The data is moved whole, and the read delivers the blocks, exactly as far as every batch divides
      its chunk. */
  lemma {:induction false} KeptIff(bytes: seq<Byte>, batchLen: nat, off: nat)
    requires off <= |bytes|
    ensures KeptFrom(bytes, batchLen, off) == bytes[off..] <==> DividesFrom(off, |bytes|, batchLen)
    decreases |bytes| - off
  {
    hide BatchLen, KeptOf, BatchAdvance, BatchChunkLen, DividesFrom, BlocksFrom;
    BlocksFromIff(off, |bytes|, batchLen);
    if off < |bytes| && DividesFrom(off, |bytes|, batchLen) {
      var len := BatchChunkLen(off, |bytes|);
      ChunkBounds(off, |bytes|);
      var chunk := bytes[off..off + len];
      DividesNext(chunk, [], 0, |bytes|, batchLen, off);
      KeptIff(bytes, batchLen, off + len);
      assert bytes[off..] == chunk + bytes[off + len..];
    }
  }

  /** `len` bytes of the disk, from block lba on. */
  function BlockBytes(disk: seq<Byte>, lba: nat, len: nat): (r: seq<Byte>)
    requires lba * BLOCK + len <= |disk|
    ensures |r| == len
  {
    disk[lba * BLOCK..lba * BLOCK + len]
  }

  lemma DividesNext(chunk: seq<Byte>, disk: seq<Byte>, lba: nat, total: nat, batchLen: nat, off: nat)
    requires off < total && |chunk| == BatchChunkLen(off, total) && DividesFrom(off, total, batchLen)
    ensures 0 < |chunk| <= total - off
    ensures var n := BatchLen(batchLen, |chunk|);
      && 0 < n && n * BLOCK <= |chunk| && DividesFrom(off + |chunk|, total, batchLen)
      && (lba + BatchAdvance(n, |chunk|)) * BLOCK == lba * BLOCK + |chunk|
      && KeptOf(chunk, n) == chunk
      && (lba * BLOCK + |chunk| <= |disk| ==>
            FilledOf(chunk, disk, lba, n) == BlockBytes(disk, lba, |chunk|))
  {
    hide BatchAdvance, FilledOf, KeptOf;
    DividedChunk(chunk, disk, lba, BatchLen(batchLen, |chunk|));
  }

  lemma JoinBlocks(disk: seq<Byte>, lba: nat, next: nat, got: seq<Byte>, more: seq<Byte>, rest: nat)
    requires next * BLOCK == lba * BLOCK + |got| && lba * BLOCK + (|got| + rest) <= |disk|
    requires got == BlockBytes(disk, lba, |got|) && more == BlockBytes(disk, next, rest)
    ensures got + more == BlockBytes(disk, lba, |got| + rest)
  {
  }

  lemma ReadNothing(disk: seq<Byte>, lba: nat, total: nat, batchLen: nat, buf: seq<Byte>)
    requires lba * BLOCK <= |disk|
    ensures ReadFrom(disk, lba, total, batchLen, total, buf) == BlockBytes(disk, lba, 0)
  {
  }

  lemma {:induction false} ReadWhole(disk: seq<Byte>, lba: nat, total: nat, batchLen: nat, off: nat, buf: seq<Byte>)
    requires off <= total && BatchChunkLen(off, total) <= |buf| && DividesFrom(off, total, batchLen)
    requires (lba + BlocksFrom(off, total, batchLen)) * BLOCK <= |disk|
    ensures lba * BLOCK + (total - off) <= |disk|
    ensures ReadFrom(disk, lba, total, batchLen, off, buf) == BlockBytes(disk, lba, total - off)
    decreases total - off
  {
    hide BatchLen, BatchChunkLen, FilledOf, BatchAdvance, ReadFrom, BlocksFrom, DividesFrom, BlockBytes;
    BlocksFromIff(off, total, batchLen);
    if off == total {
      ReadNothing(disk, lba, total, batchLen, buf);
    } else {
      var len := BatchChunkLen(off, total);
      DividesNext(buf[..len], disk, lba, total, batchLen, off);
      ReadFromNext(disk, lba, total, batchLen, off, buf);
      var n := BatchLen(batchLen, len);
      var next, got := lba + BatchAdvance(n, len), FilledOf(buf[..len], disk, lba, n);
      var buf' := got + buf[len..];
      ReadWhole(disk, next, total, batchLen, off + len, buf');
      var rest: nat := total - off - len;
      JoinBlocks(disk, lba, next, got, ReadFrom(disk, next, total, batchLen, off + len, buf'), rest);
    }
  }

  /** The stretches of a batch that tiles its chunk are the assignment of the chunk. */
  lemma TiledStretches(d: Data, buffer: nat, lba: nat, n: nat, len: nat, write: bool)
    requires n > 0 && Tiles(n, len) && n * BLOCK <= len && BatchReady(d, buffer, lba, n, len, write)
    ensures WellPlaced(n, len) && BatchUsable(d, buffer, lba, n, len)
    ensures AllFit(d, Stretches(buffer, lba, n, len, write)) ==>
              WholeAll(d, Stretches(buffer, lba, n, len, write)) == Whole(d, Io(write, lba * BLOCK, buffer, len))
  {
    hide BatchBlocks, BatchSize, BatchAdvance, Tiles, WellPlaced, Stretches, WholeAll, AllFit, Apart, InitFill, Splice,
         KeptOf, FilledOf;
    TilesPlacedIff(n, len);
    var chunk := Buffered(d, buffer, len);
    DividedChunk(chunk, d.disk, lba, n);
    if AllFit(d, Stretches(buffer, lba, n, len, write)) {
      if write {
        BatchWrites(d, buffer, lba, n, len);
      } else {
        BatchReads(d, buffer, lba, n, len);
      }
    }
  }

  // ---------------------------------------------------------------- what a caller can check

  /** No batch from `off` on is empty. */
  predicate CommandsFrom(off: nat, total: nat, batchLen: nat)
    requires off <= total
    decreases total - off
  {
    off == total ||
    var len := BatchChunkLen(off, total);
    BatchLen(batchLen, len) > 0 && CommandsFrom(off + len, total, batchLen)
  }

  /** As a caller can see it: some commands are asked for, and what is left over of whole chunks of 2 MiB
      is nothing, or 512 bytes and more. */
  predicate NoEmptyBatch(total: nat, batchLen: nat) {
    total == 0 || (batchLen > 0 && (total % 0x20_0000 == 0 || total % 0x20_0000 >= 512))
  }

  /** The batches have commands if and only if some were asked for and the last chunk has a block. */
  lemma {:induction false} CommandsFromIff(off: nat, total: nat, batchLen: nat)
    requires off <= total
    ensures CommandsFrom(off, total, batchLen) <==>
            NoEmptyBatch(total - off, batchLen)
    decreases total - off
  {
    if off < total {
      hide BatchLen, CommandsFrom;
      var len := BatchChunkLen(off, total);
      BatchLenExact(batchLen, len);
      NextCommands(off, total, batchLen);
      CommandsFromIff(off + len, total, batchLen);
      LessAChunk(total - off);
    }
  }

  lemma NextCommands(off: nat, total: nat, batchLen: nat)
    requires off < total
    ensures var len := BatchChunkLen(off, total);
      CommandsFrom(off, total, batchLen) <==> BatchLen(batchLen, len) > 0 && CommandsFrom(off + len, total, batchLen)
  {
  }

  lemma LessAChunk(rest: nat)
    ensures rest >= 0x20_0000 ==> (rest - 0x20_0000) % 0x20_0000 == rest % 0x20_0000
    ensures rest < 0x20_0000 ==> rest % 0x20_0000 == rest
  {
  }

  /** A call whose batches are all well placed has no empty batch. */
  lemma {:induction false} PlacedCommands(off: nat, total: nat, batchLen: nat, listed: bool)
    requires off <= total && PlacedFrom(off, total, batchLen, listed)
    ensures CommandsFrom(off, total, batchLen)
    decreases total - off
  {
    hide WellPlaced, BatchBlocks;
    if off < total {
      PlacedCommands(off + BatchChunkLen(off, total), total, batchLen, listed);
    }
  }

  /** Batches of 256, 512, 1024, 2048 or at least 4096 commands move whole chunks of 2 MiB as they are. */
  lemma {:induction false} WholeChunksTile(off: nat, total: nat, batchLen: nat, listed: bool)
    requires off <= total && (total - off) % 0x20_0000 == 0
    requires batchLen in {256, 512, 1024, 2048} || batchLen >= 4096
    ensures TilesFrom(off, total, batchLen, listed)
    decreases total - off
  {
    if off < total {
      hide Tiles, BatchLen;
      LessAChunk(total - off);
      ChunkTiles(batchLen);
      WholeChunksTile(off + 0x20_0000, total, batchLen, listed);
    }
  }

  lemma ChunkTiles(batchLen: nat)
    requires batchLen in {256, 512, 1024, 2048} || batchLen >= 4096
    ensures var n := BatchLen(batchLen, 0x20_0000);
      Tiles(n, 0x20_0000) && BatchSize(n, 0x20_0000) <= 2 * PAGE
  {
    var n := BatchLen(batchLen, 0x20_0000);
    assert n == if batchLen >= 4096 then 4096 else batchLen;
    var step := BatchSize(n, 0x20_0000);
    assert step in {512, 1024, 2048, 4096, 8192} && n * step == 0x20_0000;
    forall i | 0 <= i < n
      ensures Placed(i * step, step)
    {
      PowersPlaced(i, step);
    }
  }
}
