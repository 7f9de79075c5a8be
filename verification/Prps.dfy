/** The PRP fields the driver computes on its different paths, each with the exact condition
    under which the controller expands them to the intended buffer. */
module Prps {
  import opened Arithmetic
  import opened Memory
  import opened Transfers

  /** The list page does not overlap the buffer: they are separate allocations. */
  predicate Apart(d: Data, addr: nat, bytes: nat) {
    d.listPhys % PAGE == 0 && |d.list| == 512 && (d.listPhys + PAGE <= addr || addr + bytes <= d.listPhys)
  }

  /** PRP2 of NvmeQueuePair::submit_io: the page after the first, if more than a page is moved. */
  function NextPage(addr: nat, bytes: nat): nat {
    if bytes <= PAGE then 0 else addr + PAGE
  }

  /** Transfers of up to two pages are described correctly exactly when they are page-aligned, or
      dword-aligned and inside one page. */
  lemma NextPageIff(d: Data, addr: nat, bytes: nat)
    requires 0 < bytes <= 2 * PAGE && Apart(d, addr, bytes)
    ensures Describes(d, addr, NextPage(addr, bytes), addr, bytes)
            <==> addr % DWORD == 0 && (addr % PAGE == 0 || addr % PAGE + bytes <= PAGE)
  {
    hide ListSegments, ListEntry, Contiguous;
    var ptr1 := NextPage(addr, bytes);
    var first := FirstPart(addr);
    var e := Expand(d, addr, ptr1, bytes);
    if addr % DWORD != 0 {
      assert e.Fault?;
    } else if bytes <= first {
      OneSegment(addr, bytes);
    } else if bytes - first <= PAGE {
      NextAligned(addr, bytes);
      if e.Segments? {
        TwoSegments(addr, first, ptr1, bytes);
      }
    } else {
      NoList(d, addr, bytes, bytes - first);
    }
  }

  lemma OneSegment(addr: nat, bytes: nat)
    requires 0 < bytes
    ensures Contiguous([Segment(addr, bytes)], addr, bytes)
  {
    assert [Segment(addr, bytes)][1..] == [];
  }

  lemma TwoSegments(addr: nat, first: nat, next: nat, bytes: nat)
    requires 0 < first < bytes
    ensures Contiguous([Segment(addr, first), Segment(next, bytes - first)], addr, bytes) <==> next == addr + first
  {
    var segs := [Segment(addr, first), Segment(next, bytes - first)];
    assert segs[1..] == [Segment(next, bytes - first)];
    if next == addr + first {
      OneSegment(next, bytes - first);
    }
  }

  /** The page after a transfer's first page, if there is one, begins a page exactly if the transfer
      does. */
  lemma NextAligned(addr: nat, bytes: nat)
    requires FirstPart(addr) < bytes <= FirstPart(addr) + PAGE
    ensures addr % PAGE == 0 ==>
              NextPage(addr, bytes) == addr + FirstPart(addr) && (addr + FirstPart(addr)) % PAGE == 0
    ensures addr % PAGE != 0 ==> NextPage(addr, bytes) != addr + FirstPart(addr)
  {
  }

  /** Addresses that begin a page are dword-aligned. */
  lemma WordAligned(phys: nat, from: nat)
    requires phys % PAGE == 0 && from % PAGE == 0
    ensures (phys + from) % PAGE == 0 && (phys + from) % DWORD == 0
  {
    Quotient(phys, PAGE);
    Quotient(from, PAGE);
    var q := phys / PAGE + from / PAGE;
    DivModUnique(phys + from, PAGE, q, 0);
    DivModUnique(phys + from, DWORD, 1024 * q, 0);
  }

  /** An address of the buffer is not one of the list page. */
  lemma NoList(d: Data, addr: nat, bytes: nat, rest: nat)
    requires Apart(d, addr, bytes) && PAGE < bytes && 0 < rest
    ensures ListSegments(d, NextPage(addr, bytes), rest).Fault?
  {
    assert ListEntry(d, addr + PAGE).Fault?;
  }

  /** Entry j of the list from position `from` on is page j of the buffer continuing at addr. */
  ghost predicate ListsPages(d: Data, from: nat, addr: nat, pages: nat) {
    && from + pages <= |d.list|
    && forall k :: from <= k < from + pages ==> d.list[k] == addr + (k - from) * PAGE
  }

  function Pages(bytes: nat): nat { (bytes + PAGE - 1) / PAGE }

  /** How much of the rest of a transfer the next page takes. */
  function PageOf(bytes: nat): nat { if bytes <= PAGE then bytes else PAGE }

  lemma EntryAt(d: Data, from: nat)
    requires from < |d.list|
    ensures ListEntry(d, d.listPhys + 8 * from) == Segments([Segment(d.list[from], PAGE)])
  {
  }

  /** The next entry, and the rest. */
  lemma ListStep(d: Data, from: nat, addr: nat, bytes: nat)
    requires bytes > 0 && from < |d.list| && (bytes > PAGE ==> from + 1 < |d.list|) && addr % PAGE == 0
    ensures var e := ListSegments(d, d.listPhys + 8 * from, bytes);
      var more := ListSegments(d, d.listPhys + 8 * (from + 1), bytes - PageOf(bytes));
      (e.Segments? && Contiguous(e.segs, addr, bytes)) <==>
      d.list[from] == addr && more.Segments? && Contiguous(more.segs, addr + PageOf(bytes), bytes - PageOf(bytes))
  {
    EntryAt(d, from);
    var p := d.listPhys + 8 * from;
    assert (p - d.listPhys) / 8 == from && p + 8 == d.listPhys + 8 * (from + 1);
    hide ListEntry;
    var e, more := ListSegments(d, p, bytes), ListSegments(d, p + 8, bytes - PageOf(bytes));
    if e.Segments? {
      assert e.segs == [Segment(d.list[from], PageOf(bytes))] + more.segs;
      assert e.segs[1..] == more.segs;
    }
  }

  lemma PagesStep(bytes: nat)
    requires bytes > 0
    ensures Pages(bytes) == 1 + Pages(bytes - PageOf(bytes)) && (bytes > PAGE ==> Pages(bytes) >= 2)
  {
  }

  /** Nothing is left where nothing is left. */
  lemma ListEnd(d: Data, p: nat, addr: nat, addr': nat)
    ensures var e := ListSegments(d, p, 0);
      e.Segments? && Contiguous(e.segs, addr, 0) && Contiguous(e.segs, addr', 0)
  {
  }

  lemma {:induction false} ListContiguousIff(d: Data, from: nat, addr: nat, bytes: nat)
    requires addr % PAGE == 0 && from + Pages(bytes) <= |d.list|
    ensures var e := ListSegments(d, d.listPhys + 8 * from, bytes);
      (e.Segments? && Contiguous(e.segs, addr, bytes)) <==> ListsPages(d, from, addr, Pages(bytes))
    decreases bytes
  {
    hide ListSegments, Contiguous, Pages, ListsPages;
    if bytes == 0 {
      ListEnd(d, d.listPhys + 8 * from, addr, addr);
      NoPages(d, from, addr);
    } else {
      PagesStep(bytes);
      ListStep(d, from, addr, bytes);
      ListContiguousIff(d, from + 1, addr + PAGE, bytes - PageOf(bytes));
      ListsPagesStep(d, from, addr, Pages(bytes));
      if bytes < PAGE {
        ListEnd(d, d.listPhys + 8 * (from + 1), addr + PAGE, addr + bytes);
      }
    }
  }

  lemma NoPages(d: Data, from: nat, addr: nat)
    requires from + Pages(0) <= |d.list|
    ensures ListsPages(d, from, addr, Pages(0))
  {
  }

  lemma ListsPagesStep(d: Data, from: nat, addr: nat, pages: nat)
    requires pages > 0 && from + pages <= |d.list|
    ensures ListsPages(d, from, addr, pages)
            <==> d.list[from] == addr && ListsPages(d, from + 1, addr + PAGE, pages - 1)
  {
  }

  /** How much of a transfer is in the page it starts in. */
  function FirstPart(addr: nat): nat { PAGE - addr % PAGE }

  lemma LongTransfer(d: Data, addr: nat, ptr1: nat, bytes: nat)
    requires bytes > 2 * PAGE && addr % DWORD == 0
    ensures var first := FirstPart(addr);
      var rest := ListSegments(d, ptr1, bytes - first);
      Describes(d, addr, ptr1, addr, bytes) <==> rest.Segments? && Contiguous(rest.segs, addr + first, bytes - first)
  {
    var first := FirstPart(addr);
    var rest := ListSegments(d, ptr1, bytes - first);
    if rest.Segments? {
      var e := Expand(d, addr, ptr1, bytes);
      assert e.segs[1..] == rest.segs;
    }
  }

  /** A dword-aligned transfer of more than two pages through a list pointer into the list page is
      described correctly exactly when the entries from there on are the pages after the first. */
  lemma ListIff(d: Data, addr: nat, bytes: nat, from: nat)
    requires bytes > 2 * PAGE && addr % DWORD == 0 && from + Pages(bytes - FirstPart(addr)) <= |d.list|
    ensures var first := FirstPart(addr);
      Describes(d, addr, d.listPhys + 8 * from, addr, bytes) <==>
      ListsPages(d, from, addr + first, Pages(bytes - first))
  {
    hide Describes, ListSegments, ListsPages;
    NextPageAligned(addr);
    ListContiguousIff(d, from, addr + FirstPart(addr), bytes - FirstPart(addr));
    LongTransfer(d, addr, d.listPhys + 8 * from, bytes);
  }

  lemma NextPageAligned(addr: nat)
    ensures (addr + FirstPart(addr)) % PAGE == 0
  {
    assert addr + FirstPart(addr) == PAGE * (addr / PAGE + 1);
  }

  // ---------------------------------------------------------------- namespace_io

  /** PRP2 of namespace_io: for more than two pages the list, from its entry 1. */
  function NamespacePtr(listPhys: nat, addr: nat, bytes: nat): nat {
    if bytes <= 2 * PAGE then NextPage(addr, bytes) else listPhys + 8
  }

  /** The fill of write_prp: entry i is page i of the chunk. */
  ghost predicate ChunkFill(d: Data, addr: nat, bytes: nat) {
    |d.list| == 512 && forall i :: 0 <= i < bytes / PAGE <= 512 ==> d.list[i] == addr + i * PAGE
  }

  /** The fill of init: entry i - 1 is page i of the driver's own buffer; entry 511 is not set. */
  ghost predicate InitFill(d: Data, buffer: nat) {
    |d.list| == 512 && forall i :: 1 <= i < 512 ==> d.list[i - 1] == buffer + i * PAGE
  }

  /** How many list entries a chunk needs, when `len` bytes are rounded up to blocks. */
  lemma EntriesNeeded(len: nat)
    requires RoundUp(len) > 2 * PAGE
    ensures Pages(RoundUp(len) - PAGE) == if len % PAGE == 0 then len / PAGE - 1 else len / PAGE
  {
    hide RoundUp, Pages;
    RoundUpBounds(len);
    PagesOf(RoundUp(len), len / PAGE, len % PAGE);
  }

  /** `bytes` bytes are q whole pages and r more, rounded up. */
  lemma PagesOf(bytes: nat, q: nat, r: nat)
    requires r < PAGE && q * PAGE + r <= bytes < q * PAGE + r + BLOCK && bytes % BLOCK == 0 && bytes > 2 * PAGE
    ensures Pages(bytes - PAGE) == if r == 0 then q - 1 else q
  {
    Quotient(bytes, BLOCK);
    var blocks := bytes / BLOCK;
    if r == 0 {
      assert blocks == 8 * q;
      DivModUnique(bytes - 1, PAGE, q - 1, PAGE - 1);
    } else {
      assert 8 * q < blocks <= 8 * (q + 1);
      DivModUnique(bytes - 1, PAGE, q, bytes - 1 - q * PAGE);
    }
  }

  /** write_prp's commands: every page-aligned chunk of up to 128 pages whose length is a multiple
      of the page size is described correctly, as is any that rounds to two pages at most. A ragged
      one past two pages is described correctly exactly if the entry after the ones written happens
      to hold its last page. */
  lemma ChunkDescribedIff(d: Data, addr: nat, len: nat)
    requires addr % PAGE == 0 && 0 < len <= 128 * PAGE && Apart(d, addr, RoundUp(len)) && ChunkFill(d, addr, len)
    ensures var bytes := RoundUp(len);
      Describes(d, addr, NamespacePtr(d.listPhys, addr, bytes), addr, bytes) <==>
      bytes <= 2 * PAGE || len % PAGE == 0 || d.list[len / PAGE] == addr + len / PAGE * PAGE
  {
    hide Describes, RoundUp, Pages, ListsPages, ChunkFill, NextPage;
    var bytes := RoundUp(len);
    RoundUpLeast(len, 128 * PAGE);
    WordAligned(addr, 0);
    if bytes <= 2 * PAGE {
      NextPageIff(d, addr, bytes);
    } else {
      EntriesNeeded(len);
      ListIff(d, addr, bytes, 1);
      LastEntry(d, addr, len);
    }
  }

  /** Of the pages after the first, all but the ragged one are listed. */
  lemma LastEntry(d: Data, addr: nat, len: nat)
    requires 0 < len <= 128 * PAGE && ChunkFill(d, addr, len)
    ensures len >= PAGE && len % PAGE == 0 ==> ListsPages(d, 1, addr + PAGE, len / PAGE - 1)
    ensures len % PAGE != 0 ==>
              (ListsPages(d, 1, addr + PAGE, len / PAGE)
               <==> len < PAGE || d.list[len / PAGE] == addr + len / PAGE * PAGE)
  {
    var n := len / PAGE;
    forall k | 1 <= k < n
      ensures d.list[k] == addr + PAGE + (k - 1) * PAGE
    {
    }
    if len % PAGE != 0 && n >= 1 && d.list[n] == addr + n * PAGE {
      forall k | 1 <= k < 1 + n
        ensures d.list[k] == addr + PAGE + (k - 1) * PAGE
      {
      }
    }
  }

  /** With init's fill the same pointer skips a page: write_copied and read_copied, which run
      namespace_io on the driver's buffer, are described correctly exactly up to two pages. */
  lemma CopiedDescribedIff(d: Data, buffer: nat, bytes: nat)
    requires buffer % PAGE == 0 && 0 < bytes <= 128 * PAGE && Apart(d, buffer, bytes) && InitFill(d, buffer)
    ensures Describes(d, buffer, NamespacePtr(d.listPhys, buffer, bytes), buffer, bytes) <==> bytes <= 2 * PAGE
  {
    if bytes <= 2 * PAGE {
      NextPageIff(d, buffer, bytes);
    } else {
      ListIff(d, buffer, bytes, 1);
      assert d.list[2 - 1] == buffer + 2 * PAGE;
    }
  }

  // ---------------------------------------------------------------- batched commands

  /** PRP2 of NvmeDevice::submit_io: the list from byte offset (addr - buffer.phys) / 8. */
  function BatchPtr(listPhys: nat, buffer: nat, addr: nat, bytes: nat): nat
    requires buffer <= addr
  {
    if bytes <= 2 * PAGE then NextPage(addr, bytes) else listPhys + (addr - buffer) / 8
  }

  /** A list that can be used has the entry at p, and a further one if more than a page is left. */
  lemma FirstEntry(d: Data, p: nat, rest: nat)
    requires rest > PAGE && ListSegments(d, p, rest).Segments?
    ensures var segs := ListSegments(d, p, rest).segs;
      && d.listPhys <= p && (p - d.listPhys) % 8 == 0 && (p - d.listPhys) / 8 + 1 < |d.list|
      && segs != [] && segs[0] == Segment(d.list[(p - d.listPhys) / 8], PAGE)
  {
  }

  /** For a command over two pages, at any place of the driver's buffer, that offset is right
      exactly in the first two dwords, where it rounds to the first entry. */
  lemma BatchDescribedIff(d: Data, buffer: nat, addr: nat, bytes: nat)
    requires buffer <= addr && buffer % PAGE == 0 && InitFill(d, buffer)
    requires 2 * PAGE < bytes && addr - buffer + bytes <= 512 * PAGE
    ensures Describes(d, addr, BatchPtr(d.listPhys, buffer, addr, bytes), addr, bytes)
            <==> addr % DWORD == 0 && addr - buffer < 8
  {
    hide Describes, ListSegments, NextPage, Pages, ListsPages;
    if addr % DWORD != 0 {
      Misaligned(d, addr, BatchPtr(d.listPhys, buffer, addr, bytes), bytes);
    } else if addr - buffer < 8 {
      StartPages(buffer, addr, bytes);
      ListIff(d, addr, bytes, 0);
      InitListsPages(d, buffer, Pages(bytes - FirstPart(addr)));
    } else {
      BatchElsewhere(d, buffer, addr, bytes);
    }
  }

  /** From its first bytes on, the transfer continues at the second page, for at most 511 more. */
  lemma StartPages(buffer: nat, addr: nat, bytes: nat)
    requires buffer <= addr < buffer + 8 && buffer % PAGE == 0 && 2 * PAGE < bytes
    requires addr - buffer + bytes <= 512 * PAGE
    ensures addr + FirstPart(addr) == buffer + PAGE && Pages(bytes - FirstPart(addr)) <= 511
  {
    assert addr % PAGE == addr - buffer;
  }

  lemma InitListsPages(d: Data, buffer: nat, pages: nat)
    requires InitFill(d, buffer) && pages <= 511
    ensures ListsPages(d, 0, buffer + PAGE, pages)
  {
    forall k | 0 <= k < pages
      ensures d.list[k] == buffer + PAGE + k * PAGE
    {
      assert d.list[(k + 1) - 1] == buffer + (k + 1) * PAGE;
    }
  }

  /** The page entry o / 64 names is not the one behind byte o of the buffer. */
  lemma WrongEntry(buffer: nat, addr: nat, k: nat)
    requires buffer % PAGE == 0 && buffer + 8 <= addr && (addr - buffer) / 8 == 8 * k
    ensures buffer + (k + 1) * PAGE > addr + FirstPart(addr)
  {
    var o := addr - buffer;
    assert k >= 1 && o < 64 * k + 8;
  }

  lemma Misaligned(d: Data, addr: nat, ptr1: nat, bytes: nat)
    requires addr % DWORD != 0
    ensures !Describes(d, addr, ptr1, addr, bytes)
  {
  }

  lemma BatchElsewhere(d: Data, buffer: nat, addr: nat, bytes: nat)
    requires buffer + 8 <= addr && addr % DWORD == 0 && buffer % PAGE == 0 && InitFill(d, buffer)
    requires 2 * PAGE < bytes
    ensures !Describes(d, addr, BatchPtr(d.listPhys, buffer, addr, bytes), addr, bytes)
  {
    hide Describes, ListSegments, NextPage;
    var first := FirstPart(addr);
    var ptr := d.listPhys + (addr - buffer) / 8;
    LongTransfer(d, addr, ptr, bytes);
    var rest := ListSegments(d, ptr, bytes - first);
    if rest.Segments? {
      FirstEntry(d, ptr, bytes - first);
      var k := (addr - buffer) / 8 / 8;
      WrongEntry(buffer, addr, k);
      assert d.list[(k + 1) - 1] == buffer + (k + 1) * PAGE;
    }
  }
}
