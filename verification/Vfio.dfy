/** src/vfio.rs: allocating and freeing DMA memory, as operations on two address spaces: the
    process's own, and the one the IOMMU gives to the device. The kernel decides where new
    mappings go and may fail any call; everything else is the driver's arithmetic. */
module VfioModel {
  import opened Options
  import opened Transfers
  import opened Memory
  import opened CommandIds

  const HUGE: nat := 0x20_0000

  predicate Within(x: nat, base: nat, size: nat) { base <= x < base + size }

  function Range(base: nat, size: nat): set<nat> {
    set x: nat | base <= x < base + size && Within(x, base, size)
  }

  // ---------------------------------------------------------------- rounding by masking

  /** `v & -(1 << k)`: the k low bits cleared. */
  function ClearLow(v: nat, k: nat): nat {
    if k == 0 then v else 2 * ClearLow(v / 2, k - 1)
  }

  function HighPart(v: nat, k: nat): nat {
    if k == 0 then v else HighPart(v / 2, k - 1)
  }

  lemma {:induction false} ClearLowRounds(v: nat, k: nat)
    ensures ClearLow(v, k) == Shl(1, k) * HighPart(v, k) <= v < ClearLow(v, k) + Shl(1, k)
  {
    if k > 0 {
      ClearLowRounds(v / 2, k - 1);
      Twice(Shl(1, k - 1), HighPart(v / 2, k - 1));
    }
  }

  lemma Twice(a: nat, b: nat)
    ensures 2 * a * b == 2 * (a * b)
  {
  }

  /** The start of the window: `(addr + 2M - 1) & -2M`. */
  function AlignUp(addr: nat): nat { ClearLow(addr + HUGE - 1, 21) }

  /** The mask gives the least multiple of 2 MiB at or above the address. */
  lemma AlignUpLeast(addr: nat, m: nat)
    ensures AlignUp(addr) % HUGE == 0 && addr <= AlignUp(addr) < addr + HUGE
    ensures m % HUGE == 0 && addr <= m ==> AlignUp(addr) <= m
    ensures AlignUp(addr) == addr <==> addr % HUGE == 0
  {
    hide ClearLow, HighPart;
    assert Shl(1, 21) == HUGE by {
      assert Shl(1, 7) == 0x80 && Shl(1, 14) == 0x4000;
    }
    ClearLowRounds(addr + HUGE - 1, 21);
    assert AlignUp(addr) == HUGE * HighPart(addr + HUGE - 1, 21);
  }

  /** For every base and size, the prefix, the window and the suffix are a partition of the
      over-sized mapping. */
  lemma WindowPartition(addr: nat, size: nat)
    ensures var w := AlignUp(addr);
      var cut := w - addr;
      && 0 <= cut < HUGE
      && Range(addr, size + HUGE) == Range(addr, cut) + Range(w, size) + Range(w + size, HUGE - cut)
      && Range(addr, cut) !! Range(w, size) && Range(w, size) !! Range(w + size, HUGE - cut)
      && Range(addr, cut) !! Range(w + size, HUGE - cut)
  {
    hide AlignUp;
    AlignUpLeast(addr, 0);
  }

  // ---------------------------------------------------------------- the two address spaces

  /** The addresses of a buffer, as the process or as the device (io) sees it. */
  function Area(d: Dma, io: bool): set<nat> {
    if io then Range(d.phys, d.size) else Range(d.virt, d.size)
  }

  /** The addresses of all buffers. */
  ghost function Areas(live: set<Dma>, io: bool): set<nat> {
    set d, x | d in live && x in Area(d, io) :: x
  }

  ghost predicate PairwiseApart(live: set<Dma>, io: bool) {
    forall d, e :: d in live && e in live && d != e ==> Area(d, io) !! Area(e, io)
  }

  lemma AreasAdd(live: set<Dma>, d: Dma, io: bool)
    ensures Areas(live + {d}, io) == Areas(live, io) + Area(d, io)
    ensures PairwiseApart(live, io) && Areas(live, io) !! Area(d, io) ==> PairwiseApart(live + {d}, io)
  {
    hide Area;
    assert forall e :: e in live ==> Area(e, io) <= Areas(live, io);
  }

  lemma AreasRemove(live: set<Dma>, d: Dma, io: bool)
    requires d in live && PairwiseApart(live, io)
    ensures Areas(live - {d}, io) == Areas(live, io) - Area(d, io)
    ensures PairwiseApart(live - {d}, io)
  {
    hide Area;
  }

  lemma SameAreas(live: set<Dma>)
    requires forall e :: e in live ==> e.phys == e.virt
    ensures Areas(live, true) == Areas(live, false)
  {
    assert forall e :: e in live ==> Area(e, true) == Area(e, false);
  }

  /** Both address spaces hold exactly the live buffers, each once, and what failures left.
      `live` has for each buffer the page size when it was allocated. */
  ghost predicate Exact(host: set<nat>, iova: set<nat>, live: map<Dma, Pagesize>, lost: set<nat>, legacy: bool) {
    && host == Areas(live.Keys, false) + lost && Areas(live.Keys, false) !! lost && PairwiseApart(live.Keys, false)
    && iova == Areas(live.Keys, true) && PairwiseApart(live.Keys, true)
    && forall d :: d in live ==> Whole(d, live[d]) && (legacy ==> d.phys == d.virt)
  }

  predicate Whole(d: Dma, p: Pagesize) {
    d.size > 0 && d.virt % PAGE == 0 && d.size % p.Size() == 0
  }

  /** A buffer over unused addresses is a new one, and joins the others in both spaces. With
      IOVA equal to virtual address, a free place in the process is free for the device too. */
  lemma ExactNew(host: set<nat>, iova: set<nat>, live: map<Dma, Pagesize>, lost: set<nat>, legacy: bool, d: Dma,
                 p: Pagesize)
    requires Exact(host, iova, live, lost, legacy) && Whole(d, p)
    requires Area(d, false) !! host && if legacy then d.phys == d.virt else Area(d, true) !! iova
    ensures d !in live && Exact(host + Area(d, false), iova + Area(d, true), live[d := p], lost, legacy)
  {
    hide Areas, Whole;
    WholeNotEmpty(d, p);
    AreasAdd(live.Keys, d, false);
    AreasAdd(live.Keys, d, true);
    if legacy {
      SameAreas(live.Keys);
    }
    InAreas(live.Keys, d, false);
    assert live[d := p].Keys == live.Keys + {d};
  }

  lemma WholeNotEmpty(d: Dma, p: Pagesize)
    requires Whole(d, p)
    ensures d.virt in Area(d, false)
  {
  }

  lemma InAreas(live: set<Dma>, d: Dma, io: bool)
    ensures d in live ==> Area(d, io) <= Areas(live, io)
  {
  }

  lemma ExactLost(host: set<nat>, iova: set<nat>, live: map<Dma, Pagesize>, lost: set<nat>, legacy: bool,
                  host': set<nat>)
    requires Exact(host, iova, live, lost, legacy) && host <= host'
    ensures Exact(host', iova, live, lost + (host' - host), legacy)
  {
    hide Areas, Whole, Area, PairwiseApart;
  }

  lemma ExactFreed(host: set<nat>, iova: set<nat>, live: map<Dma, Pagesize>, lost: set<nat>, legacy: bool, d: Dma)
    requires Exact(host, iova, live, lost, legacy) && d in live
    ensures Exact(host - Area(d, false), iova - Area(d, true), live - {d}, lost, legacy)
    ensures Exact(host, iova - Area(d, true), live - {d}, lost + Area(d, false), legacy)
  {
    hide Areas, Whole, Area;
    AreasRemove(live.Keys, d, false);
    AreasRemove(live.Keys, d, true);
    InAreas(live.Keys, d, false);
    assert (live - {d}).Keys == live.Keys - {d};
  }

  /** A live buffer is mapped, and is a whole number of pages of any size not larger than that
      it was allocated with. */
  lemma LiveBuffer(host: set<nat>, iova: set<nat>, live: map<Dma, Pagesize>, lost: set<nat>, legacy: bool, d: Dma,
                   p: Pagesize)
    requires Exact(host, iova, live, lost, legacy) && d in live
    ensures d.virt % PAGE == 0 && p.ShiftUp(d.size) > 0 && Area(d, false) <= host
    ensures p.Size() <= live[d].Size() ==> d.size % p.Size() == 0
  {
    hide Areas, Area, PairwiseApart;
    InAreas(live.Keys, d, false);
    ShiftUpLeast(p, d.size, 0);
    if p.Size() <= live[d].Size() {
      assert live[d].ShiftUp(d.size) == d.size;
      ShiftUpStable(live[d], p, d.size);
    }
  }

  /** `munmap`: whole pages, and a length of zero is refused. */
  function Munmapped(host: set<nat>, addr: nat, len: nat): set<nat> {
    host - Range(addr, RoundTo(len, PAGE))
  }

  /** What deallocating under page size p unmaps is the buffer and nothing else, whatever else
      is mapped, exactly when the buffer is a whole number of such pages. */
  lemma MunmapExactIff(p: Pagesize, d: Dma)
    ensures (forall host :: Area(d, false) <= host ==>
               Munmapped(host, d.virt, p.ShiftUp(d.size)) == host - Area(d, false))
            <==> d.size % p.Size() == 0
  {
    ShiftUpLeast(p, d.size, 0);
    WholePages(p, d.size);
    if d.size % p.Size() != 0 {
      var size := p.ShiftUp(d.size);
      var host := Range(d.virt, size);
      assert d.virt + d.size in host && d.virt + d.size !in Area(d, false);
      assert d.virt + d.size !in Munmapped(host, d.virt, size);
    }
  }

  /** A whole number of large pages is a whole number of 4 KiB pages. */
  lemma WholePages(p: Pagesize, size: nat)
    ensures RoundTo(p.ShiftUp(size), PAGE) == p.ShiftUp(size)
  {
    ShiftUpStable(p, Page4K, size);
    assert RoundTo(p.ShiftUp(size), PAGE) == Page4K.ShiftUp(p.ShiftUp(size));
  }

  /** What the kernel does with the calls of one `allocate`: where it puts the new mapping, if
      anywhere, which calls fail, and the IOVA it chooses. */
  datatype Grant = Grant(base: Option<nat>, prefixFails: bool, suffixFails: bool, fixedFails: bool, dmaFails: bool,
                         iova: nat)

  class Vfio {
    const narrow: bool           // IOVA_WIDTH < X86_VA_WIDTH
    const legacy: bool           // type 1 container rather than IOMMUFD
    var pageSize: Pagesize
    var host: set<nat>           // mapped in the process
    var iova: set<nat>           // mapped for the device
    ghost var live: map<Dma, Pagesize>   // allocated and not freed, with the page size of the time
    ghost var lost: set<nat>     // still mapped in the process after a call that failed

    ghost predicate Valid()
      reads this
    {
      Exact(host, iova, live, lost, legacy)
    }

    constructor (narrow: bool, legacy: bool, pageSize: Pagesize)
      ensures Valid() && live == map[] && lost == {} && host == {} && iova == {}
      ensures this.narrow == narrow && this.legacy == legacy && this.pageSize == pageSize
    {
      this.narrow, this.legacy, this.pageSize := narrow, legacy, pageSize;
      host, iova, live, lost := {}, {}, map[], {};
    }

    method SetPageSize(p: Pagesize)
      modifies this`pageSize
      ensures pageSize == p && (old(Valid()) ==> Valid())
    {
      pageSize := p;
    }

    method Munmap(addr: nat, len: nat, fails: bool) returns (ok: bool)
      modifies this`host
      ensures ok <==> len > 0 && addr % PAGE == 0 && !fails
      ensures host == if ok then Munmapped(old(host), addr, len) else old(host)
    {
      ok := len > 0 && addr % PAGE == 0 && !fails;
      if ok {
        host := Munmapped(host, addr, len);
      }
    }

    /** `mmap`, where the kernel wants it; a length of zero is refused. */
    method Mmap(len: nat, base: Option<nat>) returns (r: Option<nat>)
      modifies this`host
      ensures r == if len == 0 then None else base
      ensures host == if r.Some? then old(host) + Range(r.value, len) else old(host)
    {
      r := if len == 0 then None else base;
      if r.Some? {
        host := host + Range(r.value, len);
      }
    }

    /** How much is mapped at first. */
    function FirstSize(size: nat): nat
      reads this
    {
      if narrow && pageSize == Page2M then size + HUGE else size
    }

    /** The kernel's part: new mappings are page-aligned and touch nothing that is mapped. */
    ghost predicate Honest(g: Grant, size: nat)
      reads this
    {
      && (g.base.Some? ==> g.base.value % PAGE == 0 && Range(g.base.value, FirstSize(size)) !! host)
      && (!legacy ==> Range(g.iova, size) !! iova)
    }

    /** allocate_2mib. For narrow IOVAs a mapping one huge page too large is trimmed to its
        aligned window; that works exactly when the mapping is not aligned already, because
        then there is no prefix to unmap and the empty munmap fails. */
    method Allocate2Mib(size: nat, g: Grant) returns (r: Option<nat>)
      requires pageSize == Page2M && size % HUGE == 0 && Honest(g, size)
      modifies this`host
      ensures r.Some? <==> g.base.Some? && size > 0
                           && (narrow ==> g.base.value % HUGE != 0 && !g.prefixFails && !g.suffixFails && !g.fixedFails)
      ensures r.Some? ==> Range(r.value, size) !! old(host) && host == old(host) + Range(r.value, size)
      ensures r.Some? ==> r.value % PAGE == 0
      ensures r.Some? ==> r.value == if narrow then AlignUp(g.base.value) else g.base.value
      ensures old(host) <= host
      ensures narrow && g.base.Some? && g.base.value % HUGE == 0 ==>
                host == old(host) + Range(g.base.value, size + HUGE)
    {
      hide AlignUp, Range;
      if narrow {
        var m := Mmap(size + HUGE, g.base);
        if m == None {
          return None;
        }
        var addr := m.value;
        var aligned := AlignUp(addr);
        AlignUpLeast(addr, 0);
        var free := aligned - addr;
        WindowPartition(addr, size);
        TrimmedPages(addr, aligned, size);
        var ok := Munmap(addr, free, g.prefixFails);
        if !ok {
          return None;
        }
        ok := Munmap(aligned + size, HUGE - free, g.suffixFails);
        if !ok {
          return None;
        }
        if size == 0 || g.fixedFails {
          return None;
        }
        host := host + Range(aligned, size);
        r := Some(aligned);
      } else {
        r := Mmap(size, g.base);
      }
    }

    /** Prefix and suffix are whole pages. */
    lemma TrimmedPages(addr: nat, w: nat, size: nat)
      requires addr % PAGE == 0 && size % HUGE == 0 && w % HUGE == 0 && addr <= w < addr + HUGE
      ensures w % PAGE == 0 && (w + size) % PAGE == 0
      ensures RoundTo(w - addr, PAGE) == w - addr && RoundTo(HUGE - (w - addr), PAGE) == HUGE - (w - addr)
    {
      hide RoundTo;
      MultipleOfMultiple(w, 0x200, PAGE);
      MultipleOfMultiple(size, 0x200, PAGE);
      Difference(w, addr);
      Sum(w, size);
      Difference(HUGE, w - addr);
      RoundToWhole(w - addr);
      RoundToWhole(HUGE - (w - addr));
    }

    lemma RoundToWhole(n: nat)
      requires n % PAGE == 0
      ensures RoundTo(n, PAGE) == n
    {
    }

    lemma Difference(a: nat, b: nat)
      requires b <= a && a % PAGE == 0 && b % PAGE == 0
      ensures (a - b) % PAGE == 0
    {
    }

    lemma Sum(a: nat, b: nat)
      requires a % PAGE == 0 && b % PAGE == 0
      ensures (a + b) % PAGE == 0
    {
    }

    /** allocate: a new buffer of whole pages, mapped in both address spaces, or nothing new but
        what the failure left mapped in the process. */
    method Allocate(bytes: nat, g: Grant) returns (r: Option<Dma>)
      requires Valid() && Honest(g, pageSize.ShiftUp(bytes))
      modifies this`host, this`iova, this`live, this`lost
      ensures Valid()
      ensures r.Some? <==> g.base.Some? && bytes > 0 && !g.dmaFails
                           && (narrow && pageSize == Page2M ==>
                                 g.base.value % HUGE != 0 && !g.prefixFails && !g.suffixFails && !g.fixedFails)
      ensures r.Some? ==> r.value !in old(live) && live == old(live)[r.value := pageSize] && lost == old(lost)
      ensures r.Some? ==>
                r.value.size == pageSize.ShiftUp(bytes) && r.value.phys == if legacy then r.value.virt else g.iova
      ensures r.Some? ==>
                r.value.virt == if narrow && pageSize == Page2M then AlignUp(g.base.value) else g.base.value
      ensures r.None? ==> live == old(live) && iova == old(iova) && old(host) <= host
      ensures r.None? ==> lost == old(lost) + (host - old(host))
    {
      hide AlignUp, Exact, Range, Pagesize.ShiftUp;
      var size := pageSize.ShiftUp(bytes);
      ShiftUpLeast(pageSize, bytes, 0);
      ghost var before := host;
      var at;
      if pageSize == Page2M {
        at := Allocate2Mib(size, g);
      } else {
        at := Mmap(size, g.base);
      }
      if at == None || g.dmaFails {
        ExactLost(before, iova, live, lost, legacy, host);
        lost := lost + (host - before);
        return None;
      }
      var d := Dma(at.value, if legacy then at.value else g.iova, size);
      ExactNew(before, iova, live, lost, legacy, d, pageSize);
      iova := iova + Range(d.phys, size);
      live := live[d := pageSize];
      r := Some(d);
    }
  
    /** deallocate: unmaps for the device, then in the process, a size rounded by the page size
        of now. If that is no larger than the page size of then, exactly the buffer goes. */
    method Deallocate(d: Dma, unmapFails: bool, munmapFails: bool) returns (ok: bool)
      requires Valid() && d in live
      modifies this`host, this`iova, this`live, this`lost
      ensures ok <==> !unmapFails && !munmapFails
      ensures host == if ok then Munmapped(old(host), d.virt, pageSize.ShiftUp(d.size)) else old(host)
      ensures iova == if unmapFails then old(iova) else old(iova) - Area(d, true)
      ensures live == if unmapFails then old(live) else old(live) - {d}
      ensures d.size % pageSize.Size() == 0 || pageSize.Size() <= old(live)[d].Size() ==> Valid()
      ensures lost == if !unmapFails && munmapFails then old(lost) + Area(d, false) else old(lost)
    {
      hide Exact, Area, Munmapped, Pagesize.ShiftUp;
      LiveBuffer(host, iova, live, lost, legacy, d, pageSize);
      ExactFreed(host, iova, live, lost, legacy, d);
      if unmapFails {
        return false;
      }
      iova := iova - Area(d, true);
      ghost var smaller := pageSize.Size() <= live[d].Size();
      live := live - {d};
      var size := pageSize.ShiftUp(d.size);
      ok := Munmap(d.virt, size, munmapFails);
      if !ok {
        lost := lost + Area(d, false);
      } else {
        MunmapExactIff(pageSize, d);
      }
    }
  }
}
