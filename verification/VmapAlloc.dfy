/** The global allocator of kernel virtual addresses as a state machine, one step for each section
    that holds `vmap_area_lock`: the cached first-fit search, the immediate and the lazy free, the
    purge with its TLB flush, and the insertion of percpu areas. */
module VmapAlloc {
  import opened Common
  import opened VmapAreas

  /** What a run leaves behind, oldest first. */
  datatype Event =
    | Allocated(area: Area)
    | Released(area: Area)         // handed to free_vmap_area_noflush
    | Flushed(lo: int, hi: int)    // flush_tlb_kernel_range

  datatype Kva = Kva(
    areas: seq<Area>,              // vmap_area_list, and the in-order reading of vmap_area_root
    cache: Option<Area>,           // free_vmap_cache
    holeSize: int,                 // cached_hole_size
    vstart: int,                   // cached_vstart
    align: int,                    // cached_align
    pcpuHole: int,                 // vmap_area_pcpu_hole
    lazy: seq<Area>,               // vmap_purge_list
    purging: seq<Area>,            // taken off the purge list and flushed, not yet removed
    lazyPages: int,                // vmap_lazy_nr
    log: seq<Event>)

  /** The arguments of alloc_vmap_area. */
  datatype Request = Request(size: int, align: int, vstart: int, vend: int)

  /** The three BUG_ONs at the head of alloc_vmap_area, and 64-bit arguments. */
  predicate ValidRequest(q: Request) {
    && q.size > 0 && q.size % PAGE_SIZE == 0 && IsPowerOf2(q.align)
    && 0 <= q.vstart && q.vend < ADDRESS_SPACE
  }

  // ---------- the search ----------

  datatype Scan = Found(addr: int, hole: int) | Overflow(hole: int)

  /** The walk over the areas from place `i`, with `addr` the candidate address. */
  function Walk(areas: seq<Area>, i: nat, addr: int, q: Request, hole: int): Scan
    requires i < |areas| && q.align > 0
    decreases |areas| - i
  {
    if addr + q.size > areas[i].start && addr + q.size <= q.vend then
      var hole' := if addr + hole < areas[i].start then areas[i].start - addr else hole;
      var addr' := AlignUp(areas[i].end, q.align);
      if addr' + q.size >= ADDRESS_SPACE then Overflow(hole')
      else if i + 1 == |areas| then Found(addr', hole')
      else Walk(areas, i + 1, addr', q, hole')
    else Found(addr, hole)
  }

  /** The cached position serves the request; otherwise the cache is dropped. */
  predicate UsesCache(s: Kva, q: Request)
    requires q.align > 0
  {
    && s.cache.Some? && s.holeSize <= q.size && s.vstart <= q.vstart && s.align <= q.align
    && q.vstart <= AlignUp(s.cache.value.end, q.align)
  }

  function Search(s: Kva, q: Request): Scan
    requires q.align > 0 && (s.cache.Some? ==> s.cache.value in s.areas)
  {
    if UsesCache(s, q) then
      var addr := AlignUp(s.cache.value.end, q.align);
      if addr + q.size >= ADDRESS_SPACE then Overflow(s.holeSize)
      else Walk(s.areas, IndexOf(s.areas, s.cache.value), addr, q, s.holeSize)
    else
      var addr := AlignUp(q.vstart, q.align);
      var k := CountBelow(s.areas, addr - 1);
      if addr + q.size >= ADDRESS_SPACE then Overflow(0)
      else if k == |s.areas| then Found(addr, 0)
      else Walk(s.areas, k, addr, q, 0)
  }

  /** One attempt of alloc_vmap_area under the lock. */
  function Attempt(s: Kva, q: Request): (r: (Kva, Option<Area>))
    requires q.align > 0 && (s.cache.Some? ==> s.cache.value in s.areas)
  {
    var scan := Search(s, q);
    if scan.Found? && scan.addr + q.size <= q.vend then
      var va := Area(scan.addr, scan.addr + q.size);
      (s.(areas := Insert(s.areas, va), cache := Some(va), holeSize := scan.hole,
          vstart := q.vstart, align := q.align, log := s.log + [Allocated(va)]), Some(va))
    else
      (s.(cache := if UsesCache(s, q) then s.cache else None, holeSize := scan.hole,
          vstart := q.vstart, align := q.align), None)
  }

  // ---------- what the search is for ----------

  /** `b` is a lawful answer to the request: aligned, inside the window, clear of every area. */
  ghost predicate Fits(areas: seq<Area>, q: Request, b: int)
    requires q.align > 0
  {
    Aligned(b, q.align) && q.vstart <= b && b + q.size <= q.vend && Free(areas, b, b + q.size)
  }

  /** No aligned place for `q.size` bytes starts in [low, x). */
  ghost predicate NoRoom(areas: seq<Area>, q: Request, low: int, x: int)
    requires q.align > 0
  {
    forall b :: Aligned(b, q.align) && low <= b < x ==> !Free(areas, b, b + q.size)
  }

  /** Every free run that starts aligned in [vstart, top) is at most `hole` long. */
  ghost predicate HoleBound(areas: seq<Area>, align: int, vstart: int, top: int, hole: int)
    requires align > 0
  {
    forall p, e :: Aligned(p, align) && vstart <= p < top && p < e && Free(areas, p, e) ==> e - p <= hole
  }

  /** The cached position names a listed area, and the hole size bounds the runs below it. */
  ghost predicate CacheOk(s: Kva) {
    && 0 <= s.holeSize
    && (s.cache.Some? ==>
          && s.cache.value in s.areas && IsPowerOf2(s.align)
          && HoleBound(s.areas, s.align, s.vstart, s.cache.value.start, s.holeSize))
  }

  // ---------- the walk ----------

  /** What has been established about everything below `addr` when the walk stands at place `i`. */
  ghost predicate WalkOk(areas: seq<Area>, i: nat, addr: int, q: Request, hole: int, low: int)
    requires q.align > 0
  {
    && 0 <= hole && q.vstart <= addr && low <= addr && Aligned(addr, q.align)
    && (forall j :: 0 <= j < i && j < |areas| ==> areas[j].end <= addr)
    && NoRoom(areas, q, low, addr)
    && HoleBound(areas, q.align, q.vstart, addr, hole)
  }

  /** Moving past one area keeps what is established. */
  lemma WalkStep(areas: seq<Area>, i: nat, addr: int, q: Request, hole: int, low: int)
    requires Sorted(areas) && i < |areas| && ValidRequest(q)
    requires WalkOk(areas, i, addr, q, hole, low) && addr <= AlignUp(areas[i].end, q.align)
    requires addr + q.size > areas[i].start
    ensures var hole' := if addr + hole < areas[i].start then areas[i].start - addr else hole;
            WalkOk(areas, i + 1, AlignUp(areas[i].end, q.align), q, hole', low)
  {
    var a := areas[i];
    assert a in areas;
    var addr' := AlignUp(a.end, q.align);
    forall b | Aligned(b, q.align) && low <= b < addr' ensures !Free(areas, b, b + q.size) {
      if a.end <= b { AlignUpIsLeast(a.end, b, q.align); }
    }
    var hole' := if addr + hole < a.start then a.start - addr else hole;
    forall p, e | Aligned(p, q.align) && q.vstart <= p < addr' && p < e && Free(areas, p, e)
      ensures e - p <= hole'
    {
      if a.end <= p { AlignUpIsLeast(a.end, p, q.align); }
    }
  }

  /** From a sound start the walk ends at the lowest room at or above `low`, or proves there is none. */
  lemma {:induction false} WalkIsFirstFit(areas: seq<Area>, i: nat, addr: int, q: Request, hole: int, low: int)
    requires Sorted(areas) && i < |areas| && ValidRequest(q)
    requires WalkOk(areas, i, addr, q, hole, low) && addr <= AlignUp(areas[i].end, q.align)
    ensures match Walk(areas, i, addr, q, hole)
            case Found(x, h) =>
              && addr <= x && hole <= h && WalkOk(areas, 0, x, q, h, low)
              && (x + q.size <= q.vend ==> Free(areas, x, x + q.size))
            case Overflow(h) => hole <= h && forall b :: low <= b && Fits(areas, q, b) ==> false
    decreases |areas| - i
  {
    if addr + q.size > areas[i].start && addr + q.size <= q.vend {
      WalkStep(areas, i, addr, q, hole, low);
      if i + 1 < |areas| {
        AlignUpMonotone(areas[i].end, areas[i + 1].end, q.align);
        var hole' := if addr + hole < areas[i].start then areas[i].start - addr else hole;
        var addr' := AlignUp(areas[i].end, q.align);
        if addr' + q.size < ADDRESS_SPACE {
          WalkIsFirstFit(areas, i + 1, addr', q, hole', low);
        }
      }
    }
  }

  /** Starting one place later at a touching area changes nothing. */
  lemma WalkSkipsTouching(areas: seq<Area>, i: nat, addr: int, q: Request, hole: int)
    requires Sorted(areas) && i + 1 < |areas| && ValidRequest(q) && Aligned(addr, q.align) && hole >= 0
    requires areas[i].end == addr && addr + q.size < ADDRESS_SPACE
    ensures Walk(areas, i, addr, q, hole) == Walk(areas, i + 1, addr, q, hole)
  {
    AlignUpIsLeast(addr, addr, q.align);
    assert addr + q.size > q.vend ==> Walk(areas, i + 1, addr, q, hole) == Found(addr, hole);
  }

  // ---------- the cached start and the uncached start ----------

  lemma BelowCacheIsBounded(s: Kva, q: Request)
    requires Sorted(s.areas) && CacheOk(s) && ValidRequest(q) && UsesCache(s, q)
    ensures HoleBound(s.areas, q.align, q.vstart, s.cache.value.start, s.holeSize)
  {
    forall p, e | Aligned(p, q.align) && q.vstart <= p < s.cache.value.start && p < e && Free(s.areas, p, e)
      ensures e - p <= s.holeSize
    {
      AlignedToSmaller(p, s.align, q.align);
    }
  }

  /** Nothing aligned starts between the cached area's start and the first candidate above it. */
  lemma CachedStart(s: Kva, q: Request)
    requires Sorted(s.areas) && CacheOk(s) && ValidRequest(q) && UsesCache(s, q)
    ensures var c := s.cache.value;
            WalkOk(s.areas, IndexOf(s.areas, c), AlignUp(c.end, q.align), q, s.holeSize, c.start)
  {
    BelowCacheIsBounded(s, q);
    var c := s.cache.value;
    var addr := AlignUp(c.end, q.align);
    forall b | Aligned(b, q.align) && c.start <= b < addr ensures forall e :: b < e ==> !Free(s.areas, b, e) {
      if c.end <= b { AlignUpIsLeast(c.end, b, q.align); }
    }
  }

  lemma UncachedStart(s: Kva, q: Request)
    requires Sorted(s.areas) && ValidRequest(q)
    ensures var addr := AlignUp(q.vstart, q.align);
            WalkOk(s.areas, CountBelow(s.areas, addr - 1), addr, q, 0, q.vstart)
  {
    forall b | Aligned(b, q.align) && q.vstart <= b ensures AlignUp(q.vstart, q.align) <= b {
      AlignUpIsLeast(q.vstart, b, q.align);
    }
  }

  /** Where the search begins to look: below this nothing has been ruled out. */
  function SearchFloor(s: Kva, q: Request): int
    requires q.align > 0
  {
    if UsesCache(s, q) then s.cache.value.start else q.vstart
  }

  /** The answer a search owes, when it began to look at `low` with a hole bound of `hole`. */
  ghost predicate Answers(areas: seq<Area>, q: Request, low: int, hole: int, scan: Scan)
    requires q.align > 0
  {
    match scan
    case Found(x, h) => hole <= h && WalkOk(areas, 0, x, q, h, low) && (x + q.size <= q.vend ==> Free(areas, x, x + q.size))
    case Overflow(h) => hole <= h && forall b :: low <= b && Fits(areas, q, b) ==> false
  }

  lemma CachedSearch(s: Kva, q: Request)
    requires Sorted(s.areas) && CacheOk(s) && ValidRequest(q) && UsesCache(s, q)
    ensures Answers(s.areas, q, s.cache.value.start, s.holeSize, Search(s, q))
  {
    hide HoleBound, NoRoom, Aligned, AlignUp;
    CachedStart(s, q);
    var c := s.cache.value;
    var addr := AlignUp(c.end, q.align);
    if addr + q.size < ADDRESS_SPACE {
      WalkIsFirstFit(s.areas, IndexOf(s.areas, c), addr, q, s.holeSize, c.start);
    } else {
      NothingAbove(s.areas, q, c.start, addr);
    }
  }

  lemma UncachedSearch(s: Kva, q: Request)
    requires Sorted(s.areas) && CacheOk(s) && ValidRequest(q) && !UsesCache(s, q)
    ensures Answers(s.areas, q, q.vstart, 0, Search(s, q))
  {
    hide HoleBound, NoRoom, Aligned, AlignUp;
    UncachedStart(s, q);
    var addr := AlignUp(q.vstart, q.align);
    var k := CountBelow(s.areas, addr - 1);
    if addr + q.size < ADDRESS_SPACE && k < |s.areas| {
      WalkIsFirstFit(s.areas, k, addr, q, 0, q.vstart);
    } else {
      NothingAbove(s.areas, q, q.vstart, addr);
    }
  }

  lemma SearchIsFirstFit(s: Kva, q: Request)
    requires Sorted(s.areas) && CacheOk(s) && ValidRequest(q)
    ensures Answers(s.areas, q, SearchFloor(s, q), if UsesCache(s, q) then s.holeSize else 0, Search(s, q))
  {
    hide Search, Answers;
    if UsesCache(s, q) {
      CachedSearch(s, q);
    } else {
      UncachedSearch(s, q);
    }
  }

  /** An address so high that the request would wrap leaves no lawful place from `low` on. */
  lemma NothingAbove(areas: seq<Area>, q: Request, low: int, addr: int)
    requires ValidRequest(q) && NoRoom(areas, q, low, addr)
    ensures addr + q.size >= ADDRESS_SPACE ==> forall b :: low <= b && Fits(areas, q, b) ==> false
  {
  }

  /** The answer of plain first fit: the lowest lawful address, or none when there is none. */
  ghost predicate IsFirstFit(areas: seq<Area>, q: Request, r: Option<Area>)
    requires q.align > 0
  {
    match r
    case None => forall b :: !Fits(areas, q, b)
    case Some(a) =>
      && a.end == a.start + q.size && Fits(areas, q, a.start)
      && forall b :: Fits(areas, q, b) ==> a.start <= b
  }

  /** The request could be placed below the cached area the search starts from. */
  ghost predicate RoomBelowCache(s: Kva, q: Request)
    requires q.align > 0
  {
    UsesCache(s, q) && exists b :: b < s.cache.value.start && Fits(s.areas, q, b)
  }

  lemma ValidAlign(q: Request)
    requires ValidRequest(q)
    ensures q.align > 0
  {
  }

  lemma FloorIsCache(s: Kva, q: Request)
    requires ValidRequest(q)
    ensures SearchFloor(s, q) == if UsesCache(s, q) then s.cache.value.start else q.vstart
  {
  }

  /** The cached search answers like plain first fit exactly when no lawful place lies below the
      cached area. */
  lemma CachedSearchIsFirstFitExactly(s: Kva, q: Request)
    requires Sorted(s.areas) && CacheOk(s) && ValidRequest(q)
    ensures IsFirstFit(s.areas, q, Attempt(s, q).1) <==> !RoomBelowCache(s, q)
  {
    hide Search, HoleBound, Aligned, UsesCache, IsPowerOf2, Sorted, Insert;
    ValidAlign(q);
    SearchIsFirstFit(s, q);
    FloorIsCache(s, q);
    var r := Attempt(s, q).1;
    forall b | Fits(s.areas, q, b) && SearchFloor(s, q) <= b
      ensures r.Some? && r.value.start <= b
    {
      assert Free(s.areas, b, b + q.size);
    }
    assert r.Some? ==> SearchFloor(s, q) <= r.value.start && Fits(s.areas, q, r.value.start);
  }

  /** A request of any size but the recorded hole size is answered like plain first fit. */
  lemma CachedSearchRefinesFirstFit(s: Kva, q: Request)
    requires Sorted(s.areas) && CacheOk(s) && ValidRequest(q) && q.size != s.holeSize
    ensures IsFirstFit(s.areas, q, Attempt(s, q).1)
  {
    CachedSearchIsFirstFitExactly(s, q);
    if UsesCache(s, q) {
      BelowCacheIsBounded(s, q);
      forall b | Fits(s.areas, q, b) ensures s.cache.value.start <= b {
        assert Free(s.areas, b, b + q.size);
      }
    }
  }

  // ---------- freeing ----------

  function Prev(areas: seq<Area>, va: Area): Option<Area>
    requires va in areas
  {
    var k := IndexOf(areas, va);
    if k == 0 then None else Some(areas[k - 1])
  }

  /** `__free_vmap_area`; [lo, hi) is the vmalloc window. */
  function FreeArea(s: Kva, va: Area, lo: int, hi: int): Kva
    requires va in s.areas
  {
    var cache' :=
      if s.cache.None? || va.end < s.vstart then None
      else if va.start <= s.cache.value.start then Prev(s.areas, va)
      else s.cache;
    var pcpuHole' := if lo < va.end <= hi && s.pcpuHole < va.end then va.end else s.pcpuHole;
    s.(areas := Remove(s.areas, va), cache := cache', pcpuHole := pcpuHole')
  }

  lemma FreeAreaKeepsCache(s: Kva, va: Area, lo: int, hi: int)
    requires Sorted(s.areas) && CacheOk(s) && va in s.areas
    ensures Sorted(FreeArea(s, va, lo, hi).areas) && CacheOk(FreeArea(s, va, lo, hi))
  {
    RemoveKeepsOrder(s.areas, va);
    var s' := FreeArea(s, va, lo, hi);
    if s'.cache.Some? {
      var c := s'.cache.value;
      assert c.start < va.start && c.start <= s.cache.value.start && c in s'.areas;
      forall p, e | Aligned(p, s.align) && s.vstart <= p < c.start && p < e && Free(s'.areas, p, e)
        ensures e - p <= s.holeSize
      {
        assert e <= c.start;
        assert Free(s.areas, p, e);
      }
    }
  }

  /** The area before `va` in the address order, if there is one. */
  ghost predicate IsBefore(areas: seq<Area>, va: Area, p: Option<Area>) {
    match p
    case None => forall a :: a in areas ==> va.start <= a.start
    case Some(b) => b in areas && b.end <= va.start && forall a :: a in areas ==> a.end <= b.end || va.start <= a.start
  }

  lemma PrevIsBefore(areas: seq<Area>, va: Area)
    requires Sorted(areas) && va in areas
    ensures IsBefore(areas, va, Prev(areas, va))
  {
    var k := IndexOf(areas, va);
    forall a | a in areas ensures if k == 0 then va.start <= a.start else a.end <= areas[k - 1].end || va.start <= a.start {
      var i :| 0 <= i < |areas| && areas[i] == a;
    }
  }

  /** Where a free leaves the cache: dropped when the area ended below the cached start address, at the area
      before the freed one when that lay at or below the cached one, else where it was. */
  lemma FreeMovesCache(s: Kva, va: Area, lo: int, hi: int)
    requires Sorted(s.areas) && s.cache.Some? && va in s.areas
    ensures var s' := FreeArea(s, va, lo, hi);
            && (va.end < s.vstart ==> s'.cache.None?)
            && (s.vstart <= va.end && va.start <= s.cache.value.start ==> IsBefore(s.areas, va, s'.cache))
            && (s.vstart <= va.end && s.cache.value.start < va.start ==> s'.cache == s.cache)
            && s'.vstart == s.vstart && s'.align == s.align && s'.holeSize == s.holeSize
  {
    hide Prev, IsBefore, Sorted;
    PrevIsBefore(s.areas, va);
  }

  /** Every attempt, failed ones too, leaves the cache variables describing this request; an allocated area
      becomes the cached one, and a cache that did not serve is dropped on failure. */
  lemma AttemptRecords(s: Kva, q: Request)
    requires ValidRequest(q) && Sorted(s.areas) && CacheOk(s)
    ensures var (s', r) := Attempt(s, q);
            && s'.vstart == q.vstart && s'.align == q.align
            && (r.Some? ==> s'.cache == r && r.value.start + q.size == r.value.end)
            && (r.None? ==> s'.areas == s.areas && s'.log == s.log && (s'.cache == s.cache || s'.cache.None?))
            && (r.None? && q.size < s.holeSize ==> s'.cache.None?)
  {
    hide Search;
  }

  /** More areas, a lower top and a larger bound keep the bound true. */
  lemma HoleBoundWeakens(areas: seq<Area>, areas': seq<Area>, align: int, vstart: int, top: int, hole: int, hole': int)
    requires align > 0 && hole <= hole' && (forall a :: a in areas ==> a in areas')
    requires HoleBound(areas, align, vstart, top, hole)
    ensures HoleBound(areas', align, vstart, top, hole')
  {
    forall p, e | Aligned(p, align) && vstart <= p < top && p < e && Free(areas', p, e)
      ensures e - p <= hole'
    {
      assert Free(areas, p, e);
    }
  }

  lemma AttemptKeepsCache(s: Kva, q: Request)
    requires Sorted(s.areas) && CacheOk(s) && ValidRequest(q)
    ensures Sorted(Attempt(s, q).0.areas) && CacheOk(Attempt(s, q).0)
    ensures var r := Attempt(s, q).1;
            r.Some? ==> 0 <= r.value.start < r.value.end && Free(s.areas, r.value.start, r.value.end)
  {
    SearchIsFirstFit(s, q);
    var (s', r) := Attempt(s, q);
    if r.Some? {
      InsertKeepsOrder(s.areas, r.value);
      InsertMembers(s.areas, r.value);
      HoleBoundWeakens(s.areas, s'.areas, q.align, q.vstart, r.value.start, s'.holeSize, s'.holeSize);
    } else if s'.cache.Some? {
      BelowCacheIsBounded(s, q);
      HoleBoundWeakens(s.areas, s.areas, q.align, q.vstart, s.cache.value.start, s.holeSize, s'.holeSize);
    }
  }
}
