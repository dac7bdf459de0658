/** The allocator's globals and the functions that update them, each proved to take the step of the
    state machine in VmapRuns. */
module VmapKva {
  import opened Common
  import opened VmapAreas
  import opened VmapAlloc
  import opened VmapRuns

  /** Some tree over a list: the shape rb_erase leaves is immaterial. */
  function TreeOf(s: seq<Area>): (t: Tree)
    ensures InOrder(t) == s
  {
    if s == [] then Leaf
    else
      var m := |s| / 2;
      assert s == s[..m] + [s[m]] + s[m + 1..];
      Node(TreeOf(s[..m]), s[m], TreeOf(s[m + 1..]))
  }

  /** Removing a purge list one area at a time. */
  function RemoveAll(s: seq<Area>, dead: seq<Area>): seq<Area>
    decreases |dead|
  {
    if dead == [] then s else RemoveAll(Remove(s, dead[0]), dead[1..])
  }

  lemma {:induction false} RemoveAllMembers(s: seq<Area>, dead: seq<Area>)
    requires Sorted(s)
    ensures Sorted(RemoveAll(s, dead))
    ensures forall a :: a in RemoveAll(s, dead) <==> a in s && a !in dead
    decreases |dead|
  {
    if dead != [] {
      RemoveKeepsOrder(s, dead[0]);
      RemoveAllMembers(Remove(s, dead[0]), dead[1..]);
      assert dead == [dead[0]] + dead[1..];
    }
  }

  /** `a` is a lawful answer to `q` over the areas `before`, and `after` is `before` with it filed in. */
  ghost predicate Placed(before: seq<Area>, after: seq<Area>, q: Request, a: Area)
    requires q.align > 0
  {
    Fits(before, q, a.start) && a.end == a.start + q.size && after == Insert(before, a)
  }

  function ReleasedAll(group: seq<Area>): (l: seq<Event>)
    ensures |l| == |group| && forall i :: 0 <= i < |l| ==> l[i] == Released(group[i])
  {
    seq(|group|, i requires 0 <= i < |group| => Released(group[i]))
  }

  /** The areas of fragmented blocks: in use, none of them freed before, none twice. */
  ghost predicate Releasable(s: Kva, fragmented: seq<Area>) {
    && Distinct(fragmented)
    && forall a :: a in fragmented ==> a in s.areas && a !in s.lazy && a !in s.purging
  }

  /** What purge_vmap_area_lazy does: the fragmented blocks' areas join the purge list, the hull of it all
      is flushed once, and then every area of the list is gone. */
  ghost predicate Purged(s: Kva, s': Kva, fragmented: seq<Area>) {
    var dead := s.lazy + fragmented;
    var h := Hull(dead, ADDRESS_SPACE - 1, 0);
    && s'.areas == RemoveAll(s.areas, dead)
    && s'.lazy == [] && s'.purging == [] && s'.lazyPages == 0
    && s'.log == s.log + ReleasedAll(fragmented) + if dead == [] then [] else [Flushed(h.0, h.1)]
  }

  /** One round of the freeing loop brings the list nearer to what the purge leaves. */
  lemma PurgeRound(s: Kva, w: Window)
    requires Inv(s) && s.purging != []
    ensures s.purging[0] in s.areas
    ensures var va := s.purging[0];
            var s' := FreeArea(s, va, w.start, w.end).(purging := s.purging[1..],
                                                       lazyPages := s.lazyPages - (va.end - va.start) / PAGE_SIZE);
            && Inv(s') && s'.lazy == s.lazy && s'.log == s.log
            && RemoveAll(s'.areas, s'.purging) == RemoveAll(s.areas, s.purging)
  {
    hide CacheOk, Sorted, ReleasesTracked, NoReuseBeforeFlush;
    assert Enabled(s, PurgeOne);
    PurgeOneKeepsInv(s, w);
  }

  lemma NothingWaits(s: Kva)
    requires Inv(s) && s.lazy == [] && s.purging == []
    ensures s.lazyPages == 0
  {
  }

  lemma FlushThenRemove(s: Kva, lo: int, hi: int)
    requires Inv(s) && s.purging == []
    ensures s.lazy == [] ==> s.lazyPages == 0
    ensures Inv(if s.lazy == [] then s
                else s.(lazy := [], purging := s.lazy, log := s.log + [Flushed(Hull(s.lazy, lo, hi).0, Hull(s.lazy, lo, hi).1)]))
  {
    DetachKeepsInv(s, lo, hi, Window(0, 0));
    if s.lazy == [] {
      NothingWaits(s);
    }
  }

  /** What an attempt answers, and what it leaves alone. */
  lemma AttemptFacts(s: Kva, q: Request)
    requires ValidRequest(q) && Inv(s)
    ensures Sorted(s.areas) && CacheOk(s) && (s.cache.Some? ==> s.cache.value in s.areas)
    ensures var (s', r) := Attempt(s, q);
            && s'.purging == s.purging && s'.lazy == s.lazy
            && (r.Some? ==> 0 <= r.value.start < r.value.end && Free(s.areas, r.value.start, r.value.end)
                            && Placed(s.areas, s'.areas, q, r.value))
            && (r.None? ==> s'.areas == s.areas)
            && (r.None? ==> forall b :: Fits(s.areas, q, b) ==> s'.cache.Some? && b < s'.cache.value.start)
            && (q.size != s.holeSize ==> IsFirstFit(s.areas, q, r))
  {
    hide Walk, HoleBound, CountBelow;
    SearchIsFirstFit(s, q);
    AttemptKeepsCache(s, q);
    if q.size != s.holeSize {
      CachedSearchRefinesFirstFit(s, q);
    }
  }

  class Allocator {
    var root: Tree
    var freeVmapCache: Option<Area>
    var cachedHoleSize: int
    var cachedVstart: int
    var cachedAlign: int
    var pcpuHole: int
    var purgeList: seq<Area>
    var purging: seq<Area>
    var lazyNr: int
    ghost var log: seq<Event>
    const window: Window

    ghost function View(): Kva
      reads this
    {
      Kva(InOrder(root), freeVmapCache, cachedHoleSize, cachedVstart, cachedAlign, pcpuHole,
          purgeList, purging, lazyNr, log)
    }

    constructor (w: Window, booted: seq<Area>)
      requires Sorted(booted)
      ensures Init(View()) && Inv(View()) && window == w && InOrder(root) == booted && pcpuHole == w.end
    {
      hide Inv, Sorted, InOrder;
      window := w;
      root := TreeOf(booted);
      freeVmapCache, cachedHoleSize, cachedVstart, cachedAlign, pcpuHole := None, 0, 0, 0, w.end;
      purgeList, purging, lazyNr, log := [], [], 0, [];
      new;
      InitIsInv(View());
    }

    /** The loop that walks areas until a suitable hole is found. */
    method WalkAreas(i: nat, addr0: int, q: Request) returns (r: Scan)
      requires ValidRequest(q) && i < |InOrder(root)|
      modifies this`cachedHoleSize
      ensures r == Walk(InOrder(root), i, addr0, q, old(cachedHoleSize)) && cachedHoleSize == r.hole
    {
      var areas := InOrder(root);
      var first, addr := i, addr0;
      while addr + q.size > areas[first].start && addr + q.size <= q.vend
        invariant 0 <= first < |areas|
        invariant Walk(areas, first, addr, q, cachedHoleSize) == Walk(areas, i, addr0, q, old(cachedHoleSize))
        decreases |areas| - first
      {
        if addr + cachedHoleSize < areas[first].start {
          cachedHoleSize := areas[first].start - addr;
        }
        addr := AlignUp(areas[first].end, q.align);
        if addr + q.size >= ADDRESS_SPACE {
          return Overflow(cachedHoleSize);
        }
        if first + 1 == |areas| {
          return Found(addr, cachedHoleSize);
        }
        first := first + 1;
      }
      return Found(addr, cachedHoleSize);
    }

    /** The search part of one attempt, from the cache test to `found` or `overflow`. */
    method SearchAreas(q: Request) returns (r: Scan)
      requires ValidRequest(q) && Sorted(InOrder(root)) && CacheOk(View())
      modifies this`freeVmapCache, this`cachedHoleSize, this`cachedVstart, this`cachedAlign
      ensures r == Search(old(View()), q) && cachedHoleSize == r.hole
      ensures cachedVstart == q.vstart && cachedAlign == q.align
      ensures freeVmapCache == if UsesCache(old(View()), q) then old(freeVmapCache) else None
    {
      hide Walk, HoleBound, AlignUp, Aligned, CountBelow, InOrder, Sorted, IsPowerOf2;
      ghost var s := View();
      ValidAlign(q);
      if freeVmapCache.None? || q.size < cachedHoleSize || q.vstart < cachedVstart || q.align < cachedAlign {
        cachedHoleSize, freeVmapCache := 0, None;
      }
      cachedVstart, cachedAlign := q.vstart, q.align;
      var addr;
      if freeVmapCache.Some? {
        addr := AlignUp(freeVmapCache.value.end, q.align);
        if addr < q.vstart {
          cachedHoleSize, freeVmapCache := 0, None;
        }
      }
      if freeVmapCache.Some? {
        if addr + q.size >= ADDRESS_SPACE {
          return Overflow(cachedHoleSize);
        }
        r := WalkAreas(IndexOf(InOrder(root), freeVmapCache.value), addr, q);
      } else {
        addr := AlignUp(q.vstart, q.align);
        if addr + q.size >= ADDRESS_SPACE {
          return Overflow(cachedHoleSize);
        }
        var first := FindFirstEndingAt(root, addr);
        FirstEndingAt(s.areas, addr, first, q);
        if first == |InOrder(root)| {
          return Found(addr, cachedHoleSize);
        }
        r := WalkAreas(first, addr, q);
      }
    }

    /** One attempt of alloc_vmap_area under the lock, ending in success or in `overflow`. */
    method AllocAttempt(q: Request) returns (r: Option<Area>)
      requires ValidRequest(q) && Inv(View())
      modifies this
      ensures (View(), r) == Attempt(old(View()), q)
      ensures purging == old(purging)
      ensures r.Some? ==> Placed(old(InOrder(root)), InOrder(root), q, r.value)
      ensures r.None? ==> InOrder(root) == old(InOrder(root)) && purgeList == old(purgeList)
      ensures r.None? ==> forall b :: Fits(InOrder(root), q, b) ==> freeVmapCache.Some? && b < freeVmapCache.value.start
      ensures q.size != old(cachedHoleSize) ==> IsFirstFit(old(InOrder(root)), q, r)
    {
      hide Search, Fits, IsFirstFit, Placed, Inv, Sorted, CacheOk, HoleBound;
      AttemptFacts(View(), q);
      var scan := SearchAreas(q);
      if scan.Found? && scan.addr + q.size <= q.vend {
        var va := Area(scan.addr, scan.addr + q.size);
        InsertNodeFilesInOrder(root, va);
        root := InsertNode(root, va);
        freeVmapCache := Some(va);
        log := log + [Allocated(va)];
        return Some(va);
      }
      return None;
    }

    /** `__free_vmap_area`. */
    method FreeArea(va: Area)
      requires va in InOrder(root)
      modifies this`root, this`freeVmapCache, this`pcpuHole
      ensures View() == VmapAlloc.FreeArea(old(View()), va, window.start, window.end)
    {
      if freeVmapCache.Some? {
        if va.end < cachedVstart {
          freeVmapCache := None;
        } else if va.start <= freeVmapCache.value.start {
          freeVmapCache := Prev(InOrder(root), va);
        }
      }
      root := TreeOf(Remove(InOrder(root), va));
      if window.start < va.end <= window.end {
        pcpuHole := if pcpuHole < va.end then va.end else pcpuHole;
      }
    }

    /** `free_vmap_area_noflush`, without the purge it may kick off. */
    method FreeNoflush(va: Area)
      requires Inv(View()) && Enabled(View(), LazyFree(va))
      modifies this`purgeList, this`lazyNr, this`log
      ensures View() == Apply(old(View()), LazyFree(va), window) && Inv(View())
    {
      LazyFreeKeepsInv(View(), va, window);
      lazyNr := lazyNr + (va.end - va.start) / PAGE_SIZE;
      log := log + [Released(va)];
      purgeList := purgeList + [va];
    }

    /** `__purge_vmap_area_lazy`: flush the hull of the whole purge list, then remove its areas. */
    method Purge(lo: int, hi: int) returns (did: bool)
      requires Inv(View()) && purging == []
      modifies this
      ensures Inv(View()) && purging == [] && purgeList == []
      ensures did <==> old(purgeList) != []
      ensures InOrder(root) == RemoveAll(old(InOrder(root)), old(purgeList))
      ensures log == old(log) + if did then [Flushed(Hull(old(purgeList), lo, hi).0, Hull(old(purgeList), lo, hi).1)] else []
      ensures lazyNr == 0
    {
      hide Inv, InOrder, Hull;
      FlushThenRemove(View(), lo, hi);
      var valist := purgeList;
      if valist == [] {
        return false;
      }
      var start, end := HullOf(valist, lo, hi);
      log := log + [Flushed(start, end)];
      purgeList, purging := [], valist;
      while purging != []
        invariant Inv(View()) && purgeList == []
        invariant RemoveAll(InOrder(root), purging) == RemoveAll(old(InOrder(root)), old(purgeList))
        invariant log == old(log) + [Flushed(start, end)]
        decreases |purging|
      {
        var va := purging[0];
        PurgeRound(View(), window);
        FreeArea(va);
        purging := purging[1..];
        lazyNr := lazyNr - (va.end - va.start) / PAGE_SIZE;
      }
      NothingWaits(View());
      return true;
    }

    /** The loop that widens the flush range over the purge list. */
    static method HullOf(valist: seq<Area>, lo: int, hi: int) returns (start: int, end: int)
      ensures (start, end) == Hull(valist, lo, hi)
    {
      start, end := lo, hi;
      for i := 0 to |valist|
        invariant Hull(valist[i..], start, end) == Hull(valist, lo, hi)
      {
        if valist[i].start < start { start := valist[i].start; }
        if valist[i].end > end { end := valist[i].end; }
      }
    }

    /** purge_vmap_area_lazy; `fragmented` has the areas of the blocks purge_fragmented_blocks_allcpus finds. */
    method PurgeLazy(fragmented: seq<Area>)
      requires Inv(View()) && purging == [] && Releasable(View(), fragmented)
      modifies this
      ensures Inv(View()) && Purged(old(View()), View(), fragmented)
    {
      hide Inv, Distinct, Hull, InOrder, Enabled, Apply, RemoveAll;
      ghost var s := View();
      for i := 0 to |fragmented|
        invariant Inv(View()) && purging == [] && InOrder(root) == s.areas
        invariant purgeList == s.lazy + fragmented[..i] && log == s.log + ReleasedAll(fragmented[..i])
      {
        NextReleasable(s, fragmented, i, View(), window);
        FreeNoflush(fragmented[i]);
        LazyFreed(s, fragmented, i);
      }
      assert fragmented[..|fragmented|] == fragmented;
      var did := Purge(ADDRESS_SPACE - 1, 0);
    }

    /** alloc_vmap_area: an attempt, and on failure a purge and one more attempt. A failure leaves no
        lawful place at or above the cached position, with all that was lazily freed or fragmented gone. */
    method AllocVmapArea(q: Request, fragmented: seq<Area>) returns (r: Option<Area>)
      requires ValidRequest(q) && Inv(View()) && purging == [] && Releasable(View(), fragmented)
      modifies this
      ensures Inv(View()) && purging == []
      ensures InvLists(old(View())) && (Attempt(old(View()), q).1.Some? ==> (View(), r) == Attempt(old(View()), q))
      ensures Attempt(old(View()), q).1.None? ==>
                var left := RemoveAll(old(InOrder(root)), old(purgeList) + fragmented);
                purgeList == [] && if r.Some? then Placed(left, InOrder(root), q, r.value) else InOrder(root) == left
      ensures r.Some? ==> Placed(old(InOrder(root)), InOrder(root), q, r.value)
                          || Placed(RemoveAll(old(InOrder(root)), old(purgeList) + fragmented), InOrder(root), q, r.value)
      ensures r.None? ==> forall b :: Fits(InOrder(root), q, b) ==> freeVmapCache.Some? && b < freeVmapCache.value.start
    {
      hide Attempt, Placed, Fits, CacheOk, InOrder;
      AttemptFrame(View(), q);
      AllocKeepsInv(View(), q);
      r := AllocAttempt(q);
      if r.None? {
        PurgeLazy(fragmented);
        AttemptFrame(View(), q);
        AllocKeepsInv(View(), q);
        r := AllocAttempt(q);
      }
    }
  }

  /** The cached pointer names a listed area. */
  ghost predicate InvLists(s: Kva) {
    s.cache.Some? ==> s.cache.value in s.areas
  }

  lemma AttemptFrame(s: Kva, q: Request)
    requires Inv(s) && ValidRequest(q)
    ensures InvLists(s) && Attempt(s, q).0.lazy == s.lazy
  {
    hide Search;
  }

  lemma NextReleasable(s: Kva, fragmented: seq<Area>, i: nat, s': Kva, w: Window)
    requires Releasable(s, fragmented) && i < |fragmented| && s.purging == s'.purging == []
    requires s'.areas == s.areas && s'.lazy == s.lazy + fragmented[..i]
    ensures Enabled(s', LazyFree(fragmented[i]))
    ensures var s'' := Apply(s', LazyFree(fragmented[i]), w);
            && s''.areas == s.areas && s''.purging == [] && s''.lazy == s'.lazy + [fragmented[i]]
            && s''.log == s'.log + [Released(fragmented[i])]
  {
    assert fragmented[i] in fragmented;
  }

  lemma LazyFreed(s: Kva, fragmented: seq<Area>, i: nat)
    requires i < |fragmented|
    ensures s.lazy + fragmented[..i] + [fragmented[i]] == s.lazy + fragmented[..i + 1]
    ensures s.log + ReleasedAll(fragmented[..i]) + [Released(fragmented[i])] == s.log + ReleasedAll(fragmented[..i + 1])
  {
  }

  /** The tree descent may stop one place above the canonical start; the walk does not notice. */
  lemma FirstEndingAt(areas: seq<Area>, addr: int, first: nat, q: Request)
    requires Sorted(areas) && ValidRequest(q) && Aligned(addr, q.align) && addr + q.size < ADDRESS_SPACE
    requires first <= |areas| && (first < |areas| ==> addr <= areas[first].end)
    requires forall i :: 0 <= i < first ==> areas[i].end <= addr
    requires first == |areas| ==> forall i :: 0 <= i < first ==> areas[i].end < addr
    ensures var k := CountBelow(areas, addr - 1);
            (k == |areas| <==> first == |areas|)
            && (first < |areas| ==> Walk(areas, first, addr, q, 0) == Walk(areas, k, addr, q, 0))
  {
    var k := CountBelow(areas, addr - 1);
    if first < |areas| && k < first {
      assert forall j :: k < j < |areas| ==> areas[k].end < areas[j].end;
      WalkSkipsTouching(areas, k, addr, q, 0);
    }
  }
}
