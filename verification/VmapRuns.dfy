/** Whole runs of the kernel virtual address allocator: what every sequence of allocations, frees,
    purges and percpu insertions keeps, and when an address may be used again. */
module VmapRuns {
  import opened Common
  import opened VmapAreas
  import opened VmapAlloc

  /** One section under the lock, or one atomic operation on the purge list. */
  datatype Step =
    | Alloc(q: Request)
    | FreeNow(va: Area)              // free_vmap_area
    | LazyFree(va: Area)             // free_vmap_area_noflush up to the purge it may start
    | Detach(lo: int, hi: int)       // __purge_vmap_area_lazy up to and including the flush
    | PurgeOne                       // one round of its freeing loop, which may drop the lock between rounds
    | Percpu(group: seq<Area>, hole: int)

  /** The vmalloc window [start, end). */
  datatype Window = Window(start: int, end: int)

  function Pages(s: seq<Area>): int {
    if s == [] then 0 else (s[0].end - s[0].start) / PAGE_SIZE + Pages(s[1..])
  }

  lemma {:induction false} PagesAppend(s: seq<Area>, t: seq<Area>)
    ensures Pages(s + t) == Pages(s) + Pages(t)
  {
    if s == [] {
      assert s + t == t;
    } else {
      assert (s + t)[1..] == s[1..] + t;
      PagesAppend(s[1..], t);
    }
  }

  /** The range flushed for a purge list: the loop over `valist` from the caller's bounds. */
  function Hull(s: seq<Area>, lo: int, hi: int): (r: (int, int))
    ensures r.0 <= lo && hi <= r.1
    ensures forall a :: a in s ==> r.0 <= a.start && a.end <= r.1
  {
    if s == [] then (lo, hi)
    else Hull(s[1..], if s[0].start < lo then s[0].start else lo, if s[0].end > hi then s[0].end else hi)
  }

  function InsertAll(s: seq<Area>, group: seq<Area>): seq<Area>
    decreases group
  {
    if group == [] then s else InsertAll(Insert(s, group[0]), group[1..])
  }

  function AllocatedAll(group: seq<Area>): (l: seq<Event>)
    ensures |l| == |group| && forall i :: 0 <= i < |l| ==> l[i] == Allocated(group[i])
  {
    seq(|group|, i requires 0 <= i < |group| => Allocated(group[i]))
  }

  /** The pointers a step follows name listed areas; `Inv` shows that they always do. */
  ghost predicate Enabled(s: Kva, step: Step) {
    match step
    case Alloc(q) => ValidRequest(q) && (s.cache.Some? ==> s.cache.value in s.areas)
    case FreeNow(va) => va in s.areas && va !in s.lazy && va !in s.purging
    case LazyFree(va) => va in s.areas && va !in s.lazy && va !in s.purging
    case Detach(_, _) => s.purging == []
    case PurgeOne => s.purging != [] && s.purging[0] in s.areas
    case Percpu(group, _) => Insertable(s.areas, group)
  }

  /** Non-empty areas, clear of the busy ones and of each other. */
  ghost predicate Insertable(s: seq<Area>, group: seq<Area>) {
    && (forall i :: 0 <= i < |group| ==> 0 <= group[i].start < group[i].end && Free(s, group[i].start, group[i].end))
    && (forall i, j :: 0 <= i < j < |group| ==> !Overlaps(group[i], group[j]))
  }

  ghost function Apply(s: Kva, step: Step, w: Window): Kva
    requires Enabled(s, step)
  {
    match step
    case Alloc(q) => Attempt(s, q).0
    case FreeNow(va) => FreeArea(s, va, w.start, w.end)
    case LazyFree(va) =>
      s.(lazy := s.lazy + [va], lazyPages := s.lazyPages + (va.end - va.start) / PAGE_SIZE,
         log := s.log + [Released(va)])
    case Detach(lo, hi) =>
      if s.lazy == [] then s
      else
        var h := Hull(s.lazy, lo, hi);
        s.(lazy := [], purging := s.lazy, log := s.log + [Flushed(h.0, h.1)])
    case PurgeOne =>
      var va := s.purging[0];
      FreeArea(s, va, w.start, w.end).(purging := s.purging[1..],
                                       lazyPages := s.lazyPages - (va.end - va.start) / PAGE_SIZE)
    case Percpu(group, hole) =>
      s.(areas := InsertAll(s.areas, group), pcpuHole := hole, log := s.log + AllocatedAll(group))
  }

  ghost predicate Distinct(s: seq<Area>) {
    forall i, j :: 0 <= i < j < |s| ==> s[i] != s[j]
  }

  /** A flush of all of `a` comes after place `i` and before place `j` of the log. */
  ghost predicate FlushedBetween(log: seq<Event>, a: Area, i: int, j: int) {
    exists k :: 0 <= i < k < j <= |log| && log[k].Flushed? && log[k].lo <= a.start && a.end <= log[k].hi
  }

  /** Every released area is still waiting on the purge list or was flushed since. */
  ghost predicate ReleasesTracked(s: Kva) {
    forall i :: 0 <= i < |s.log| && s.log[i].Released? ==>
      s.log[i].area in s.lazy || FlushedBetween(s.log, s.log[i].area, i, |s.log|)
  }

  /** No address was handed out between its release and a flush of the released area. */
  ghost predicate NoReuseBeforeFlush(log: seq<Event>) {
    forall i, j :: 0 <= i < j < |log| && log[i].Released? && log[j].Allocated? && Overlaps(log[i].area, log[j].area) ==>
      FlushedBetween(log, log[i].area, i, j)
  }

  ghost predicate Inv(s: Kva) {
    && Sorted(s.areas) && CacheOk(s)
    && Distinct(s.lazy + s.purging)
    && (forall a :: a in s.lazy || a in s.purging ==> a in s.areas)
    && s.lazyPages == Pages(s.lazy) + Pages(s.purging)
    && ReleasesTracked(s) && NoReuseBeforeFlush(s.log)
  }

  /** The boot state: some areas in use, no cache, nothing freed yet. */
  ghost predicate Init(s: Kva) {
    && Sorted(s.areas) && s.cache.None? && s.holeSize == 0
    && s.lazy == [] && s.purging == [] && s.lazyPages == 0 && s.log == []
  }

  // ---------- the log ----------

  /** Appending events that are no releases, of areas clear of the purge list, keeps both log facts. */
  lemma AppendAllocations(s: Kva, log': seq<Event>, s': Kva)
    requires ReleasesTracked(s) && NoReuseBeforeFlush(s.log)
    requires s.log <= log' && s'.log == log' && s'.lazy == s.lazy
    requires forall j :: |s.log| <= j < |log'| ==>
               log'[j].Allocated? && forall a :: a in s.lazy ==> !Overlaps(a, log'[j].area)
    ensures ReleasesTracked(s') && NoReuseBeforeFlush(log')
  {
    forall i | 0 <= i < |log'| && log'[i].Released?
      ensures log'[i].area in s.lazy || FlushedBetween(log', log'[i].area, i, |s.log|)
    {
      assert log'[i] == s.log[i];
      if log'[i].area !in s.lazy {
        var k :| 0 <= i < k < |s.log| && s.log[k].Flushed? && s.log[k].lo <= log'[i].area.start && log'[i].area.end <= s.log[k].hi;
        assert log'[k] == s.log[k];
      }
    }
    forall i, j | 0 <= i < j < |log'| && log'[i].Released? && log'[j].Allocated? && Overlaps(log'[i].area, log'[j].area)
      ensures FlushedBetween(log', log'[i].area, i, j)
    {
      if j < |s.log| {
        FlushKept(s.log, log', log'[i].area, i, j);
      } else {
        assert FlushedBetween(log', log'[i].area, i, |s.log|);
      }
    }
  }

  lemma FlushKept(log: seq<Event>, log': seq<Event>, a: Area, i: int, j: int)
    requires log <= log' && FlushedBetween(log, a, i, j)
    ensures FlushedBetween(log', a, i, j)
  {
    var k :| 0 <= i < k < j <= |log| && log[k].Flushed? && log[k].lo <= a.start && a.end <= log[k].hi;
    assert log'[k] == log[k];
  }

  lemma AppendRelease(s: Kva, va: Area, s': Kva)
    requires ReleasesTracked(s) && NoReuseBeforeFlush(s.log)
    requires s'.log == s.log + [Released(va)] && s'.lazy == s.lazy + [va]
    ensures ReleasesTracked(s') && NoReuseBeforeFlush(s'.log)
  {
    forall i | 0 <= i < |s'.log| && s'.log[i].Released?
      ensures s'.log[i].area in s'.lazy || FlushedBetween(s'.log, s'.log[i].area, i, |s'.log|)
    {
      if i < |s.log| && s.log[i].area !in s.lazy {
        FlushKept(s.log, s'.log, s.log[i].area, i, |s.log|);
      }
    }
    forall i, j | 0 <= i < j < |s'.log| && s'.log[i].Released? && s'.log[j].Allocated? && Overlaps(s'.log[i].area, s'.log[j].area)
      ensures FlushedBetween(s'.log, s'.log[i].area, i, j)
    {
      FlushKept(s.log, s'.log, s.log[i].area, i, j);
    }
  }

  lemma AppendFlush(s: Kva, lo: int, hi: int, s': Kva)
    requires ReleasesTracked(s) && NoReuseBeforeFlush(s.log)
    requires s'.log == s.log + [Flushed(lo, hi)] && forall a :: a in s.lazy ==> lo <= a.start && a.end <= hi
    ensures ReleasesTracked(s') && NoReuseBeforeFlush(s'.log)
  {
    forall i | 0 <= i < |s'.log| && s'.log[i].Released?
      ensures FlushedBetween(s'.log, s'.log[i].area, i, |s'.log|)
    {
      if s.log[i].area in s.lazy {
        assert s'.log[|s.log|] == Flushed(lo, hi);
      } else {
        FlushKept(s.log, s'.log, s.log[i].area, i, |s.log|);
      }
    }
    forall i, j | 0 <= i < j < |s'.log| && s'.log[i].Released? && s'.log[j].Allocated? && Overlaps(s'.log[i].area, s'.log[j].area)
      ensures FlushedBetween(s'.log, s'.log[i].area, i, j)
    {
      FlushKept(s.log, s'.log, s.log[i].area, i, j);
    }
  }

  // ---------- one lemma for each kind of step ----------

  lemma AllocKeepsInv(s: Kva, q: Request)
    requires Inv(s) && ValidRequest(q)
    ensures Inv(Attempt(s, q).0)
  {
    AttemptKeepsCache(s, q);
    var (s', r) := Attempt(s, q);
    if r.Some? {
      InsertMembers(s.areas, r.value);
      AppendAllocations(s, s'.log, s');
    }
  }

  lemma LazyFreeKeepsInv(s: Kva, va: Area, w: Window)
    requires Inv(s) && Enabled(s, LazyFree(va))
    ensures Inv(Apply(s, LazyFree(va), w))
  {
    var s' := Apply(s, LazyFree(va), w);
    PagesAppend(s.lazy, [va]);
    AppendRelease(s, va, s');
    var l, l' := s.lazy + s.purging, s'.lazy + s'.purging;
    forall i, j | 0 <= i < j < |l'| ensures l'[i] != l'[j] {
      var n := |s.lazy|;
      assert i < n ==> l'[i] == l[i];
      assert i > n ==> l'[i] == l[i - 1];
      assert j < n ==> l'[j] == l[j];
      assert j > n ==> l'[j] == l[j - 1];
    }
  }

  lemma DetachKeepsInv(s: Kva, lo: int, hi: int, w: Window)
    requires Inv(s) && Enabled(s, Detach(lo, hi))
    ensures Inv(Apply(s, Detach(lo, hi), w))
  {
    if s.lazy != [] {
      var h := Hull(s.lazy, lo, hi);
      assert s.lazy + s.purging == s.lazy && [] + s.lazy == s.lazy;
      AppendFlush(s, h.0, h.1, Apply(s, Detach(lo, hi), w));
    }
  }

  lemma FreeNowKeepsInv(s: Kva, va: Area, w: Window)
    requires Inv(s) && Enabled(s, FreeNow(va))
    ensures Inv(Apply(s, FreeNow(va), w))
  {
    FreeAreaKeepsCache(s, va, w.start, w.end);
    RemoveKeepsOrder(s.areas, va);
  }

  lemma PurgeOneKeepsInv(s: Kva, w: Window)
    requires Inv(s) && Enabled(s, PurgeOne)
    ensures Inv(Apply(s, PurgeOne, w))
  {
    var va, s' := s.purging[0], Apply(s, PurgeOne, w);
    FreeAreaKeepsCache(s, va, w.start, w.end);
    RemoveKeepsOrder(s.areas, va);
    var l, l', n := s.lazy + s.purging, s'.lazy + s'.purging, |s.lazy|;
    assert l[n] == va;
    assert forall i :: 0 <= i < n ==> l'[i] == l[i] && l[i] != va;
    assert forall i :: n <= i < |l'| ==> l'[i] == l[i + 1] && l[i + 1] != va;
    forall a | a in s'.lazy || a in s'.purging ensures a in s'.areas {
      assert a in l';
    }
  }

  lemma {:induction false} InsertAllKeepsOrder(s: seq<Area>, group: seq<Area>)
    requires Sorted(s) && Insertable(s, group)
    ensures Sorted(InsertAll(s, group))
    ensures forall a :: a in InsertAll(s, group) <==> a in s || a in group
    decreases group
  {
    if group != [] {
      InsertKeepsOrder(s, group[0]);
      InsertMembers(s, group[0]);
      assert group == [group[0]] + group[1..];
      InsertAllKeepsOrder(Insert(s, group[0]), group[1..]);
    }
  }

  /** Inserting a group leaves the cache as sound as it was. */
  lemma InsertAllKeepsCache(s: Kva, group: seq<Area>, s': Kva)
    requires Sorted(s.areas) && CacheOk(s) && Insertable(s.areas, group)
    requires s'.areas == InsertAll(s.areas, group) && s'.cache == s.cache && s'.holeSize == s.holeSize
    requires s'.vstart == s.vstart && s'.align == s.align
    ensures CacheOk(s')
  {
    hide HoleBound, Insertable, Insert;
    InsertAllKeepsOrder(s.areas, group);
    if s.cache.Some? {
      HoleBoundWeakens(s.areas, s'.areas, s.align, s.vstart, s.cache.value.start, s.holeSize, s.holeSize);
    }
  }

  lemma PercpuKeepsInv(s: Kva, group: seq<Area>, hole: int, w: Window)
    requires Inv(s) && Enabled(s, Percpu(group, hole))
    ensures Inv(Apply(s, Percpu(group, hole), w))
  {
    hide HoleBound, CacheOk, Insert;
    var s' := Apply(s, Percpu(group, hole), w);
    InsertAllKeepsOrder(s.areas, group);
    InsertAllKeepsCache(s, group, s');
    forall j | |s.log| <= j < |s'.log|
      ensures s'.log[j].Allocated? && forall a :: a in s.lazy ==> !Overlaps(a, s'.log[j].area)
    {
      assert s'.log[j] == Allocated(group[j - |s.log|]);
    }
    AppendAllocations(s, s'.log, s');
  }

  lemma StepKeepsInv(s: Kva, step: Step, w: Window)
    requires Inv(s) && Enabled(s, step)
    ensures Inv(Apply(s, step, w))
  {
    match step
    case Alloc(q) => AllocKeepsInv(s, q);
    case FreeNow(va) => FreeNowKeepsInv(s, va, w);
    case LazyFree(va) => LazyFreeKeepsInv(s, va, w);
    case Detach(lo, hi) => DetachKeepsInv(s, lo, hi, w);
    case PurgeOne => PurgeOneKeepsInv(s, w);
    case Percpu(group, hole) => PercpuKeepsInv(s, group, hole, w);
  }

  // ---------- runs ----------

  ghost predicate Follows(s: Kva, s': Kva, w: Window) {
    exists step :: Enabled(s, step) && s' == Apply(s, step, w)
  }

  /** A sequence of states from boot, each reached from the one before by a step. */
  ghost predicate IsRun(run: seq<Kva>, w: Window) {
    && run != [] && Init(run[0])
    && forall i :: 0 <= i < |run| - 1 ==> Follows(run[i], run[i + 1], w)
  }

  lemma InitIsInv(s: Kva)
    requires Init(s)
    ensures Inv(s)
  {
    assert s.lazy + s.purging == [];
  }

  lemma {:induction false} RunsKeepInv(run: seq<Kva>, w: Window, n: nat)
    requires IsRun(run, w) && n < |run|
    ensures Inv(run[n])
  {
    hide Inv, Enabled, Apply, Init;
    if n == 0 {
      InitIsInv(run[0]);
    } else {
      RunsKeepInv(run, w, n - 1);
      assert Follows(run[n - 1], run[n - 1 + 1], w);
      var step :| Enabled(run[n - 1], step) && run[n] == Apply(run[n - 1], step, w);
      StepKeepsInv(run[n - 1], step, w);
    }
  }

  /** The log grows by exactly what the step hands out: areas that were free before and are busy now. */
  ghost predicate LogsWhatItHandsOut(s: Kva, s': Kva) {
    && s.log <= s'.log
    && (forall a :: a in s'.areas && a !in s.areas ==> Allocated(a) in s'.log[|s.log|..])
    && (forall k :: |s.log| <= k < |s'.log| && s'.log[k].Allocated? ==>
          s'.log[k].area in s'.areas && Free(s.areas, s'.log[k].area.start, s'.log[k].area.end))
  }

  lemma AttemptLogs(s: Kva, q: Request)
    requires Inv(s) && ValidRequest(q)
    ensures LogsWhatItHandsOut(s, Attempt(s, q).0)
  {
    AttemptKeepsCache(s, q);
    var (s', r) := Attempt(s, q);
    if r.Some? {
      InsertMembers(s.areas, r.value);
      assert s'.log[|s.log|..] == [Allocated(r.value)];
    }
  }

  lemma PercpuLogs(s: Kva, group: seq<Area>, hole: int, w: Window)
    requires Inv(s) && Enabled(s, Percpu(group, hole))
    ensures LogsWhatItHandsOut(s, Apply(s, Percpu(group, hole), w))
  {
    hide InsertAll;
    var s' := Apply(s, Percpu(group, hole), w);
    InsertAllKeepsOrder(s.areas, group);
    assert s'.log[|s.log|..] == AllocatedAll(group);
    forall a | a in s'.areas && a !in s.areas ensures Allocated(a) in s'.log[|s.log|..] {
      var i :| 0 <= i < |group| && group[i] == a;
      assert AllocatedAll(group)[i] == Allocated(a);
    }
    forall k | |s.log| <= k < |s'.log| && s'.log[k].Allocated?
      ensures s'.log[k].area in s'.areas && Free(s.areas, s'.log[k].area.start, s'.log[k].area.end)
    {
      assert s'.log[k] == AllocatedAll(group)[k - |s.log|];
    }
  }

  lemma FreeLogs(s: Kva, step: Step, w: Window)
    requires Inv(s) && Enabled(s, step) && (step.FreeNow? || step.PurgeOne? || step.LazyFree? || step.Detach?)
    ensures LogsWhatItHandsOut(s, Apply(s, step, w))
  {
    match step
    case FreeNow(va) => RemoveKeepsOrder(s.areas, va);
    case PurgeOne => RemoveKeepsOrder(s.areas, s.purging[0]);
    case _ =>
  }

  /** In every run each step's log entries are exactly for the areas it hands out, all of them free before; so
      a busy area was busy at boot or has been logged. */
  lemma {:induction false} RunsLogHandOuts(run: seq<Kva>, w: Window, n: nat)
    requires IsRun(run, w) && n < |run|
    ensures n > 0 ==> LogsWhatItHandsOut(run[n - 1], run[n])
    ensures forall a :: a in run[n].areas ==> a in run[0].areas || Allocated(a) in run[n].log
  {
    hide Inv, Enabled, Apply, Init;
    if n > 0 {
      RunsLogHandOuts(run, w, n - 1);
      RunsKeepInv(run, w, n - 1);
      assert Follows(run[n - 1], run[n - 1 + 1], w);
      var step :| Enabled(run[n - 1], step) && run[n] == Apply(run[n - 1], step, w);
      StepLogs(run[n - 1], step, w);
      forall a | a in run[n].areas ensures a in run[0].areas || Allocated(a) in run[n].log {
        assert run[n].log == run[n - 1].log + run[n].log[|run[n - 1].log|..];
      }
    }
  }

  lemma StepLogs(s: Kva, step: Step, w: Window)
    requires Inv(s) && Enabled(s, step)
    ensures LogsWhatItHandsOut(s, Apply(s, step, w))
  {
    hide Inv, LogsWhatItHandsOut, Attempt, FreeArea, InsertAll;
    match step
    case Alloc(q) => AttemptLogs(s, q);
    case Percpu(group, hole) => PercpuLogs(s, group, hole, w);
    case _ => FreeLogs(s, step, w);
  }

  /** In every state of every run the busy areas are sorted and disjoint, the cached position is a
      listed area, and the lazy counter is the number of pages released but not yet removed. */
  lemma RunsKeepAreas(run: seq<Kva>, w: Window, n: nat)
    requires IsRun(run, w) && n < |run|
    ensures Sorted(run[n].areas) && CacheOk(run[n])
    ensures run[n].lazyPages == Pages(run[n].lazy) + Pages(run[n].purging)
  {
    RunsKeepInv(run, w, n);
  }

  /** In every run, an address of a released area is handed out again only after a flush of the
      whole released area. */
  lemma RunsFlushBeforeReuse(run: seq<Kva>, w: Window, n: nat, i: int, j: int)
    requires IsRun(run, w) && n < |run|
    requires 0 <= i < j < |run[n].log| && run[n].log[i].Released? && run[n].log[j].Allocated?
    requires Overlaps(run[n].log[i].area, run[n].log[j].area)
    ensures exists k :: i < k < j && run[n].log[k].Flushed?
              && run[n].log[k].lo <= run[n].log[i].area.start && run[n].log[i].area.end <= run[n].log[k].hi
  {
    RunsKeepInv(run, w, n);
    assert FlushedBetween(run[n].log, run[n].log[i].area, i, j);
  }

  /** In every run, an allocation of any size but the recorded hole size is plain first fit. */
  lemma RunsAreFirstFit(run: seq<Kva>, w: Window, n: nat, q: Request)
    requires IsRun(run, w) && n < |run| && ValidRequest(q) && q.size != run[n].holeSize
    ensures CacheOk(run[n]) && IsFirstFit(run[n].areas, q, Attempt(run[n], q).1)
  {
    RunsKeepInv(run, w, n);
    CachedSearchRefinesFirstFit(run[n], q);
  }

  // ---------- the one size first fit can miss ----------

  function OnePage(i: int): Area { Area(i * PAGE_SIZE, (i + 1) * PAGE_SIZE) }

  /** Boot with pages 1 and 2 in use. */
  function HoleBefore(): Kva { Kva([OnePage(1), OnePage(2)], None, 0, 0, 1, 0, [], [], 0, []) }

  function Ask(pages: int): Request { Request(pages * PAGE_SIZE, 1, 0, 5 * PAGE_SIZE) }

  /** Two pages land at 3, past the free page 0, whose size becomes the recorded hole size. */
  function HoleAfter(): Kva {
    var va := Area(3 * PAGE_SIZE, 5 * PAGE_SIZE);
    Kva([OnePage(1), OnePage(2), va], Some(va), PAGE_SIZE, 0, 1, 0, [], [], 0, [Allocated(va)])
  }

  lemma TwoPagesSkipHole()
    ensures Attempt(HoleBefore(), Ask(2)).0 == HoleAfter()
  {
    var s0, two := HoleBefore(), Ask(2);
    assert CountBelow(s0.areas, -1) == 0;
    assert Walk(s0.areas, 1, 2 * PAGE_SIZE, two, PAGE_SIZE) == Found(3 * PAGE_SIZE, PAGE_SIZE);
    assert Search(s0, two) == Found(3 * PAGE_SIZE, PAGE_SIZE);
    assert CountBelow(s0.areas, 3 * PAGE_SIZE) == 2;
  }

  lemma OnePageRefused()
    ensures HoleAfter().cache.value in HoleAfter().areas && Attempt(HoleAfter(), Ask(1)).1 == None
    ensures Fits(HoleAfter().areas, Ask(1), 0)
  {
    var s1, one := HoleAfter(), Ask(1);
    assert s1.areas[2] == s1.cache.value && IndexOf(s1.areas, s1.cache.value) == 2;
    assert Search(s1, one) == Found(5 * PAGE_SIZE, PAGE_SIZE);
  }

  /** One page asked for next: the recorded hole is exactly one page, the search resumes at page 5 and
      reports failure although page 0 is free. */
  lemma ExactHoleIsMissed(w: Window)
    ensures exists run: seq<Kva>, q: Request :: IsRun(run, w) && |run| == 2 && ValidRequest(q)
              && CacheOk(run[1]) && q.size == run[1].holeSize
              && Attempt(run[1], q).1 == None && Fits(run[1].areas, q, 0)
  {
    hide Attempt, CacheOk, Fits;
    TwoPagesSkipHole();
    OnePageRefused();
    var run := [HoleBefore(), HoleAfter()];
    assert Init(run[0]) && Enabled(run[0], Alloc(Ask(2)));
    assert Apply(run[0], Alloc(Ask(2)), w) == run[1];
    assert IsRun(run, w);
    RunsKeepAreas(run, w, 1);
    assert ValidRequest(Ask(1)) && Ask(1).size == run[1].holeSize;
  }
}
