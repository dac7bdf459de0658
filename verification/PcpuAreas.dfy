/** The top-down allocator of congruent areas for the percpu allocator: a base address at which all
    the requested areas, at their fixed offsets, are clear of the busy ones. */
module PcpuAreas {
  import opened Common
  import opened VmapAreas
  import opened VmapAlloc
  import opened VmapRuns
  import opened VmapKva

  /** Offset and size of each wanted area, and the common alignment. */
  datatype Group = Group(offsets: seq<int>, sizes: seq<int>, align: int)

  function Start(g: Group, i: nat): int
    requires i < |g.offsets|
  {
    g.offsets[i]
  }

  function End(g: Group, i: nat): int
    requires i < |g.offsets| == |g.sizes|
  {
    g.offsets[i] + g.sizes[i]
  }

  /** The BUG_ONs that verify the parameters; sizes are positive. */
  ghost predicate ValidGroup(g: Group) {
    && |g.offsets| == |g.sizes| > 0
    && g.align > 0 && IsPowerOf2(g.align) && g.align % PAGE_SIZE == 0
    && (forall i :: 0 <= i < |g.offsets| ==>
          0 <= g.offsets[i] && 0 < g.sizes[i] && Aligned(g.offsets[i], g.align) && Aligned(g.sizes[i], g.align))
    && (forall i, j :: 0 <= i < j < |g.offsets| ==> !(Start(g, j) < End(g, i) && Start(g, i) < End(g, j)))
  }

  /** The areas of the group with the group's base at `base`. */
  function Slots(g: Group, base: int): (s: seq<Area>)
    requires |g.offsets| == |g.sizes|
    ensures |s| == |g.offsets|
    ensures forall i :: 0 <= i < |s| ==> s[i] == Area(base + Start(g, i), base + End(g, i))
  {
    seq(|g.offsets|, i requires 0 <= i < |g.offsets| => Area(base + Start(g, i), base + End(g, i)))
  }

  ghost predicate SlotFree(areas: seq<Area>, g: Group, i: nat, base: int)
    requires i < |g.offsets| == |g.sizes|
  {
    Free(areas, base + Start(g, i), base + End(g, i))
  }

  /** All the areas of the group are clear of the busy ones at `base`. */
  ghost predicate FitsAt(areas: seq<Area>, g: Group, base: int)
    requires |g.offsets| == |g.sizes|
  {
    forall i :: 0 <= i < |g.offsets| ==> SlotFree(areas, g, i, base)
  }

  lemma GroupFacts(g: Group, i: nat)
    requires ValidGroup(g) && i < |g.offsets|
    ensures g.align > 0 && |g.sizes| == |g.offsets| && 0 <= Start(g, i) < End(g, i)
  {
  }

  /** The place of the area with the highest offset. */
  method LastArea(g: Group) returns (last: nat)
    requires ValidGroup(g)
    ensures last < |g.offsets| && forall i :: 0 <= i < |g.offsets| ==> End(g, i) <= End(g, last)
  {
    last := 0;
    for area := 0 to |g.offsets|
      invariant last < |g.offsets|
      invariant forall i :: 0 <= i < area ==> g.offsets[i] <= g.offsets[last]
    {
      if g.offsets[area] > g.offsets[last] {
        last := area;
      }
    }
    forall i | 0 <= i < |g.offsets| ensures End(g, i) <= End(g, last) {
      assert Start(g, i) <= Start(g, last);
    }
  }

  // ---------- 64-bit wrap-around ----------

  function Wrap(x: int): (r: int)
    ensures 0 <= r < ADDRESS_SPACE
  {
    x % ADDRESS_SPACE
  }

  lemma WrapAdd(x: int, y: int)
    ensures 0 <= x + y < ADDRESS_SPACE ==> Wrap(Wrap(x) + y) == x + y
  {
    var k := x / ADDRESS_SPACE;
    assert Wrap(x) + y == x + y - k * ADDRESS_SPACE;
  }

  // ---------- the search ----------

  /** The highest end address the search considers first: aligned, inside the window, and not above
      the start of the first area that ends above the percpu hole mark. */
  function FirstEnd(areas: seq<Area>, hole: int, align: int, vmEnd: int): int
    requires align > 0
  {
    EndBelow(areas, CountBelow(areas, hole), align, vmEnd)
  }

  /** The highest aligned address not above area `next`, nor above the window. */
  function EndBelow(areas: seq<Area>, next: int, align: int, vmEnd: int): int
    requires align > 0 && 0 <= next
  {
    if next < |areas| && AlignDown(areas[next].start, align) < vmEnd then AlignDown(areas[next].start, align) else vmEnd
  }

  /** `next` is the first area that ends above `end`, `prev` the one before it. */
  ghost predicate Encloses(areas: seq<Area>, next: int, prev: int, end: int) {
    && prev == next - 1 && 0 <= next <= |areas|
    && (forall i :: 0 <= i < next ==> areas[i].end <= end)
    && (forall i :: next <= i < |areas| ==> end < areas[i].end)
  }

  /** `pvm_determine_end`. */
  method PvmDetermineEnd(areas: seq<Area>, next0: int, prev0: int, align: int, vmEnd: int)
    returns (addr: int, next: int, prev: int)
    requires Sorted(areas) && align > 0 && Aligned(vmEnd, align) && 0 <= vmEnd
    requires prev0 == next0 - 1 && 0 <= next0 <= |areas|
    ensures addr == EndBelow(areas, next0, align, vmEnd)
    ensures next0 < |areas| ==> addr <= areas[next0].start
    ensures Aligned(addr, align) && 0 <= addr && Encloses(areas, next, prev, addr)
  {
    if next0 < |areas| {
      var down := AlignDown(areas[next0].start, align);
      addr := if down < vmEnd then down else vmEnd;
      AlignDownIsGreatest(areas[next0].start, 0, align);
    } else {
      addr := vmEnd;
    }
    next, prev := next0, prev0;
    while prev >= 0 && areas[prev].end > addr
      invariant prev == next - 1 && 0 <= next <= |areas|
      invariant forall i :: next <= i < |areas| ==> addr < areas[i].end
      decreases prev
    {
      next := prev;
      prev := prev - 1;
    }
  }

  /** With area `k` in the way of slot `i`, no aligned base from the address below it up to `base` serves. */
  lemma SlotBlocked(areas: seq<Area>, g: Group, i: nat, base: int, k: nat, vmEnd: int)
    requires ValidGroup(g) && i < |g.offsets| && k < |areas| && areas[k].start < areas[k].end
    requires Aligned(base, g.align) && Aligned(vmEnd, g.align)
    requires areas[k].start < base + End(g, i) <= vmEnd && base + Start(g, i) < areas[k].end
    ensures var lower := EndBelow(areas, k, g.align, vmEnd) - End(g, i);
            && lower < base && Aligned(lower, g.align)
            && forall b :: Aligned(b, g.align) && lower < b <= base ==> !FitsAt(areas, g, b)
  {
    var addr, blk := EndBelow(areas, k, g.align, vmEnd), areas[k];
    AlignedSum(g.offsets[i], g.sizes[i], g.align);
    AlignedSum(addr, End(g, i), g.align);
    forall b | Aligned(b, g.align) && addr - End(g, i) < b <= base ensures !FitsAt(areas, g, b) {
      AlignedSum(b, End(g, i), g.align);
      if b + End(g, i) <= blk.start {
        AlignDownIsGreatest(blk.start, b + End(g, i), g.align);
      }
      assert blk in areas;
      assert !SlotFree(areas, g, i, b);
    }
  }

  /** The area reached `n` places before `t`, cyclically. */
  function Back(t: nat, n: nat, nr: nat): (r: nat)
    requires t < nr && n <= nr
    ensures r < nr
  {
    if n <= t then t - n else if n == nr then t else t - n + nr
  }

  function Previous(area: nat, nr: nat): (r: nat)
    requires area < nr
    ensures r < nr
  {
    (area + nr - 1) % nr
  }

  lemma BackStep(t: nat, n: nat, nr: nat)
    requires t < nr && n < nr
    ensures Previous(Back(t, n, nr), nr) == Back(t, n + 1, nr)
  {
    PreviousIs(Back(t, n, nr), nr);
  }

  lemma PreviousIs(a: nat, nr: nat)
    requires a < nr
    ensures Previous(a, nr) == if a == 0 then nr - 1 else a - 1
  {
    var x := a + nr - 1;
    var q, r := x / nr, x % nr;
    assert x == q * nr + r;
    MultipleSign(q, nr);
    MultipleSign(q - 1, nr);
    assert (q - 1) * nr == q * nr - nr;
  }

  lemma BackReaches(t: nat, i: nat, nr: nat) returns (n: nat)
    requires t < nr && i < nr
    ensures n < nr && Back(t, n, nr) == i
  {
    n := if i <= t then t - i else t - i + nr;
  }

  function WindowStart(g: Group, w: Window): int
    requires g.align > 0
  {
    AlignUp(w.start, g.align)
  }

  function WindowEnd(g: Group, w: Window): int
    requires g.align > 0
  {
    AlignDown(w.end, g.align)
  }

  /** The highest base the search considers. */
  function TopBase(areas: seq<Area>, hole: int, g: Group, last: nat, vmEnd: int): int
    requires g.align > 0 && last < |g.offsets| == |g.sizes|
  {
    FirstEnd(areas, hole, g.align, vmEnd) - End(g, last)
  }

  /** `base` is the highest aligned base from `low` up to `top` at which the group fits. */
  ghost predicate IsHighestFit(areas: seq<Area>, g: Group, low: int, top: int, base: int)
    requires g.align > 0 && |g.offsets| == |g.sizes|
  {
    && Aligned(base, g.align) && low <= base <= top && FitsAt(areas, g, base)
    && forall b :: Aligned(b, g.align) && base < b <= top ==> !FitsAt(areas, g, b)
  }

  ghost predicate NoFit(areas: seq<Area>, g: Group, low: int, top: int)
    requires g.align > 0 && |g.offsets| == |g.sizes|
  {
    forall b :: Aligned(b, g.align) && low <= b <= top ==> !FitsAt(areas, g, b)
  }

  /** What the scan has established with its base at `tb`: the areas from `term` back to `area` fit
      there, and every aligned base above `tb` fails. */
  ghost predicate ScanOk(areas: seq<Area>, g: Group, top: int, tb: int, area: nat, term: nat, n: nat)
    requires g.align > 0 && |g.offsets| == |g.sizes|
  {
    && n < |g.offsets| && term < |g.offsets| && area == Back(term, n, |g.offsets|)
    && Aligned(tb, g.align) && tb <= top
    && (forall j :: 0 <= j < n ==> SlotFree(areas, g, Back(term, j, |g.offsets|), tb))
    && (forall b :: Aligned(b, g.align) && tb < b <= top ==> !FitsAt(areas, g, b))
  }

  lemma EmptyFits(areas: seq<Area>, hole: int, g: Group, last: nat, vmStart: int, vmEnd: int)
    requires ValidGroup(g) && areas == [] && last < |g.offsets|
    requires Aligned(vmEnd, g.align) && End(g, last) <= vmEnd - vmStart
    ensures IsHighestFit(areas, g, vmStart, TopBase(areas, hole, g, last, vmEnd), vmEnd - End(g, last))
  {
    AlignedSum(g.offsets[last], g.sizes[last], g.align);
    AlignedSum(vmEnd, End(g, last), g.align);
  }

  lemma ScanStarts(areas: seq<Area>, hole: int, g: Group, last: nat, vmEnd: int)
    requires ValidGroup(g) && last < |g.offsets| && Aligned(vmEnd, g.align)
    ensures var top := TopBase(areas, hole, g, last, vmEnd);
            top == FirstEnd(areas, hole, g.align, vmEnd) - End(g, last) && top + End(g, last) <= vmEnd
            && ScanOk(areas, g, top, top, last, last, 0)
  {
    AlignedSum(g.offsets[last], g.sizes[last], g.align);
    AlignedSum(FirstEnd(areas, hole, g.align, vmEnd), End(g, last), g.align);
  }

  /** Pulling the base down below area `k`, which is in the way. */
  lemma PullDown(areas: seq<Area>, g: Group, top: int, tb: int, area: nat, term: nat, n: nat, k: nat, vmEnd: int)
    requires ValidGroup(g) && Sorted(areas) && Aligned(vmEnd, g.align)
    requires ScanOk(areas, g, top, tb, area, term, n) && k < |areas|
    requires areas[k].start < tb + End(g, area) <= vmEnd && tb + Start(g, area) < areas[k].end
    ensures var tb' := EndBelow(areas, k, g.align, vmEnd) - End(g, area);
            tb' < tb && ScanOk(areas, g, top, tb', area, area, 0)
  {
    SlotBlocked(areas, g, area, tb, k, vmEnd);
  }

  /** The current area fits: either all areas have been checked, or the scan goes on at the area before. */
  lemma MoveOn(areas: seq<Area>, g: Group, top: int, tb: int, next: int, prev: int, area: nat, term: nat, n: nat)
    requires ValidGroup(g) && Sorted(areas) && ScanOk(areas, g, top, tb, area, term, n)
    requires Encloses(areas, next, prev, tb + End(g, area))
    requires next < |areas| ==> tb + End(g, area) <= areas[next].start
    requires prev >= 0 ==> areas[prev].end <= tb + Start(g, area)
    ensures var nr := |g.offsets|;
            var area' := Previous(area, nr);
            && 0 <= area' < nr
            && (area' == term ==> FitsAt(areas, g, tb))
            && (area' != term ==> n + 1 < nr && ScanOk(areas, g, top, tb, area', term, n + 1))
  {
    var nr := |g.offsets|;
    EnclosedIsFree(areas, next, prev, tb + Start(g, area), tb + End(g, area));
    BackStep(term, n, nr);
    assert forall j :: 0 <= j < n + 1 ==> SlotFree(areas, g, Back(term, j, nr), tb);
    if n + 1 == nr {
      forall i | 0 <= i < nr ensures SlotFree(areas, g, i, tb) {
        var j := BackReaches(term, i, nr);
      }
    }
  }

  lemma ScanEnds(areas: seq<Area>, g: Group, top: int, tb: int, area: nat, term: nat, n: nat, low: int)
    requires ValidGroup(g) && ScanOk(areas, g, top, tb, area, term, n)
    ensures tb < low ==> NoFit(areas, g, low, top)
    ensures low <= tb && FitsAt(areas, g, tb) ==> IsHighestFit(areas, g, low, top, tb)
  {
  }

  lemma EnclosedIsFree(areas: seq<Area>, next: int, prev: int, lo: int, hi: int)
    requires Sorted(areas) && lo < hi && Encloses(areas, next, prev, hi)
    requires next < |areas| ==> hi <= areas[next].start
    requires prev >= 0 ==> areas[prev].end <= lo
    ensures Free(areas, lo, hi)
  {
    forall a | a in areas ensures a.end <= lo || hi <= a.start {
      var i :| 0 <= i < |areas| && areas[i] == a;
      assert i < prev ==> areas[i].end <= areas[prev].start;
      assert next < i ==> areas[next].end <= areas[i].start;
    }
  }

  /** The unsigned values of base + y, for y the end or the start of the current area and for the last end. */
  lemma WrapBase(tb: int, start: int, end: int, lastEnd: int, vmStart: int, vmEnd: int)
    requires 0 <= start <= end <= lastEnd <= vmEnd - vmStart && 0 <= vmStart && vmEnd < ADDRESS_SPACE
    requires 0 <= tb + end <= tb + lastEnd <= vmEnd
    ensures Wrap(Wrap(tb) + end) == tb + end
    ensures Wrap(Wrap(tb) + lastEnd) < Wrap(vmStart + lastEnd) <==> tb < vmStart
    ensures 0 <= tb ==> Wrap(Wrap(tb) + start) == tb + start && Wrap(tb) == tb
  {
    WrapAdd(tb, end);
    WrapAdd(tb, lastEnd);
    WrapAdd(tb, start);
    WrapAdd(vmStart + lastEnd, 0);
  }

  lemma AreaIsNonEmpty(areas: seq<Area>, k: nat)
    requires Sorted(areas) && k < |areas|
    ensures areas[k].start < areas[k].end
  {
  }

  /** The two overlap checks of one round: when `next` or `prev` is in the way of the current area, the
      address its end is pulled down to, with the areas that enclose it. */
  method Recheck(areas: seq<Area>, next0: int, prev0: int, start: int, end: int, base: int, align: int, vmEnd: int,
                 ghost g: Group, ghost top: int, ghost tb: int, ghost area: nat, ghost term: nat, ghost n: nat)
    returns (moved: bool, addr: int, next: int, prev: int)
    requires ValidGroup(g) && Sorted(areas) && align == g.align && Aligned(vmEnd, align) && 0 <= tb + end <= vmEnd
    requires area < |g.offsets|
    requires ScanOk(areas, g, top, tb, area, term, n) && start == Start(g, area) && end == End(g, area)
    requires Encloses(areas, next0, prev0, tb + end)
    requires Wrap(base + end) == tb + end && Wrap(base + start) == tb + start
    ensures moved ==> 0 <= addr < tb + end && ScanOk(areas, g, top, addr - end, area, area, 0) && Encloses(areas, next, prev, addr)
    ensures !moved ==> (next == next0 && prev == prev0
                        && (next < |areas| ==> tb + end <= areas[next].start)
                        && (prev >= 0 ==> areas[prev].end <= tb + start))
  {
    hide Aligned, AlignDown, FitsAt, SlotFree, Wrap, IsPowerOf2, ScanOk, Sorted, ValidGroup, EndBelow;
    GroupFacts(g, area);
    next, prev := next0, prev0;
    if next < |areas| && areas[next].start < Wrap(base + end) {
      addr, next, prev := PvmDetermineEnd(areas, next, prev, align, vmEnd);
      PullDown(areas, g, top, tb, area, term, n, next0, vmEnd);
      return true, addr, next, prev;
    }
    if prev >= 0 && areas[prev].end > Wrap(base + start) {
      next := prev;
      prev := prev - 1;
      addr, next, prev := PvmDetermineEnd(areas, next, prev, align, vmEnd);
      AreaIsNonEmpty(areas, prev0);
      PullDown(areas, g, top, tb, area, term, n, prev0, vmEnd);
      return true, addr, next, prev;
    }
    return false, 0, next, prev;
  }

  lemma AroundEncloses(areas: seq<Area>, next: int, prev: int, x: int)
    requires prev == next - 1 && 0 <= next <= |areas|
    requires forall i :: 0 <= i < next ==> areas[i].end <= x
    requires forall i :: next <= i < |areas| ==> x < areas[i].end
    ensures Encloses(areas, next, prev, x)
  {
  }

  /** Between two rounds: the scan stands at `area` with its true base at `tb`. */
  ghost predicate Scanning(areas: seq<Area>, g: Group, top: int, vmEnd: int, last: nat, tb: int, base: int, area: nat, term: nat, n: nat,
                           next: int, prev: int)
    requires ValidGroup(g) && area < |g.offsets| && last < |g.offsets|
  {
    && n < |g.offsets| && term < |g.offsets| && ScanOk(areas, g, top, tb, area, term, n)
    && Encloses(areas, next, prev, tb + End(g, area))
    && base == Wrap(tb) && 0 <= tb + End(g, area) <= tb + End(g, last) <= vmEnd
  }

  /** The two BUG_ONs and what the wrap-tolerant comparison decides. */
  lemma RoundFacts(areas: seq<Area>, g: Group, top: int, vmStart: int, vmEnd: int, last: nat, tb: int, base: int, area: nat, term: nat, n: nat,
                   next: int, prev: int)
    requires ValidGroup(g) && area < |g.offsets| && last < |g.offsets| && End(g, area) <= End(g, last)
    requires 0 <= vmStart && vmEnd < ADDRESS_SPACE && End(g, last) <= vmEnd - vmStart
    requires Scanning(areas, g, top, vmEnd, last, tb, base, area, term, n, next, prev)
    ensures n < |g.offsets| && term < |g.offsets| && prev == next - 1 && 0 <= next <= |areas|
    ensures Wrap(base + End(g, area)) == tb + End(g, area)
    ensures !(next < |areas| && areas[next].end <= Wrap(base + End(g, area)))
    ensures !(prev >= 0 && areas[prev].end > Wrap(base + End(g, area)))
    ensures Wrap(base + End(g, last)) < Wrap(vmStart + End(g, last)) <==> tb < vmStart
    ensures tb < vmStart ==> NoFit(areas, g, vmStart, top)
    ensures vmStart <= tb ==>
              Wrap(base + Start(g, area)) == tb + Start(g, area) && base == tb && (FitsAt(areas, g, tb) ==> IsHighestFit(areas, g, vmStart, top, tb))
  {
    hide ScanOk, NoFit, IsHighestFit, FitsAt, ValidGroup, Wrap;
    GroupFacts(g, area);
    WrapBase(tb, Start(g, area), End(g, area), End(g, last), vmStart, vmEnd);
    ScanEnds(areas, g, top, tb, area, term, n, vmStart);
  }

  lemma PulledDown(areas: seq<Area>, g: Group, top: int, vmEnd: int, last: nat, tb: int, base: int, area: nat, term: nat, n: nat,
                   next: int, prev: int, addr: int, next': int, prev': int)
    requires ValidGroup(g) && area < |g.offsets| && last < |g.offsets| && End(g, area) <= End(g, last)
    requires Scanning(areas, g, top, vmEnd, last, tb, base, area, term, n, next, prev)
    requires 0 <= addr < tb + End(g, area) && ScanOk(areas, g, top, addr - End(g, area), area, area, 0) && Encloses(areas, next', prev', addr)
    ensures Scanning(areas, g, top, vmEnd, last, addr - End(g, area), Wrap(addr - End(g, area)), area, area, 0, next', prev')
    ensures -End(g, last) <= addr - End(g, area) < tb
  {
    hide ScanOk, Encloses, Wrap, ValidGroup;
  }

  lemma ScansOn(areas: seq<Area>, g: Group, top: int, vmStart: int, vmEnd: int, last: nat, tb: int, base: int, area: nat, term: nat, n: nat,
                next: int, prev: int)
    requires ValidGroup(g) && area < |g.offsets| && last < |g.offsets| && n < |g.offsets| && term < |g.offsets| && End(g, area) <= End(g, last)
    requires 0 <= vmStart <= tb == base && tb + End(g, last) <= vmEnd < ADDRESS_SPACE && ScanOk(areas, g, top, tb, area, term, n)
    requires End(g, last) <= vmEnd - vmStart && base == Wrap(tb)
    ensures Wrap(base + End(g, area)) == tb + End(g, area)
    ensures Encloses(areas, next, prev, Wrap(base + End(g, area))) ==>
              Scanning(areas, g, top, vmEnd, last, tb, base, area, term, n, next, prev)
  {
    hide ScanOk, Encloses, ValidGroup, Wrap;
    GroupFacts(g, area);
    WrapBase(tb, Start(g, area), End(g, area), End(g, last), vmStart, vmEnd);
  }

  /** The scanning loop under the lock. `base` is held modulo 2^64 as in the original; `tb` is its true
      value. The two BUG_ONs are the asserts at the head of the loop, and the wrap-tolerant comparison
      is shown to compare the true values. */
  method ScanBase(root: Tree, hole: int, g: Group, last: nat, vmStart: int, vmEnd: int) returns (r: Option<int>)
    requires ValidGroup(g) && Sorted(InOrder(root)) && last < |g.offsets|
    requires forall i :: 0 <= i < |g.offsets| ==> End(g, i) <= End(g, last)
    requires 0 <= vmStart && vmEnd < ADDRESS_SPACE && Aligned(vmEnd, g.align) && End(g, last) <= vmEnd - vmStart
    ensures r.Some? ==> IsHighestFit(InOrder(root), g, vmStart, TopBase(InOrder(root), hole, g, last, vmEnd), r.value)
    ensures r.None? ==> NoFit(InOrder(root), g, vmStart, TopBase(InOrder(root), hole, g, last, vmEnd))
  {
    hide Aligned, AlignDown, FitsAt, SlotFree, Wrap, IsPowerOf2, ScanOk, NoFit, IsHighestFit, TopBase, Start, End,
      Previous, Sorted, EndBelow, ValidGroup, InOrder, Free, Back, CountBelow, Encloses, Scanning;
    GroupFacts(g, last);
    var nr, lastEnd := |g.offsets|, End(g, last);
    ghost var top := TopBase(InOrder(root), hole, g, last, vmEnd);
    var areas := InOrder(root);
    var area: nat, term: nat := last, last;
    var start, end := Start(g, area), End(g, area);
    var found, next, prev := PvmFindNextPrev(root, hole);
    if !found {
      EmptyFits(areas, hole, g, last, vmStart, vmEnd);
      return Some(vmEnd - lastEnd);
    }
    var addr;
    ghost var at := next;
    addr, next, prev := PvmDetermineEnd(areas, next, prev, g.align, vmEnd);
    var base := Wrap(addr - end);
    ghost var tb := addr - end;
    ghost var n: nat := 0;
    StartsScanning(areas, hole, g, last, vmEnd, at, addr, next, prev);
    while true
      invariant 0 <= area < nr && start == Start(g, area) && end == End(g, area)
      invariant Scanning(areas, g, top, vmEnd, last, tb, base, area, term, n, next, prev)
      invariant -lastEnd <= tb && n <= nr
      decreases tb + lastEnd, nr - n
    {
      RoundFacts(areas, g, top, vmStart, vmEnd, last, tb, base, area, term, n, next, prev);
      assert !(next < |areas| && areas[next].end <= Wrap(base + end));
      assert !(prev >= 0 && areas[prev].end > Wrap(base + end));
      if Wrap(base + lastEnd) < Wrap(vmStart + lastEnd) {
        return None;
      }
      var moved;
      ghost var next0, prev0 := next, prev;
      ScanningParts(areas, g, top, vmEnd, last, tb, base, area, term, n, next, prev);
      moved, addr, next, prev := Recheck(areas, next, prev, start, end, base, g.align, vmEnd, g, top, tb, area, term, n);
      if moved {
        PulledDown(areas, g, top, vmEnd, last, tb, base, area, term, n, next0, prev0, addr, next, prev);
        base, tb, term, n := Wrap(addr - end), addr - end, area, 0;
        continue;
      }
      MoveOn(areas, g, top, tb, next, prev, area, term, n);
      area := Previous(area, nr);
      if area == term {
        return Some(base);
      }
      n := n + 1;
      start, end := Start(g, area), End(g, area);
      found, next, prev := PvmFindNextPrev(root, Wrap(base + end));
      AroundEncloses(areas, next, prev, Wrap(base + end));
      ScansOn(areas, g, top, vmStart, vmEnd, last, tb, base, area, term, n, next, prev);
    }
    return None;
  }

  lemma ScanningParts(areas: seq<Area>, g: Group, top: int, vmEnd: int, last: nat, tb: int, base: int, area: nat, term: nat, n: nat,
                      next: int, prev: int)
    requires ValidGroup(g) && area < |g.offsets| && last < |g.offsets|
    requires Scanning(areas, g, top, vmEnd, last, tb, base, area, term, n, next, prev)
    ensures ScanOk(areas, g, top, tb, area, term, n) && Encloses(areas, next, prev, tb + End(g, area))
    ensures base == Wrap(tb) && 0 <= tb + End(g, area) <= tb + End(g, last) <= vmEnd
  {
  }

  lemma StartsScanning(areas: seq<Area>, hole: int, g: Group, last: nat, vmEnd: int, at: int, addr: int, next: int, prev: int)
    requires ValidGroup(g) && Aligned(vmEnd, g.align) && last < |g.offsets|
    requires 0 <= at <= |areas| && (forall i :: 0 <= i < at ==> areas[i].end <= hole) && (forall i :: at <= i < |areas| ==> hole < areas[i].end)
    requires addr == EndBelow(areas, at, g.align, vmEnd) && 0 <= addr && Encloses(areas, next, prev, addr)
    ensures Scanning(areas, g, TopBase(areas, hole, g, last, vmEnd), vmEnd, last, addr - End(g, last), Wrap(addr - End(g, last)), last, last, 0, next, prev)
    ensures -End(g, last) <= addr - End(g, last)
  {
    hide Encloses, ScanOk, Aligned, Wrap, EndBelow, TopBase;
    CountBelowIs(areas, hole, at);
    ScanStarts(areas, hole, g, last, vmEnd);
  }

  /** No area that ends above the hole mark starts below `x`. */
  ghost predicate BelowMark(areas: seq<Area>, hole: int, x: int) {
    forall a :: a in areas && hole < a.end ==> x <= a.start
  }

  lemma FirstEndIsBelowMark(areas: seq<Area>, hole: int, align: int, vmEnd: int)
    requires Sorted(areas) && align > 0
    ensures BelowMark(areas, hole, FirstEnd(areas, hole, align, vmEnd))
  {
    hide AlignDown, Aligned;
    var k := CountBelow(areas, hole);
    forall a | a in areas && hole < a.end ensures FirstEnd(areas, hole, align, vmEnd) <= a.start {
      var i :| 0 <= i < |areas| && areas[i] == a;
      assert k <= i;
      assert areas[k].start <= a.start by {
        assert k < i ==> areas[k].start < areas[k].end <= areas[i].start;
      }
    }
  }

  /** The first end the search considers is the greatest aligned address inside the window that is not above
      the start of any area ending above the hole mark. */
  lemma FirstEndIsGreatest(areas: seq<Area>, hole: int, align: int, vmEnd: int)
    requires Sorted(areas) && align > 0 && Aligned(vmEnd, align)
    ensures var x := FirstEnd(areas, hole, align, vmEnd);
            && Aligned(x, align) && x <= vmEnd && BelowMark(areas, hole, x)
            && forall y :: Aligned(y, align) && y <= vmEnd && BelowMark(areas, hole, y) ==> y <= x
  {
    hide AlignDown, Aligned, Sorted;
    FirstEndIsBelowMark(areas, hole, align, vmEnd);
    var k := CountBelow(areas, hole);
    forall y | Aligned(y, align) && y <= vmEnd && BelowMark(areas, hole, y) ensures y <= FirstEnd(areas, hole, align, vmEnd) {
      if k < |areas| {
        assert areas[k] in areas;
        AlignDownIsGreatest(areas[k].start, y, align);
      }
    }
  }

  /** The base is aligned, the group lies inside the window and clear of the busy areas, and no area that
      ends above the hole mark starts below the group's end. */
  ghost predicate Serves(areas: seq<Area>, hole: int, g: Group, last: nat, w: Window, b: int)
    requires g.align > 0 && last < |g.offsets| == |g.sizes|
  {
    Aligned(b, g.align) && w.start <= b && b + End(g, last) <= w.end && FitsAt(areas, g, b) && BelowMark(areas, hole, b + End(g, last))
  }

  /** The highest base that serves, or none because there is none. */
  ghost predicate IsAnswer(areas: seq<Area>, hole: int, g: Group, last: nat, w: Window, r: Option<int>)
    requires g.align > 0 && last < |g.offsets| == |g.sizes|
  {
    && (r.Some? ==> Serves(areas, hole, g, last, w, r.value))
    && forall b :: Serves(areas, hole, g, last, w, b) ==> r.Some? && b <= r.value
  }

  /** The group fits at this aligned base inside the window, all of it at or below the mark. */
  ghost predicate FitsUpTo(areas: seq<Area>, mark: int, g: Group, last: nat, w: Window, b: int)
    requires g.align > 0 && last < |g.offsets| == |g.sizes|
  {
    Aligned(b, g.align) && w.start <= b && b + End(g, last) <= w.end && b + End(g, last) <= mark && FitsAt(areas, g, b)
  }

  lemma UpToMarkServes(areas: seq<Area>, hole: int, g: Group, last: nat, w: Window, b: int)
    requires ValidGroup(g) && last < |g.offsets| && FitsUpTo(areas, hole, g, last, w, b)
    ensures Serves(areas, hole, g, last, w, b)
  {
    assert SlotFree(areas, g, last, b);
  }

  /** Whatever fits up to the hole mark is found, or something higher. */
  lemma AnswersUpToMark(areas: seq<Area>, hole: int, g: Group, last: nat, w: Window, r: Option<int>)
    requires ValidGroup(g) && last < |g.offsets| && IsAnswer(areas, hole, g, last, w, r)
    ensures forall b :: FitsUpTo(areas, hole, g, last, w, b) ==> r.Some? && b <= r.value
  {
    forall b | FitsUpTo(areas, hole, g, last, w, b) ensures r.Some? && b <= r.value {
      UpToMarkServes(areas, hole, g, last, w, b);
    }
  }

  lemma ServesInside(areas: seq<Area>, hole: int, g: Group, last: nat, w: Window, b: int)
    requires ValidGroup(g) && Sorted(areas) && last < |g.offsets| && Aligned(b, g.align)
    ensures w.start <= b <==> WindowStart(g, w) <= b
    ensures b + End(g, last) <= w.end && BelowMark(areas, hole, b + End(g, last))
            <==> b <= TopBase(areas, hole, g, last, WindowEnd(g, w))
  {
    hide FirstEnd;
    var e := b + End(g, last);
    AlignedSum(g.offsets[last], g.sizes[last], g.align);
    AlignedSum(b, End(g, last), g.align);
    if w.start <= b {
      AlignUpIsLeast(w.start, b, g.align);
    }
    if e <= w.end {
      AlignDownIsGreatest(w.end, e, g.align);
    }
    FirstEndIsGreatest(areas, hole, g.align, WindowEnd(g, w));
    if e <= FirstEnd(areas, hole, g.align, WindowEnd(g, w)) {
      assert BelowMark(areas, hole, e);
    }
  }

  /** The scan's answer is the highest base that serves. */
  lemma ScanAnswers(areas: seq<Area>, hole: int, g: Group, last: nat, w: Window, r: Option<int>)
    requires ValidGroup(g) && Sorted(areas) && last < |g.offsets|
    requires r.Some? ==> IsHighestFit(areas, g, WindowStart(g, w), TopBase(areas, hole, g, last, WindowEnd(g, w)), r.value)
    requires r.None? ==> NoFit(areas, g, WindowStart(g, w), TopBase(areas, hole, g, last, WindowEnd(g, w)))
    ensures IsAnswer(areas, hole, g, last, w, r)
  {
    hide TopBase, FitsAt, BelowMark, Sorted, Aligned, AlignUp, AlignDown, WindowStart, WindowEnd, End;
    if r.Some? {
      ServesInside(areas, hole, g, last, w, r.value);
    }
    forall b | Serves(areas, hole, g, last, w, b) ensures r.Some? && b <= r.value {
      ServesInside(areas, hole, g, last, w, b);
    }
  }

  /** The group does not fit into the window at all. */
  predicate TooLarge(g: Group, w: Window, last: nat)
    requires g.align > 0 && last < |g.offsets| == |g.sizes|
  {
    WindowEnd(g, w) - WindowStart(g, w) < End(g, last)
  }

  /** One scan behind the window test: the highest aligned base inside the window, not above the
      base it starts from, at which the whole group fits, exactly when there is one. */
  method FindBase(root: Tree, hole: int, g: Group, last: nat, w: Window) returns (r: Option<int>)
    requires ValidGroup(g) && Sorted(InOrder(root)) && 0 <= w.start && w.end < ADDRESS_SPACE
    requires last < |g.offsets| && forall i :: 0 <= i < |g.offsets| ==> End(g, i) <= End(g, last)
    ensures TooLarge(g, w, last) ==> r.None?
    ensures r.Some? ==> IsHighestFit(InOrder(root), g, WindowStart(g, w), TopBase(InOrder(root), hole, g, last, WindowEnd(g, w)), r.value)
    ensures r.None? ==> NoFit(InOrder(root), g, WindowStart(g, w), TopBase(InOrder(root), hole, g, last, WindowEnd(g, w)))
    ensures IsAnswer(InOrder(root), hole, g, last, w, r)
    ensures forall b :: FitsUpTo(InOrder(root), hole, g, last, w, b) ==> r.Some? && b <= r.value
  {
    hide IsHighestFit, NoFit, TopBase, IsAnswer, FitsUpTo, Sorted, InOrder;
    if TooLarge(g, w, last) {
      NoRoom(InOrder(root), hole, g, last, w);
      r := None;
    } else {
      r := ScanBase(root, hole, g, last, WindowStart(g, w), WindowEnd(g, w));
    }
    ScanAnswers(InOrder(root), hole, g, last, w, r);
    AnswersUpToMark(InOrder(root), hole, g, last, w, r);
  }

  lemma NoRoom(areas: seq<Area>, hole: int, g: Group, last: nat, w: Window)
    requires ValidGroup(g) && last < |g.offsets| && TooLarge(g, w, last)
    ensures NoFit(areas, g, WindowStart(g, w), TopBase(areas, hole, g, last, WindowEnd(g, w)))
  {
  }

  /** A free never lowers the hole mark, and raises it to the end of what it frees inside the window. */
  lemma FreeRaisesMark(s: Kva, va: Area, w: Window)
    requires va in s.areas
    ensures var s' := FreeArea(s, va, w.start, w.end);
            && s'.pcpuHole >= s.pcpuHole && (s'.pcpuHole == s.pcpuHole || s'.pcpuHole == va.end)
            && (w.start < va.end <= w.end ==> s'.pcpuHole >= va.end)
            && (!(w.start < va.end <= w.end) ==> s'.pcpuHole == s.pcpuHole)
  {
  }

  /** So the room a free makes is found: any fitting base up to the end of the area freed serves. */
  lemma FreedRoomServes(s: Kva, va: Area, g: Group, last: nat, w: Window, b: int)
    requires va in s.areas && ValidGroup(g) && last < |g.offsets| && w.start < va.end <= w.end
    requires FitsUpTo(FreeArea(s, va, w.start, w.end).areas, va.end, g, last, w, b)
    ensures var s' := FreeArea(s, va, w.start, w.end);
            Serves(s'.areas, s'.pcpuHole, g, last, w, b)
  {
    hide FreeArea, FitsAt, Serves;
    FreeRaisesMark(s, va, w);
    var s' := FreeArea(s, va, w.start, w.end);
    UpToMarkServes(s'.areas, s'.pcpuHole, g, last, w, b);
  }

  /** At a base where the group fits, its areas are inside the window and may be inserted one after another. */
  lemma FitIsInsertable(areas: seq<Area>, hole: int, g: Group, w: Window, last: nat, base: int)
    requires ValidGroup(g) && 0 <= w.start && last < |g.offsets|
    requires forall i :: 0 <= i < |g.offsets| ==> End(g, i) <= End(g, last)
    requires IsHighestFit(areas, g, WindowStart(g, w), TopBase(areas, hole, g, last, WindowEnd(g, w)), base)
    ensures Insertable(areas, Slots(g, base))
    ensures forall a :: a in Slots(g, base) ==> w.start <= a.start && a.end <= w.end && Aligned(a.start, g.align)
  {
    var s := Slots(g, base);
    forall i | 0 <= i < |s| ensures 0 <= s[i].start < s[i].end && Free(areas, s[i].start, s[i].end)
                                 && w.start <= s[i].start && s[i].end <= w.end && Aligned(s[i].start, g.align)
    {
      assert SlotFree(areas, g, i, base);
      AlignedSum(base, g.offsets[i], g.align);
    }
    forall i, j | 0 <= i < j < |s| ensures !Overlaps(s[i], s[j]) {
      assert !(Start(g, j) < End(g, i) && Start(g, i) < End(g, j));
    }
  }

  lemma InsertHead(s: seq<Area>, group: seq<Area>)
    requires Sorted(s) && Insertable(s, group) && group != []
    ensures Sorted(Insert(s, group[0])) && Insertable(Insert(s, group[0]), group[1..])
  {
    InsertKeepsOrder(s, group[0]);
    InsertMembers(s, group[0]);
    forall i | 0 <= i < |group| - 1 ensures Free(Insert(s, group[0]), group[1..][i].start, group[1..][i].end) {
      assert !Overlaps(group[0], group[i + 1]);
    }
  }

  /** Filing the whole group into the tree. */
  method InsertGroup(root: Tree, group: seq<Area>) returns (t: Tree)
    requires Sorted(InOrder(root)) && Insertable(InOrder(root), group)
    ensures InOrder(t) == InsertAll(InOrder(root), group)
  {
    hide Sorted, Insertable, Insert;
    t := root;
    for i := 0 to |group|
      invariant InsertAll(InOrder(t), group[i..]) == InsertAll(InOrder(root), group)
      invariant Sorted(InOrder(t)) && Insertable(InOrder(t), group[i..])
    {
      var va := group[i..][0];
      InsertHead(InOrder(t), group[i..]);
      assert 0 <= va.start < va.end && Free(InOrder(t), va.start, va.end) by {
        FirstInsertable(InOrder(t), group[i..]);
      }
      InsertNodeFilesInOrder(t, va);
      assert group[i..][1..] == group[i + 1..];
      t := InsertNode(t, va);
    }
  }

  lemma FirstInsertable(s: seq<Area>, group: seq<Area>)
    requires Insertable(s, group) && group != []
    ensures 0 <= group[0].start < group[0].end && Free(s, group[0].start, group[0].end)
  {
  }

  /** Inserting the group at the base found: one Percpu step of the allocator. */
  method PlaceGroup(k: Allocator, g: Group, last: nat, base: int)
    requires Inv(k.View()) && |g.offsets| == |g.sizes| && last < |g.offsets|
    requires Insertable(InOrder(k.root), Slots(g, base))
    modifies k
    ensures k.View() == Apply(old(k.View()), Percpu(Slots(g, base), base + g.offsets[last]), k.window)
    ensures Inv(k.View()) && k.purging == old(k.purging)
    ensures InOrder(k.root) == InsertAll(old(InOrder(k.root)), Slots(g, base)) && k.pcpuHole == base + g.offsets[last]
  {
    hide Insertable, Inv, Sorted, InsertAll;
    var group, hole := Slots(g, base), base + g.offsets[last];
    PercpuKeepsInv(k.View(), group, hole, k.window);
    k.root := InsertGroup(k.root, group) by { assert Sorted(InOrder(k.root)) by { InvIsSorted(k.View()); } }
    k.pcpuHole := hole;
    k.log := k.log + AllocatedAll(group);
  }

  lemma InvIsSorted(s: Kva)
    requires Inv(s)
    ensures Sorted(s.areas)
  {
  }

  /** pcpu_get_vm_areas: refused at once for a group larger than the window, else a scan, and on failure a
      purge and one more scan. On success the whole group is in place at the highest fitting base of the
      areas `before`; on failure no base fits even with all that was lazily freed or fragmented gone. */
  method GetVmAreas(k: Allocator, g: Group, fragmented: seq<Area>) returns (r: Option<int>, last: nat, ghost before: Kva)
    requires ValidGroup(g) && |g.offsets| > 0 && Inv(k.View()) && k.purging == [] && 0 <= k.window.start && k.window.end < ADDRESS_SPACE
    requires Releasable(k.View(), fragmented)
    modifies k
    ensures Inv(k.View()) && k.purging == []
    ensures last < |g.offsets| && forall i :: 0 <= i < |g.offsets| ==> End(g, i) <= End(g, last)
    ensures TooLarge(g, k.window, last) ==> r.None? && k.View() == old(k.View())
    ensures !TooLarge(g, k.window, last) ==>
              Purged(old(k.View()), before, fragmented) || (r.Some? && before == old(k.View()))
    ensures var low, top := WindowStart(g, k.window), TopBase(before.areas, before.pcpuHole, g, last, WindowEnd(g, k.window));
            match r
            case Some(base) =>
              IsHighestFit(before.areas, g, low, top, base)
              && InOrder(k.root) == InsertAll(before.areas, Slots(g, base)) && k.pcpuHole == base + g.offsets[last]
            case None => NoFit(before.areas, g, low, top) && k.View() == before
    ensures IsAnswer(before.areas, before.pcpuHole, g, last, k.window, r)
    ensures forall b :: FitsUpTo(before.areas, before.pcpuHole, g, last, k.window, b) ==> r.Some? && b <= r.value
  {
    hide IsAnswer, FitsUpTo, IsHighestFit, NoFit, ValidGroup, TopBase, Insertable, Inv, Sorted, Hull, AlignUp, AlignDown, Purged, Releasable, TooLarge, InsertAll, InOrder;
    GroupFacts(g, 0);
    before := k.View();
    InvIsSorted(before);
    last := LastArea(g);
    GroupFacts(g, last);
    r := FindBase(k.root, k.pcpuHole, g, last, k.window);
    if r.None? {
      if TooLarge(g, k.window, last) {
        return;
      }
      k.PurgeLazy(fragmented);
      before := k.View();
      InvIsSorted(before);
      r := FindBase(k.root, k.pcpuHole, g, last, k.window);
      PurgedIsIdle(old(k.View()), before, fragmented);
      if r.None? {
        return;
      }
    }
    FitIsInsertable(before.areas, before.pcpuHole, g, k.window, last, r.value);
    PlaceGroup(k, g, last, r.value);
  }

  lemma PurgedIsIdle(s: Kva, s': Kva, fragmented: seq<Area>)
    requires Purged(s, s', fragmented)
    ensures s'.purging == []
  {
  }
}
