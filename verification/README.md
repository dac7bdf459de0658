# Verified models of the KVM memory tools

These Dafny modules model the parts of the repository whose correctness is hardest to see, and prove
what they promise. Code that changes state step by step is a class or a method with loops, proved
against a specification function; what is promised over whole runs is proved about state machines
built from those functions. `dafny verify dfyconfig.toml` checks everything.

**Kernel virtual addresses** (`kvmTest/test/kvm/vmalloc.c`)

- `VmapAreas`: the area tree and its address-ordered list as one sequence; the tree descents.
- `VmapAlloc`, `VmapRuns`, `VmapKva`: `alloc_vmap_area` with its cached search position, the frees,
  the lazy purge with its TLB flush. The cached search is plain first fit exactly when nothing fits
  below the cached area; over all runs it is so for every size but the recorded hole size, and no
  address is handed out again before a flush of the whole area released. `VmapKva.Allocator` holds the
  globals and takes the state machine's steps.
- `PcpuAreas`: `pcpu_get_vm_areas`, with its 64-bit wrap-around: termination, both BUG_ONs, and the
  highest base at which the group fits, below whatever ends above the hole mark.
- `VmapBlocks`: the per-CPU block allocator; page conservation, ownership, no page of a block handed out
  twice, and a single release for all decisions to release a block.
- `VRead`: `vread` against a bytewise definition.

**libmonitor** (`kvmTest/dependencies/libmonitor/src`)

- `ExitProtocol`: the race into process exit and the thread shootdown, as a transition system over
  threads. A thread tests the flags in one step, and sets `tn_fini_started` and begins its callback in a
  later one, with anything in between, the shootdown handler on top of its own code too; each visit of
  the walk and each write to a global flag is a step.
- `ExitLaws`: the same from one thread's view: its callbacks one at a time, what done means, losers that
  wait and a winner that never gets stuck.
- `NodePool`: the intrusive lists with their back links, the free list and the node array.
- `SignalMask`, `SignalHistory`: the filter on signal masks and the choice of the shootdown signal, first by
  the flags of the table, then by the registrations made and the masks let through.

**Witch profiler** (`kvmTest/includes/tools/witchTool`, `kvmTest/src/tools/witchTool`)

- `Overlap`: overlap arithmetic and the byte comparison of RedSpy and LoadSpy.
- `ContextTrie`: the calling-context tree.
- `Attribution`, `WitchRuns`, `WitchProfiler`: proportional attribution, totals and metrics under the
  three callbacks; `WitchProfiler.Profiler` holds the tool's fields.
- `TrapLaws`: what a trap answers, what becomes of its watch and its event, and which nodes it charges.
- `RollUp`, `InstRollUp`, `CutOff`: the pruned roll-up, why the root of a per-instruction build holds the
  global totals, and which nodes it leaves out.
- `Watchpoints`: the slot table and the reservoir counters.

**Perf rings** (`kvmTest/src/platform/device`, `kvmTest/src/tools/witchTool/watchpoint-lib`)

- `PerfRecords`: `perf_mmap_read` decodes what the layout in section "MMAP layout" of
  perf_event_open(2) encodes.
- `RingReader`: `ReadMmapBuffer` is a FIFO, with the kernel appending and `ConsumeAllRingBufferData`
  skipping in between.

`Common` has what the modules share: bytes, pages, the 64-bit address space, remainders.

## Where the code does not do what is said of it

- First fit can be missed, and an allocation refused that fits, when the size equals the recorded hole
  size: the test at vmalloc.c:444 is strict (`VmapRuns.ExactHoleIsMissed`).
- `vread` is documented to return 0 for a range that meets no live area; it returns the full length of a
  nonempty range below the first live area ending above its start (`VRead.LengthWithoutAreaIff`,
  `VRead.HoleIsReported`).
- A thread's fini callback is meant to run once. It runs twice when the shootdown signal lands between
  the test of `tn_fini_started` in the thread's cleanup, or after its sigwait, and the setting of it
  (pthread.c:869-879, 1184-1188): `ExitProtocol.CallbackTwice`; or when another handler there calls exec,
  which runs the winner's callback and then fails (fork.c:354-360): `ExitProtocol.CallbackTwiceByExec`; and
  only then (`ExitProtocol.FiniThreadAtMostOnceIff`).
- A fini callback is meant to be refused once `monitor_fini_process` has begun (pthread.c:463-467). A
  thread that read `monitor_fini_thread_done` before a timeout set it may still begin its own
  (`ExitProtocol.CallbackAfterShootdown`); only such callbacks can begin late
  (`ExitProtocol.LateCallbacksWereDue`).
- A shootdown signal picked at exit is not kept open, so a later mask may block it
  (`SignalMask.ExitChoiceMayBeBlockedLater`, `SignalMask.ExitChoiceBlocked`).
- The watchpoint overlap test wraps: a range that ends exactly at 2^64 is never seen to overlap. It goes
  right exactly for ranges that end below it or have no active slot ending above their start
  (`Watchpoints.TopRangeAgreesIff`, `Watchpoints.DisjointIffStepsSafe`, `Watchpoints.TopRangesMeet`).
- `ArmWatchPoint` reports success after a failed in-place update (`Watchpoints.ZeroMeansWatchedIff`,
  `Watchpoints.FailedUpdateAnswersZero`).

## Model

| member | source | states |
|---|---|---|
| VmapAreas.FindVmapArea | kvmTest/test/kvm/vmalloc.c:345-362 | the descent returns the area that contains the address, and none exactly when no listed area does |
| VmapAreas.InsertNodeFilesInOrder | kvmTest/test/kvm/vmalloc.c:364-394 | inserting by the tree's comparisons files the area at its place in the address-ordered list, so tree and list stay one sequence and both branches of the BUG are excluded |
| VmapAreas.InsertKeepsOrder | kvmTest/test/kvm/vmalloc.c:388-393 | an area clear of all others leaves the list sorted and pairwise disjoint |
| VmapAreas.RemoveKeepsOrder | kvmTest/test/kvm/vmalloc.c:576-578 | erasing an area leaves the list sorted and takes out exactly that area |
| VmapAreas.FindFirstEndingAt | kvmTest/test/kvm/vmalloc.c:469-486 | the descent of the uncached search stops at an area such that every one before it ends at or below the address and none from it on ends below |
| VmapAreas.PvmFindNextPrev | kvmTest/test/kvm/vmalloc.c:2382-2410 | next and prev are neighbours in the list, prev and all before it end at or below the target, next and all after it end above; false exactly when there is no area |
| VmapAlloc.WalkIsFirstFit | kvmTest/test/kvm/vmalloc.c:489-500 | from a sound start the walk ends at the lowest aligned room, and the hole size it leaves bounds every aligned free run below that address; an overflow means there is no room |
| VmapAlloc.SearchIsFirstFit | kvmTest/test/kvm/vmalloc.c:443-505 | cached or uncached, the search finds the lowest lawful address at or above the place it started from, and keeps the bound on the holes it passed |
| VmapAlloc.CachedSearchIsFirstFitExactly | kvmTest/test/kvm/vmalloc.c:443-505 | the cached search answers like plain first fit if and only if no lawful place lies below the cached area |
| VmapAlloc.CachedSearchRefinesFirstFit | kvmTest/test/kvm/vmalloc.c:443-505 | for every size but the recorded hole size the answer is exactly that of plain first fit |
| VmapAlloc.FreeAreaKeepsCache | kvmTest/test/kvm/vmalloc.c:555-591 | a free keeps the cache naming a listed area and the hole bound true, whichever branch moves the cache |
| VmapAlloc.FreeMovesCache | kvmTest/test/kvm/vmalloc.c:559-574 | a free drops the cache when the area ended below the cached start address, moves it to the area before the freed one when that lay at or below the cached one, and else leaves it |
| VmapAlloc.AttemptKeepsCache | kvmTest/test/kvm/vmalloc.c:434-517 | an attempt, successful or not, keeps the list sorted and the cache sound, and hands out only free addresses |
| VmapAlloc.AttemptRecords | kvmTest/test/kvm/vmalloc.c:441-519 | every attempt, failed ones too, leaves the cached start address and alignment of this request; the area allocated becomes the cached one; a request smaller than the recorded hole size drops the cache when it fails |
| VmapRuns.AllocKeepsInv | kvmTest/test/kvm/vmalloc.c:432-519 | an allocation keeps the whole invariant of the allocator |
| VmapRuns.LazyFreeKeepsInv | kvmTest/test/kvm/vmalloc.c:720-732 | a lazy free keeps it |
| VmapRuns.DetachKeepsInv | kvmTest/test/kvm/vmalloc.c:657-679 | taking the purge list and flushing its hull keeps it |
| VmapRuns.PurgeOneKeepsInv | kvmTest/test/kvm/vmalloc.c:681-688 | each round of the freeing loop keeps it, so the lock may be dropped in between |
| VmapRuns.PercpuKeepsInv | kvmTest/test/kvm/vmalloc.c:2589-2601 | inserting a percpu group keeps it |
| VmapRuns.RunsKeepAreas | kvmTest/test/kvm/vmalloc.c:334-394 | in every run the busy areas are sorted and disjoint, the cached position is a listed area, and the lazy counter is the number of pages waiting |
| VmapRuns.RunsFlushBeforeReuse | kvmTest/test/kvm/vmalloc.c:657-691 | in every run, between the lazy free of an area and a later allocation that overlaps it, one TLB flush covered the whole area |
| VmapRuns.RunsLogHandOuts | kvmTest/test/kvm/vmalloc.c:434-519 | in every run each step logs exactly the areas it hands out, all of them free before it; so the log that the flush law speaks of misses no busy area |
| VmapRuns.RunsAreFirstFit | kvmTest/test/kvm/vmalloc.c:443-505 | in every run, a request of any size but the recorded hole size gets the first fit |
| VmapRuns.ExactHoleIsMissed | kvmTest/test/kvm/vmalloc.c:443-449 | a reachable state in which a request of exactly the recorded hole size is refused although it fits |
| VmapRuns.Hull | kvmTest/test/kvm/vmalloc.c:667-674 | the range flushed contains the caller's range and every area of the purge list |
| VmapKva.Allocator.WalkAreas | kvmTest/test/kvm/vmalloc.c:489-500 | the loop is the specified walk, and leaves its hole size in the cache variable |
| VmapKva.Allocator.SearchAreas | kvmTest/test/kvm/vmalloc.c:443-505 | the cache test, the two starts and the loop are the specified search, with every cache variable's new value |
| VmapKva.Allocator.AllocAttempt | kvmTest/test/kvm/vmalloc.c:434-519 | one locked attempt: the new state is that of the state machine; on success the area is lawfully placed and listed, on failure nothing at or above the cached area fits; for any size but the recorded hole size the answer is the first fit |
| VmapKva.Allocator.FreeArea | kvmTest/test/kvm/vmalloc.c:555-591 | the state machine's free, over the tree and the cache variables |
| VmapKva.Allocator.FreeNoflush | kvmTest/test/kvm/vmalloc.c:720-732 | the state machine's lazy free |
| VmapKva.Allocator.Purge | kvmTest/test/kvm/vmalloc.c:657-691 | flushes the hull of the whole purge list first, then removes exactly its areas; the lazy counter returns to zero |
| VmapKva.Allocator.HullOf | kvmTest/test/kvm/vmalloc.c:667-674 | the widening loop computes the hull |
| VmapKva.Allocator.PurgeLazy | kvmTest/test/kvm/vmalloc.c:707-713 | the areas of all fragmented blocks join the purge list, the hull of the whole list is flushed once, and then exactly its areas are gone; every area is released before the flush |
| VmapKva.Allocator.AllocVmapArea | kvmTest/test/kvm/vmalloc.c:404-542 | the first attempt's answer when it succeeds; else a purge, fragmented blocks included, and one more attempt over what the purge leaves: a refusal means that no lawful place at or above the cached area is left with the lazily freed and the fragmented areas gone |
| VmapKva.RemoveAllMembers | kvmTest/test/kvm/vmalloc.c:681-688 | what removing a purge list one by one leaves is the list without its areas |
| VmapKva.FirstEndingAt | kvmTest/test/kvm/vmalloc.c:469-486 | the descent's strictness at an area that ends at the start address does not change what the walk finds |
| PcpuAreas.LastArea | kvmTest/test/kvm/vmalloc.c:2486-2505 | the area with the highest offset is the one with the highest end |
| PcpuAreas.PvmDetermineEnd | kvmTest/test/kvm/vmalloc.c:2428-2446 | the highest aligned address below next and the window, with next and prev moved to enclose it |
| PcpuAreas.SlotBlocked | kvmTest/test/kvm/vmalloc.c:2559-2576 | with an area in the way, no aligned base from the pulled-down one up to the present one serves the group |
| PcpuAreas.MoveOn | kvmTest/test/kvm/vmalloc.c:2582-2587 | one more area checked: when the scan has come round to its terminal area every area of the group fits |
| PcpuAreas.WrapBase | kvmTest/test/kvm/vmalloc.c:2541-2545 | under 64-bit wrap-around the underflow-tolerant comparison decides exactly whether the true base is below the window |
| PcpuAreas.Recheck | kvmTest/test/kvm/vmalloc.c:2559-2576 | either both overlap tests pass on the true values, or the base falls and all bases skipped are known not to fit |
| PcpuAreas.ScanBase | kvmTest/test/kvm/vmalloc.c:2526-2588 | the scan ends, both BUG_ONs hold in every round, and the base found is the highest aligned one, not above the starting one, at which every area is free; none exactly when there is none |
| PcpuAreas.FindBase | kvmTest/test/kvm/vmalloc.c:2507-2588 | the answer is the highest aligned base at which the whole group lies inside the window, clear of the busy areas and below the start of every area that ends above the hole mark, and none exactly when there is no such base; so whatever fits up to the hole mark is found, or something higher |
| PcpuAreas.FirstEndIsGreatest | kvmTest/test/kvm/vmalloc.c:2531-2535 | the end the search starts from is the greatest aligned address inside the window that is not above the start of any area ending above the hole mark |
| PcpuAreas.AnswersUpToMark | kvmTest/test/kvm/vmalloc.c:2507-2588 | every aligned base of the window at which the group fits with its end at or below the hole mark is at or below the answer |
| PcpuAreas.FreeRaisesMark | kvmTest/test/kvm/vmalloc.c:580-587 | a free never lowers the hole mark; one that ends inside the window raises it at least to that end, any other leaves it |
| PcpuAreas.FreedRoomServes | kvmTest/test/kvm/vmalloc.c:580-587 | any base at which a group fits up to the end of an area just freed is one the search will consider |
| PcpuAreas.FitIsInsertable | kvmTest/test/kvm/vmalloc.c:2590-2597 | at the base found all areas of the group are aligned, inside the vmalloc window, clear of the busy areas and of each other |
| PcpuAreas.InsertGroup | kvmTest/test/kvm/vmalloc.c:2590-2597 | files the whole group into the tree |
| PcpuAreas.PlaceGroup | kvmTest/test/kvm/vmalloc.c:2589-2601 | one percpu step of the allocator, with the new hole mark |
| PcpuAreas.GetVmAreas | kvmTest/test/kvm/vmalloc.c:2472-2601 | a group larger than the window is refused at once with nothing changed; else a scan, on failure a purge and a second scan: on success the group is in place at the highest base that serves, on failure none serves even with the lazily freed and fragmented areas gone; whatever fits up to the hole mark is found, or something higher |
| VmapBlocks.Pages | kvmTest/test/kvm/vmalloc.c:980 | the least power of two of pages that holds the size |
| VmapBlocks.IdxOfBlock | kvmTest/test/kvm/vmalloc.c:823-837 | every address of a block has the block's index, so the BUG_ON of vmap_block_vaddr cannot fire, and its remainder is its offset |
| VmapBlocks.LookupFindsOwner | kvmTest/test/kvm/vmalloc.c:1030-1037 | the index and page offset computed from an address handed out find the block it came from and the sub-allocation that starts there |
| VmapBlocks.TakeKeepsOk | kvmTest/test/kvm/vmalloc.c:993-995 | pages are handed out from the part never used before, so live sub-allocations stay apart |
| VmapBlocks.GiveKeepsOk | kvmTest/test/kvm/vmalloc.c:1051 | a free keeps the block sound and takes just this sub-allocation out of those in use; start and free pages stay as they were |
| VmapBlocks.NewBlockKeepsInv | kvmTest/test/kvm/vmalloc.c:878-899 | a new block's index is not in the tree, and the invariant holds with it |
| VmapBlocks.FreeKeepsInv | kvmTest/test/kvm/vmalloc.c:1045-1057 | a block whose last page turns dirty has no free page, which is the BUG_ON, and none in use |
| VmapBlocks.PurgeKeepsInv | kvmTest/test/kvm/vmalloc.c:930-946 | a block purged as fragmented has no page in use, and the release now pending is the only one of it |
| VmapBlocks.ReleaseKeepsInv | kvmTest/test/kvm/vmalloc.c:905-918 | a release, enabled by nothing but a decision taken earlier, finds this very block in the tree, which is its BUG_ON, and no page of it is in use |
| VmapBlocks.PagesAreConserved | kvmTest/test/kvm/vmalloc.c:795-803 | in every run free, dirty and live pages of each block add up to VMAP_BBMAP_BITS, and a block is listed exactly while it has free pages |
| VmapBlocks.LiveAddressesDisjoint | kvmTest/test/kvm/vmalloc.c:963-1014 | in every run the address ranges of two live sub-allocations, of one block or two, never meet |
| VmapBlocks.NoPageHandedOutTwice | kvmTest/test/kvm/vmalloc.c:993-1051 | in every run, while a block lasts its free pages never become more, and any two sub-allocations it has had at any two times, freed ones included, are page-disjoint unless they are one that stayed in use all the while |
| VmapBlocks.FreeTakesBack | kvmTest/test/kvm/vmalloc.c:1016-1058 | of the ranges handed out a free takes back the one at its address and no other |
| VmapBlocks.AllocHandsOut | kvmTest/test/kvm/vmalloc.c:986-996 | an allocation from a block adds the range behind all its used pages to those handed out, and no other range comes or goes |
| VmapBlocks.NewBlockHandsOut | kvmTest/test/kvm/vmalloc.c:847-903 | a new block adds the range at its start to those handed out, and no other comes or goes |
| VmapBlocks.OthersHandOutNothing | kvmTest/test/kvm/vmalloc.c:905-953 | a purge and a release neither hand out nor take back any range |
| VmapBlocks.NewBlockKeepsOrder | kvmTest/test/kvm/vmalloc.c:894-899 | a new block joins the end of this CPU's queue and no other |
| VmapBlocks.QueuesOldestFirst | kvmTest/test/kvm/vmalloc.c:894-899 | in every run each queue has its blocks in the order they were made, and no block is in two queues |
| VmapBlocks.ReleasedOnce | kvmTest/test/kvm/vmalloc.c:905-953 | in every run the decisions taken and not yet carried out to release a block, by a free or by a purge, and the releases made of it come to one at most; a block with a decision pending is in the tree under its own index with no page in use |
| VmapBlocks.EveryBlockAccounted | kvmTest/test/kvm/vmalloc.c:905-953 | in every run each block ever made is either in the tree or has been released, and none twice |
| VmapBlocks.BlockAllocator.AllocFromQueue | kvmTest/test/kvm/vmalloc.c:982-1007 | takes the next pages of the first block of this CPU's queue with room, or says that none of them has any |
| VmapBlocks.BlockAllocator.NewVmapBlock | kvmTest/test/kvm/vmalloc.c:847-903 | files a new block under its index and hands out its first pages; both BUG_ONs hold |
| VmapBlocks.BlockAllocator.VbAlloc | kvmTest/test/kvm/vmalloc.c:963-1014 | pages of the first listed block with room, else of a new one when an area was found, else nothing and no change; zero bytes get nothing |
| VmapBlocks.BlockAllocator.FreeVmapBlock | kvmTest/test/kvm/vmalloc.c:905-918 | the release step, for a block with no page in use |
| VmapBlocks.BlockAllocator.VbFree | kvmTest/test/kvm/vmalloc.c:1016-1058 | the free step on the owning block, followed by its release exactly when all its pages are dirty |
| VmapBlocks.BlockAllocator.PurgeFragmentedBlocks | kvmTest/test/kvm/vmalloc.c:920-953 | releases exactly the listed blocks that have no page in use and some free page, and leaves all others as they were |
| VRead.AlignedVRead | kvmTest/test/kvm/vmalloc.c:1987-2024 | page by page, every byte is memory's where the page is present and 0 where it is not, and no other byte of the buffer changes |
| VRead.FillHole | kvmTest/test/kvm/vmalloc.c:2113-2120 | the bytes up to the area's start are zeros, as no area passed reaches them |
| VRead.CopyArea | kvmTest/test/kvm/vmalloc.c:2121-2130 | the bytes of one area, zeros for an I/O mapping |
| VRead.VRead | kvmTest/test/kvm/vmalloc.c:2089-2142 | 0 with the buffer untouched exactly when nothing was asked for or no live area ends above the address; else the count asked for, and every byte is memory's byte in a live area that is no I/O mapping with its page present, and 0 anywhere else, past the end of the address space too |
| VRead.InsideArea | kvmTest/test/kvm/vmalloc.c:2109-2127 | inside an area the bytewise definition is that area's page contents |
| VRead.NothingAfter | kvmTest/test/kvm/vmalloc.c:2132-2139 | past the last position reached nothing is readable, so the closing zero-fill is right |
| VRead.ZeroMeansNoArea | kvmTest/test/kvm/vmalloc.c:2069-2071 | an answer of zero means that the range meets no live area, as documented |
| VRead.LengthWithoutAreaIff | kvmTest/test/kvm/vmalloc.c:2069-2120 | the documented meaning of the answer, 0 exactly when the range meets no live area, holds for every range but a nonempty one that stops at or before the first live area ending above its start |
| VRead.HoleIsReported | kvmTest/test/kvm/vmalloc.c:2113-2120 | one page asked for below the only area: none is met, and the page is reported |
| ExitProtocol.FiniThreadAtMostOnceIff | kvmTest/dependencies/libmonitor/src/pthread.c:457-476 | in every run the callbacks of a thread incarnation begun or still to begin, over handler, sigwait, cleanup and winner paths, are at most one all along if and only if, between the thread's own test of tn_fini_started and its setting it, neither the shootdown handler finds the flags in favour nor a handler takes the thread into exit to run the winner's callback |
| ExitProtocol.FiniThreadAtMostTwice | kvmTest/dependencies/libmonitor/src/pthread.c:442-476 | in every run it is begun at most twice, and one marked done was begun |
| ExitProtocol.FiniThreadAtMostOnce | kvmTest/dependencies/libmonitor/src/pthread.c:442-476 | out of that window it is begun at most once, and exactly once when marked done |
| ExitProtocol.CallbackTwice | kvmTest/dependencies/libmonitor/src/pthread.c:869-884 | a run in which the signal lands in that window of the cleanup and the callback is begun twice |
| ExitProtocol.CallbackTwiceByExec | kvmTest/dependencies/libmonitor/src/fork.c:345-368 | a run in which a handler on top of that window calls exec: its exit function runs the winner's callback, the exec fails, and the cleanup runs the callback again |
| ExitProtocol.FiniProcessAtMostOnce | kvmTest/dependencies/libmonitor/src/main.c:267-289 | in every run monitor_fini_process is begun at most once, and where the shootdown has taken place only after monitor_fini_thread_done is set |
| ExitProtocol.NoShootdownWithoutThreads | kvmTest/dependencies/libmonitor/src/pthread.c:521-524 | an exit gets past the shootdown without exit cleanup only if its winner found that no thread had ever been created |
| ExitProtocol.WinnerRunsItsOwn | kvmTest/dependencies/libmonitor/src/pthread.c:607-616 | in every run with a shootdown, a winner in the thread list has begun its own fini-thread callback before the shootdown is over and monitor_fini_process begins |
| ExitProtocol.OwnCallbackFinishes | kvmTest/dependencies/libmonitor/src/pthread.c:610-616 | a callback begun there is finished before anything follows it |
| ExitProtocol.OnlyStartedThreadsClaim | kvmTest/dependencies/libmonitor/src/pthread.c:457-476 | in every run a thread other than the winner comes by a callback only when the application has started in it, none has begun before, it is not blocked and the shootdown is not over |
| ExitProtocol.TimeoutMeansUnstarted | kvmTest/dependencies/libmonitor/src/pthread.c:560-604 | in every run a walk that counts a thread as unstarted, or a timeout, comes from a thread the walk met with the application started and its callback not begun |
| ExitLaws.RunsGoOneByOne | kvmTest/dependencies/libmonitor/src/pthread.c:855-886 | in every run a thread begins a callback only while it runs none, a path found in favour leads to its callback before another is found, and only the cleanup leads to the unlinking of its node |
| ExitLaws.DoneMeansEnded | kvmTest/dependencies/libmonitor/src/pthread.c:469-475 | in every run a callback outside the cleanup comes only once exit cleanup is set; a thread whose callback has begun and which runs none is marked done, but for the winner in its own; none is marked done while its first callback runs |
| ExitLaws.FlagsAreTheThreadsOwn | kvmTest/dependencies/libmonitor/src/pthread.c:459-462 | no step but the thread's own starts the application in it or sets or clears its block |
| ExitLaws.FlagsMayBeSet | kvmTest/dependencies/libmonitor/src/pthread.c:459-462 | the thread itself may start the application and set or clear its block at any time, and the flag then says so |
| ExitLaws.LosersGoWhenWinnerEnds | kvmTest/dependencies/libmonitor/src/main.c:297-309 | in every run a waiting loser may go on exactly when the winner has finished its callbacks or has entered exit again; the winner never waits, so no exit waits for itself |
| ExitLaws.LaterEntrantsWait | kvmTest/dependencies/libmonitor/src/main.c:290-307 | whoever enters exit after the winner waits, or is the winner again; neither changes the winner or its progress |
| ExitLaws.LosersStay | kvmTest/dependencies/libmonitor/src/main.c:303-306 | in every run a loser keeps waiting until it is let go |
| ExitLaws.WinnerGoesOn | kvmTest/dependencies/libmonitor/src/pthread.c:521-620 | in every run, once there is a winner and until it has finished, its next step is possible unless a handler is about to run on top of it, and brings it nearer to the end; only the walk is repeated, and only when it counted an unfinished thread |
| ExitLaws.RepeatMeansUnfinished | kvmTest/dependencies/libmonitor/src/pthread.c:566-590 | in every run a walk that counted a thread as unfinished met a thread with the application started and its callback not done |
| ExitProtocol.LosersWaitForWinner | kvmTest/dependencies/libmonitor/src/main.c:297-309 | a losing thread comes back only after the winner has finished its callbacks or has itself entered exit again |
| ExitProtocol.ListFrozenAtExit | kvmTest/dependencies/libmonitor/src/pthread.c:528-530 | once exit cleanup is set, neither the thread list nor the winner changes again |
| ExitProtocol.LateCallbacksWereDue | kvmTest/dependencies/libmonitor/src/pthread.c:457-476 | once monitor_fini_thread_done is set, a thread other than the winner begins only callbacks it had found the flags in favour of before; without timeout each thread that had started when the last walk began or that it saw as started has begun its own |
| ExitProtocol.NoLateCallbacks | kvmTest/dependencies/libmonitor/src/pthread.c:605-616 | without timeout and out of the window no callback of such a thread begins any more |
| ExitProtocol.CallbackAfterShootdown | kvmTest/dependencies/libmonitor/src/pthread.c:463-473 | a run in which a thread begins its callback after monitor_fini_process has begun: it had read the flag before the winner timed out and set it |
| ExitProtocol.LastWalkBegan | kvmTest/dependencies/libmonitor/src/pthread.c:561-586 | the threads a finished shootdown speaks of are those that had started when its last walk began |
| ExitProtocol.ShootdownFinishesThreads | kvmTest/dependencies/libmonitor/src/pthread.c:561-605 | if the shootdown ends without timeout, every other thread that had started when its last walk began, and every one the walk saw as started, has finished a callback, and its only one if the run stayed out of its window |
| ExitProtocol.StepKeepsInv | kvmTest/dependencies/libmonitor/src/pthread.c:510-619 | every step of every thread and of the winner keeps the invariant |
| NodePool.InsertHeadLinks | kvmTest/dependencies/libmonitor/src/queue.h:361-366 | forward links read the list with the element in front, every back link names the pointer to its element, and another list is untouched |
| NodePool.RemoveNodeLinks | kvmTest/dependencies/libmonitor/src/queue.h:370-375 | unhooking through the back link alone removes exactly that element, wherever it is, and leaves another list untouched |
| NodePool.Walk | kvmTest/dependencies/libmonitor/src/pthread.c:566-568 | the loop over LIST_FIRST and LIST_NEXT visits exactly the list's elements in order |
| NodePool.Pool.MakeThreadNode | kvmTest/dependencies/libmonitor/src/pthread.c:366-401 | the free list's head, else the next node of the array, else the first of a new array: a node in no list and not in use; free list, thread list, nodes in use and the unused array tail stay disjoint and well linked |
| NodePool.Pool.LinkThreadNode | kvmTest/dependencies/libmonitor/src/pthread.c:407-421 | links at the head with the next thread number, or refuses and changes nothing once exit cleanup has begun |
| NodePool.Pool.UnlinkThreadNode | kvmTest/dependencies/libmonitor/src/pthread.c:424-440 | moves the node to the free list, or in exit cleanup only marks it finished, the lists unchanged |
| NodePool.Pool.WalkThreads | kvmTest/dependencies/libmonitor/src/pthread.c:561-586 | the unlocked shootdown walk visits exactly the linked threads |
| SignalMask.FilterKeepsInv | kvmTest/dependencies/libmonitor/src/signal.c:405-462 | filtering a mask keeps some listed signal never let through, or fixes one and keeps it open for good |
| SignalMask.FilterLeavesOneOpen | kvmTest/dependencies/libmonitor/src/signal.c:400-402 | every mask let through before exit leaves a usable signal open, the fixed one if one is fixed |
| SignalMask.ShootdownKeepsInv | kvmTest/dependencies/libmonitor/src/signal.c:477-533 | while no signal is fixed the fallback is unreachable, and the signal picked was in no mask let through so far |
| SignalMask.ShootdownSignalAlwaysUsable | kvmTest/dependencies/libmonitor/src/signal.c:341-384 | after every run of mask requests and registrations the shootdown signal is valid, found without the fallback, and was absent from every mask let through before it was fixed |
| SignalMask.ExitChoiceMayBeBlockedLater | kvmTest/dependencies/libmonitor/src/signal.c:513-532 | a signal picked at exit is let through in a later mask exactly when the mask names it and it is not kept open |
| SignalMask.ExitChoiceBlocked | kvmTest/dependencies/libmonitor/src/signal.c:477-532 | a run from the initial table whose exit choice is let through in the next mask |
| SignalMask.PickPrefers | kvmTest/dependencies/libmonitor/src/signal.c:487-522 | the pick is at the best level of preference any listed signal reaches, and of those at that level the earliest in the list |
| SignalMask.SignalTable.constructor | kvmTest/dependencies/libmonitor/src/signal.c:336-384 | the end of the initialisation: the candidate list from the two source lists and the last resort, and the environment's signal when it is usable; the invariant of all runs holds |
| SignalMask.SignalTable.FindAvailable | kvmTest/dependencies/libmonitor/src/signal.c:422-436 | finds whether the mask leaves an available signal open, and if not which is the first available one |
| SignalMask.SignalTable.DropAndMark | kvmTest/dependencies/libmonitor/src/signal.c:450-460 | takes exactly the usable keep-open signals out of the set and marks exactly the others in it as blocked |
| SignalMask.SignalTable.RemoveClientSignals | kvmTest/dependencies/libmonitor/src/signal.c:405-462 | the filter step on the array, the fixed signal and the caller's set |
| SignalMask.SignalTable.Sigaction | kvmTest/dependencies/libmonitor/src/signal.c:548-574 | the client's registration step, refused for an unusable signal; what it leads to is in SignalHistory |
| SignalMask.SignalTable.ApplicationSigaction | kvmTest/dependencies/libmonitor/src/signal.c:612-665 | the application's registration step; an invalid signal is refused, one to avoid is passed on to the system |
| SignalMask.SignalTable.GetShootdownSignal | kvmTest/dependencies/libmonitor/src/signal.c:477-533 | the exit-time choice |
| SignalMask.Best | kvmTest/dependencies/libmonitor/src/signal.c:493-522 | the loop with its three answers computes the preferred signal |
| SignalHistory.FlagsTellHistory | kvmTest/dependencies/libmonitor/src/signal.c:405-665 | after every run of masks and registrations a usable signal has a client handler exactly when the client's last registration for it installed one, an application handler exactly when the application ever installed one, and is blocked exactly when it was let through in some mask |
| SignalHistory.ExitPickSparesHandlers | kvmTest/dependencies/libmonitor/src/signal.c:477-533 | in every run from the initial table, the signal picked at exit is, among the candidates never let through in a mask, one the client's last registration catches only if it catches all of them, one the client or the application catches only if that is so of all, and the earliest listed of those |
| SignalHistory.EnvironmentDecides | kvmTest/dependencies/libmonitor/src/signal.c:364-380 | a usable signal asked for in the environment is the shootdown signal in every run, and no mask with it is ever let through |
| SignalHistory.MaskFixesEarliest | kvmTest/dependencies/libmonitor/src/signal.c:416-444 | in every run with no signal fixed so far, a mask fixes one exactly when it names every candidate never let through, and then it is the earliest listed of them |
| SignalHistory.MasksLetThrough | kvmTest/dependencies/libmonitor/src/signal.c:405-665 | in every run exactly the mask requests and the registrations of usable signals with an act let a mask through, and what is taken out of it are exactly the usable signals kept open from the start, those the client has registered, and the one fixed by the environment or the filter |
| SignalHistory.CandidatesAre | kvmTest/dependencies/libmonitor/src/signal.c:336-362 | the candidates are the last resort and those offered signals that are usable, do not stop the process by default and were not kept open from the start; no step changes them |
| SignalHistory.ShootdownNeverStops | kvmTest/dependencies/libmonitor/src/signal.c:336-380 | in every run the shootdown signal, whichever way it was chosen, does not stop the process by default unless it is the last resort |
| SignalHistory.ClientSignalsStayOpen | kvmTest/dependencies/libmonitor/src/signal.c:559-569 | in every run a usable signal the client registers is in no mask let through from then on |
| SignalHistory.ListedInOrder | kvmTest/dependencies/libmonitor/src/signal.c:336-362 | the candidates come in the order of the lists they are taken from |
| SignalHistory.FirstUnblockedIsFirst | kvmTest/dependencies/libmonitor/src/signal.c:422-444 | the signal the filter fixes is the earliest listed one not blocked |
| Overlap.OverlapBytesAreShared | kvmTest/includes/tools/witchTool/watchpoint-lib/watchpoint_util.h:35 | GET_OVERLAP_BYTES is the number of shared addresses, and not positive exactly when there are none |
| Overlap.OverlapTestIsExact | kvmTest/includes/tools/witchTool/watchpoint-lib/watchpoint_util.h:34 | away from the top of the address space ADDRESSES_OVERLAP says whether two non-empty ranges meet |
| Overlap.OffsetsNameOneAddress | kvmTest/includes/tools/witchTool/watchpoint-lib/watchpoint_util.h:36-37 | the two offset macros name one address if and only if the ranges start in the same half of the address space |
| Overlap.CompareBytes | kvmTest/src/tools/witchTool/witchLogic/redSpy.cpp:218-228 | the loop's one-byte counter ends at the overlap modulo 256 when all bytes agree, and at 0 otherwise |
| Overlap.Classify | kvmTest/src/tools/witchTool/witchLogic/redSpy.cpp:73-228 | the sequence of tests of the callback computes the verdict |
| Overlap.OverlapFits | kvmTest/src/tools/witchTool/witchLogic/redSpy.cpp:73-90 | an access that meets a watch shares with it at most the watch's 8 bytes, so the loop's one-byte counter cannot wrap to zero |
| Overlap.RedundantIffSameBytes | kvmTest/src/tools/witchTool/witchLogic/redSpy.cpp:73-258 | for accesses that meet a watch of a length a slot can have and are not compared as floating point, whatever their type: dropped for the offset exactly when the access starts more than 16 bytes below the watch, else redundant if and only if every shared address holds the same byte in both snapshots |
| Overlap.VerdictOfMeeting | kvmTest/src/tools/witchTool/witchLogic/redSpy.cpp:73-258 | the verdict on any access that meets the watch, from the addresses both cover: dropped when it starts more than 16 bytes lower, compared as floating point exactly when a whole aligned value of its type is shared, else byte by byte |
| Overlap.NoOverlapIff | kvmTest/src/tools/witchTool/witchLogic/redSpy.cpp:73-84 | no overlap is reported exactly when the watch shares no address with the access as decoded, nor with one of that length at the address reported by the trap |
| ContextTrie.FindAmong | kvmTest/includes/platform/context.hpp:109-132 | the lookup among the children finds one whose address and line are equal, or says that there is none |
| ContextTrie.AddFrameKeepsWellFormed | kvmTest/includes/tools/witchTool/witchLogic/WitchLogic.hpp:108-126 | no two children of a node ever share a frame, and parents and children name each other |
| ContextTrie.AddFramesReadsBack | kvmTest/includes/tools/witchTool/witchLogic/WitchLogic.hpp:89-136 | following `_parent` from the leaf reads the inserted list back; the tree stays well formed and no new node carries a metric |
| ContextTrie.AddFramesKeepsPaths | kvmTest/includes/tools/witchTool/witchLogic/WitchLogic.hpp:89-136 | no existing node's path changes |
| ContextTrie.AddFramesAgain | kvmTest/includes/tools/witchTool/witchLogic/WitchLogic.hpp:113-126 | inserting the same list again, with any other insertion in between, adds nothing and returns the same leaf |
| ContextTrie.AddFramesTellsApart | kvmTest/includes/platform/context.hpp:29-32 | lists that differ in an address or a line end in different leaves |
| ContextTrie.PathsIdentify | kvmTest/includes/tools/witchTool/witchLogic/WitchLogic.hpp:108-126 | two nodes with the same path are one node |
| Attribution.SampleKeepsInv | kvmTest/includes/tools/witchTool/witchLogic/WitchLogic.hpp:148-182 | a sample keeps totals, metrics and sample counts in agreement |
| Attribution.TrapKeepsInv | kvmTest/src/tools/witchTool/witchLogic/redSpy.cpp:47-280 | a trap keeps them in agreement on every branch of the three callbacks |
| Attribution.ChargePairSums | kvmTest/src/tools/witchTool/witchLogic/redSpy.cpp:241-249 | a pair adds its increment to two leaves: twice to the sum over all nodes, or on one node twice |
| Attribution.CatchUpKeeps | kvmTest/includes/tools/witchTool/witchLogic/WitchLogic.hpp:184-205 | a catch-up returns the samples not yet charged times the period, and leaves none uncharged |
| WitchRuns.MetricsMatchTotals | kvmTest/src/tools/witchTool/witchLogic/redSpy.cpp:193-258 | in every run the redundant, approximate and dead bytes summed over all nodes are twice their totals, and the used bytes equal theirs |
| WitchRuns.ChargedBytesAreTotalled | kvmTest/src/tools/witchTool/witchLogic/deadStore.cpp:65-106 | in every run every byte charged is in exactly one total; only DeadStore, which catches up before its overlap test, can lose any |
| WitchRuns.NoSampleChargedTwice | kvmTest/includes/tools/witchTool/witchLogic/WitchLogic.hpp:148-205 | in every run a context has been charged the period times the samples caught up, which never exceed the samples taken in that very context |
| WitchRuns.TrapFrames | kvmTest/src/tools/witchTool/witchLogic/loadSpy.cpp:48-231 | a trap moves no path, changes no sample count and records no event |
| WitchProfiler.Profiler.AddFramesToContextTree | kvmTest/includes/tools/witchTool/witchLogic/WitchLogic.hpp:89-136 | the loop, in either direction, is the specified insertion |
| WitchProfiler.Profiler.OnSampleCallback | kvmTest/includes/tools/witchTool/witchLogic/WitchLogic.hpp:148-182 | records the leaf and counts the sample, or returns false for an empty chain |
| WitchProfiler.Profiler.GetNumDiffSamplesAndReset | kvmTest/includes/tools/witchTool/witchLogic/WitchLogic.hpp:184-205 | returns the uncharged samples times the period and marks them charged; 0 for an unknown leaf |
| WitchProfiler.Profiler.SpyCallback | kvmTest/src/tools/witchTool/witchLogic/redSpy.cpp:47-280 | RedSpy's and LoadSpy's callback with all its early returns: new state and answer are those TrapLaws speaks of |
| WitchProfiler.Profiler.DeadStoreCallback | kvmTest/src/tools/witchTool/witchLogic/deadStore.cpp:44-138 | DeadStore's callback, the catch-up before the overlap test: new state and answer are those TrapLaws speaks of |
| TrapLaws.TrapAnswers | kvmTest/src/tools/witchTool/witchLogic/redSpy.cpp:47-280 | a trap is answered Retain exactly for an access kind its tool ignores, and then nothing changes; all others are answered Disable; exactly the trap's own event is forgotten, and only when the tool acts upon the trap |
| TrapLaws.TrapStopsWatch | kvmTest/src/tools/witchTool/watchpoint-lib/src/watchpoint.cpp:434-484 | in the watchpoint table: after any trap but an ignored one its slot is inactive, unless its device was to be modified in place and was not found; no other slot changes; an ignored one changes nothing |
| TrapLaws.SampleAnswers | kvmTest/includes/tools/witchTool/witchLogic/WitchLogic.hpp:148-182 | a sample is recorded exactly when its call chain is not empty; its event then leads to the node the chain spells, and no other event's record changes |
| TrapLaws.ChargePairPlaces | kvmTest/src/tools/witchTool/witchLogic/redSpy.cpp:241-249 | a pair is charged to the sampled leaf and to the node the trap's chain leads to below it, in one metric, and no other node's metric changes |
| TrapLaws.TrapPlaces | kvmTest/src/tools/witchTool/witchLogic/redSpy.cpp:192-258 | end to end: what a trap charges goes in the one metric its verdict names to the event's leaf and, used bytes apart, to the node its own chain leads to below it, and nowhere else |
| WitchProfiler.Profiler.CalculateForAllContext | kvmTest/includes/tools/witchTool/witchLogic/WitchLogic.hpp:338-364 | the recursive roll-up: exactly the nodes not cut off by a pruned one end up with the sum of redundant and of used bytes at and below them, other metrics unchanged |
| RollUp.SumUnder | kvmTest/includes/tools/witchTool/witchLogic/WitchLogic.hpp:345-361 | the bytes below a node are its own and those below its unpruned children, none twice |
| RollUp.UnderIsChildren | kvmTest/includes/tools/witchTool/witchLogic/WitchLogic.hpp:345-361 | what lies below a node is itself and what lies below its unpruned children |
| RollUp.ChildRolled | kvmTest/includes/tools/witchTool/witchLogic/WitchLogic.hpp:347-355 | the call for one child disturbs no subtree still to be visited |
| InstRollUp.TrapChainCutOff | kvmTest/src/tools/witchTool/witchLogic/redSpy.cpp:58-60 | in a per-instruction build the chain hung below a sampled leaf is pruned as a whole |
| InstRollUp.ChainLive | kvmTest/includes/tools/witchTool/witchLogic/WitchLogic.hpp:343-344 | a sampled chain without adjacent equal addresses is nowhere pruned |
| InstRollUp.RootHoldsTotals | kvmTest/src/tools/witchTool/witchLogic/redSpy.cpp:286-289 | after the roll-up of a per-instruction run the root's redundant and used bytes are the global totals |
| CutOff.CutOffExactly | kvmTest/includes/tools/witchTool/witchLogic/WitchLogic.hpp:338-364 | in every per-instruction run the nodes the roll-up leaves out are exactly those at or below a node that hangs below a sampled leaf and has its address, as the chain of a trap begins |
| InstRollUp.EmptyChainCountsTwice | kvmTest/src/tools/witchTool/witchLogic/redSpy.cpp:244-249 | why trap chains must not be empty: such a trap counts its bytes twice |
| InstRollUp.CutOffLeafUncounted | kvmTest/includes/tools/witchTool/witchLogic/WitchLogic.hpp:343-344 | why sampled chains must not repeat an address: a leaf cut off keeps its bytes from the root |
| WitchRuns.IntegerTrapIsJudgedByBytes | kvmTest/src/tools/witchTool/witchLogic/redSpy.cpp:73-258 | end to end: a trap whose access meets the sample's and is compared byte by byte adds all bytes owed by the context to the redundant total if every shared address holds the same byte in both snapshots, else to the used total, and nothing stays owed; one starting more than 16 bytes lower changes nothing else; the event's record is gone |
| WitchRuns.StoreTrapIsDead | kvmTest/src/tools/witchTool/witchLogic/deadStore.cpp:65-134 | end to end: a trap whose access meets the sample's adds all bytes owed to the dead total for a store, and to the used total for an access that loads |
| PerfRecords.WordRoundTrip | kvmTest/src/platform/device/perf_parser.cpp:489-495 | a word written in little-endian bytes reads back |
| PerfRecords.ReadWord | kvmTest/src/platform/device/perf_parser.cpp:489-495 | reading a word gives the value written and leaves the reader at the next field |
| PerfRecords.DecodeSample | kvmTest/src/platform/device/perf_parser.cpp:672-856 | every part of a sample that was asked for, in the order of the layout, is decoded to what was encoded, the event's fields are overwritten with exactly those parts, and the reader stands behind the record |
| PerfRecords.DecodeChain | kvmTest/src/platform/device/perf_parser.cpp:752-770 | a call chain of any length |
| PerfRecords.DecodeBranches | kvmTest/src/platform/device/perf_parser.cpp:796-856 | a branch stack of any length |
| PerfRecords.DecodePlain | kvmTest/src/platform/device/perf_parser.cpp:487-521 | LOST, COMM, FORK, EXIT, THROTTLE and UNTHROTTLE records |
| PerfRecords.DecodeMmap | kvmTest/src/platform/device/perf_parser.cpp:546-629 | MMAP and MMAP2 records, with the file name's length left over from the record's size |
| PerfRecords.SizeOfStrings | kvmTest/src/platform/device/perf_parser.cpp:513-514 | the sizes subtracted are the bytes a record has beside its string |
| PerfRecords.DecodeAll | kvmTest/src/platform/device/perf_parser.cpp:360-1146 | the loop consumes exactly `size` bytes, counts the records, decodes each to what was encoded, and leaves the event as the records made it |
| PerfRecords.LastSampleWins | kvmTest/src/platform/device/perf_parser.cpp:674-736 | every field a sample sets is the last sample's, every field it does not set is as before |
| PerfRecords.Straightened | kvmTest/src/platform/device/perf_parser.cpp:344-355 | the two copies put records lying anywhere in the ring, across its end too, in reading order |
| PerfRecords.PerfMmapRead | kvmTest/src/platform/device/perf_parser.cpp:301-1154 | the whole read: records written since the last head are decoded wherever they lie, the tail moves to the head; a ring of size 0 changes nothing |
| RingReader.MaskIsRemainder | kvmTest/src/tools/witchTool/watchpoint-lib/src/watchpoint_mmap.cpp:25-34 | for a power of two masking is the remainder |
| RingReader.PiecesAreNext | kvmTest/src/tools/witchTool/watchpoint-lib/src/watchpoint_mmap.cpp:61-75 | the two pieces copied are the next bytes written, across the wrap too |
| RingReader.DeliveriesAreWhatWasWritten | kvmTest/src/tools/witchTool/watchpoint-lib/src/watchpoint_mmap.cpp:20-107 | in every run of reads, refused reads, kernel appends and skips, what was delivered and what was skipped, end to end, is exactly what was written from the first position to the tail, and each skip lies where the deliveries before it ended |
| RingReader.ReadsAreWhatWasWritten | kvmTest/src/tools/witchTool/watchpoint-lib/src/watchpoint_mmap.cpp:20-80 | in every run without a skip the bytes read, end to end, are the bytes written from the first position to the tail |
| RingReader.Ring.ReadMmapBuffer | kvmTest/src/tools/witchTool/watchpoint-lib/src/watchpoint_mmap.cpp:20-80 | returns the next bytes written and not yet read, or refuses and changes nothing exactly when fewer are there |
| RingReader.Ring.ConsumeAllData | kvmTest/src/tools/witchTool/watchpoint-lib/src/watchpoint_mmap.cpp:83-107 | the skip step: all that is unread is passed over |
| RingReader.Ring.AppendBytes | kvmTest/src/tools/witchTool/watchpoint-lib/src/watchpoint_mmap.cpp:38-41 | the kernel's side: as many bytes as there is room for, none over an unread one |
| RingReader.AppendKeepsOthers | kvmTest/src/tools/witchTool/watchpoint-lib/src/watchpoint_mmap.cpp:38-41 | the kernel's store at the head overwrites no byte still to be read |
| RingReader.PutAllKeepsOthers | kvmTest/src/tools/witchTool/watchpoint-lib/src/watchpoint_mmap.cpp:38-41 | nor do any number of stores within the room there is |
| Watchpoints.OverlapTestIsExact | kvmTest/src/tools/witchTool/watchpoint-lib/src/watchpoint.cpp:183-203 | for every range of the address space the test refuses exactly the ranges that meet an active slot's, but for two that meet while one of them ends at 2^64, which it overlooks |
| Watchpoints.TopRangeAgreesIff | kvmTest/src/tools/witchTool/watchpoint-lib/src/watchpoint.cpp:183-203 | over a table below the top the test agrees with the true meeting of ranges if and only if the range ends below 2^64 or no active slot ends above its start |
| Watchpoints.SubscribeKeepsTableIff | kvmTest/src/tools/witchTool/watchpoint-lib/src/watchpoint.cpp:926-969 | from a sound table, a subscription leaves a sound table exactly when it is refused, finds no slot, does not come to watch the range, or no active slot but the victim's is overlooked by the test |
| Watchpoints.TopSubscribeDisjointIff | kvmTest/src/tools/witchTool/watchpoint-lib/src/watchpoint.cpp:926-969 | over a table below the top, a range ending at 2^64 is never refused for meeting one, and once a slot watches it the table is sound exactly when no other active slot ends above its start |
| Watchpoints.DisjointIffStepsSafe | kvmTest/src/tools/witchTool/watchpoint-lib/src/watchpoint.cpp:926-969 | in every run the active slots watch disjoint ranges all along if and only if every step is safe in that sense |
| Watchpoints.BelowTopIsSafe | kvmTest/src/tools/witchTool/watchpoint-lib/src/watchpoint.cpp:183-203 | every step is safe over slots and for ranges that end below 2^64 |
| Watchpoints.RunsBelowTopAreDisjoint | kvmTest/src/tools/witchTool/watchpoint-lib/src/watchpoint.cpp:926-969 | in every run whose subscriptions all end below 2^64 the active slots watch disjoint ranges in every state |
| Watchpoints.TopRangesMeet | kvmTest/src/tools/witchTool/watchpoint-lib/src/watchpoint.cpp:926-969 | a run of two accepted subscriptions whose ranges meet at the top |
| Watchpoints.ArmKeepsTableIff | kvmTest/src/tools/witchTool/watchpoint-lib/src/watchpoint.cpp:507-664 | re-arming a slot for a range the test let through keeps the table sound exactly when the slot does not become active or none of the others is overlooked, whatever the device layer does |
| Watchpoints.ActiveSlotsAreSound | kvmTest/src/tools/witchTool/watchpoint-lib/src/watchpoint.cpp:926-969 | in every run, ranges ending at 2^64 included, an active slot has a file handle and, unless it watches instructions, an aligned range of 1, 2, 4 or 8 bytes |
| Watchpoints.CountersCountSearches | kvmTest/src/tools/witchTool/watchpoint-lib/src/watchpoint.cpp:673-763 | in every run a slot's samplePostFull is 1 plus the victim searches it was active for since its last reset |
| Watchpoints.ZeroMeansWatchedIff | kvmTest/src/tools/witchTool/watchpoint-lib/src/watchpoint.cpp:642-664 | after an answer of 0 the range is watched exactly when the slot got a fresh device or its update went through or it was watching the range before |
| Watchpoints.FailedUpdateAnswersZero | kvmTest/src/tools/witchTool/watchpoint-lib/src/watchpoint.cpp:642-664 | a run whose last subscription answers 0 although its address update was refused and the range is not watched |
| Watchpoints.SubscribeEvictsOnlyWhenFull | kvmTest/src/tools/witchTool/watchpoint-lib/src/watchpoint.cpp:673-763 | a subscription touches the watch of one slot at most, of none when it is refused or unlucky, and of no active one while some slot is inactive |
| Watchpoints.DisableStops | kvmTest/src/tools/witchTool/watchpoint-lib/src/watchpoint.cpp:442-450 | a disabled slot is inactive unless its device was to be modified in place and was not found; its count starts anew, and no other slot changes |
| Watchpoints.DisableAllStops | kvmTest/src/tools/witchTool/watchpoint-lib/src/watchpoint.cpp:452-463 | disabling all leaves active only slots whose device was to be modified and was not found, and every count starts anew |
| Watchpoints.WatchIsFound | kvmTest/src/tools/witchTool/watchpoint-lib/src/watchpoint.cpp:331-360 | what is watched after an answer of 0 is recognised by its handle and sampled address when it traps |
| Watchpoints.AnyOrderCanArise | kvmTest/src/tools/witchTool/watchpoint-lib/src/watchpoint.cpp:725-736 | every permutation of the slots comes out of the shuffle for some random numbers |
| Watchpoints.ThreadData.FindOverlap | kvmTest/src/tools/witchTool/watchpoint-lib/src/watchpoint.cpp:183-203 | the loop decides whether an active slot clashes with the range |
| Watchpoints.ThreadData.Shuffle | kvmTest/src/tools/witchTool/watchpoint-lib/src/watchpoint.cpp:725-736 | the visit order is that of the specified exchanges, and whatever the random numbers a permutation of the slots |
| Watchpoints.ThreadData.Reservoir | kvmTest/src/tools/witchTool/watchpoint-lib/src/watchpoint.cpp:724-761 | on a full table every slot is counted exactly once wherever the draws end the search; the victim is the slot visited when the first draw accepts, and none is available exactly when no draw accepts |
| Watchpoints.ThreadData.GetVictim | kvmTest/src/tools/witchTool/watchpoint-lib/src/watchpoint.cpp:673-763 | adds one to exactly the active slots; an empty slot is found exactly when the table is not full, and it is the first one; on a full table the victim is the slot visited when the first draw accepts |
| Watchpoints.ThreadData.ArmWatchPoint | kvmTest/src/tools/witchTool/watchpoint-lib/src/watchpoint.cpp:507-664 | the slot after arming, in place or with a fresh device, on success and on each failure |
| Watchpoints.ThreadData.WPSubscribe | kvmTest/src/tools/witchTool/watchpoint-lib/src/watchpoint.cpp:926-969 | refused with nothing changed for a bad or overlapping range, else the subscribe step and its answer |
| Watchpoints.ThreadData.FindFired | kvmTest/src/tools/witchTool/watchpoint-lib/src/watchpoint.cpp:331-360 | the first active slot with this handle and sampled address |
| Watchpoints.ThreadData.OnWatchPoint | kvmTest/src/tools/witchTool/watchpoint-lib/src/watchpoint.cpp:437-484 | the trap step for each answer of the tool |
| Watchpoints.TrapKeepsInv | kvmTest/src/tools/witchTool/watchpoint-lib/src/watchpoint.cpp:440-484 | a trap keeps the table sound and the counters right |

## Left out

- The rotation and colouring of the kernel's red-black tree: `VmapKva.TreeOf` stands for whatever shape an erasure leaves, as only the in-order reading matters.
- Addresses for which rounding up to the alignment would itself pass 2^64: `VmapAlloc.Walk` rounds unbounded integers; the overflow test on address plus size is modelled.
- `VmapKva.Allocator.AllocVmapArea`: without the retries after the blocking notifier, whose callbacks are foreign code that frees what it likes; which blocks are fragmented when the purge runs is the parameter `fragmented`, as in `PcpuAreas.GetVmAreas`.
- `kmalloc` failures, and the threshold that starts a purge.
- Percpu areas of size zero: `PcpuAreas.ValidGroup` asks for positive sizes.
- `VmapRuns.LazyFreeKeepsInv`: the atomic add to the lazy counter and the push on the purge list are one step.
- `set_iounmap_nonlazy`, which overwrites the lazy counter, and the flush coverage of `vm_unmap_aliases`; with them the dirty range of a block.
- `VmapBlocks.NewBlockKeepsInv`: the start of a new block is what `alloc_vmap_area` returned, aligned and not in use; the insertion in the tree and in the queue are one step.
- `VmapBlocks.BlockAllocator.VbAlloc`: a failed `radix_tree_preload` is a failure to find an area; the list of live sub-allocations is history that the original does not store.
- The page-table walkers, page allocation, `vwrite`, and the benchmark and procfs code of `vmalloc.c`.
- `NodePool.Pool.MakeThreadNode`: a failing `malloc` ends the process and is not modelled; nodes are addresses in a map of links, not separate objects.
- In the exit protocol, a thread that has entered exit may go back to its own code at any time, as it does after an exec that fails; the model has more runs here than can happen.
- In the exit protocol: cancellation states, the delivery of signals and the poll delays; a handler may run whenever its tests allow it once exit cleanup is set.
- Forked-child resets of the thread list, and `sigwait` beyond its shootdown branch.
- `SignalMask.ShootdownSignalAlwaysUsable`: which signals the system refuses, and the flags the source's lists set, are arbitrary, but the last resort is usable.
- Floating-point comparison in the spies: `close` in a trap is its result. Average distances, INEFFICIENCY and CONTEXTTYPE, which only feed the printout, the count of watched samples, and the builds with SHOW_USED_CONTEXT.
- Counters of the profiler are unbounded integers, and the proportion is the constant 1; method and source names take no part in frame equality and are not kept.
- `cleanContextTree`, which deletes nodes that stay listed as children: modelled runs end before it. The order in which a hash set lists children: nothing proved depends on it.
- `Overlap.OverlapTestIsExact`: ranges that end at or beyond 2^64 are excluded, as the macro wraps there; `Watchpoints.OverlapTestIsExact` has those that end exactly there.
- `Overlap.RedundantIffSameBytes`: accesses longer than 2^32 - 16 bytes, whose offsets wrap the C ints; no instruction has one.
- `Overlap.NoOverlapIff`: a trap address 2^31 bytes or more from the watch, or in the other half of the address space, for which the macro's value is cut to 32 bits or taken with the wrong sign; the hardware reports an address it watches.
- `Watchpoints.ActiveSlotsAreSound`: no subscription reaches past 2^64. An instruction watch of an unsupported length ends the process and is no step. Only the policy WP_REPLACEMENT_AUTO, the one ever set, and tables of one to five slots.
- `Watchpoints.ThreadData.OnWatchPoint`: a trap that matches no slot ends the process; the deletion of events is not modelled.
- perf AUX, READ, SWITCH, ITRACE and LOST_SAMPLES records, and the sample parts READ, REGS, STACK_USER, WEIGHT, DATA_SRC, IDENTIFIER and TRANSACTION, which no device here requests.
- `PerfRecords.PerfMmapRead`: an overrun of the ring only prints a message in the original; here what was written since the last read fits the ring.
- Device registration, disassembly, symbol loading, stack unwinding, scripting, printing and the thin wrappers.
