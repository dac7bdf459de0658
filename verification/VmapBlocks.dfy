/** The per-CPU block allocator of vmalloc.c: blocks of VMAP_BBMAP_BITS pages cut from the vmap areas,
    each handed out front to back, counted free and dirty, and released when no page is in use. Every
    section under a block's lock is one step, and so is a release. */
module VmapBlocks {
  import opened Common
  import opened VmapAreas

  const MAX_ALLOC := 64

  /** A sub-allocation: its first page in the block, and its pages. */
  datatype Sub = Sub(off: int, pages: nat)

  datatype Block = Block(start: int, free: int, dirty: int, live: seq<Sub>)

  /** `pending` has one entry for each decision to release a block, `released` one for each release made. */
  datatype Blocks = Blocks(
    bits: nat, vmallocStart: int, blocks: map<nat, Block>, tree: map<int, nat>, queues: seq<seq<nat>>,
    pending: multiset<nat>, released: seq<nat>, nextId: nat)

  /** VMAP_BBMAP_BITS is at least twice the largest request. */
  predicate ValidBits(bits: nat) {
    2 * MAX_ALLOC <= bits <= 1024
  }

  /** 1 << get_order(size): the least power of two of pages that holds `size`. */
  function Pages(size: nat, n: nat := 1): (r: nat)
    requires 0 < size <= PAGE_SIZE * MAX_ALLOC && n in {1, 2, 4, 8, 16, 32, 64} && (n > 1 ==> size > PAGE_SIZE * (n / 2))
    ensures 0 < r <= MAX_ALLOC && IsPowerOf2(r) && size <= PAGE_SIZE * r && (r > 1 ==> size > PAGE_SIZE * (r / 2))
    decreases MAX_ALLOC - n
  {
    if size <= PAGE_SIZE * n then n else Pages(size, 2 * n)
  }

  function BlockSize(bits: nat): nat {
    bits * PAGE_SIZE
  }

  function AddrToVbIdx(bits: nat, vmallocStart: int, addr: int): int
    requires bits > 0
  {
    (addr - AlignDown(vmallocStart, BlockSize(bits))) / BlockSize(bits)
  }

  function Idx(s: Blocks, addr: int): int
    requires s.bits > 0
  {
    AddrToVbIdx(s.bits, s.vmallocStart, addr)
  }

  /** Every address of an aligned block has the block's index and gives back its offset. */
  lemma IdxOfBlock(s: Blocks, start: int, d: int)
    requires s.bits > 0 && Aligned(start, BlockSize(s.bits)) && 0 <= d < BlockSize(s.bits)
    ensures Idx(s, start + d) == Idx(s, start) && (start + d) % BlockSize(s.bits) == d
    ensures start == AlignDown(s.vmallocStart, BlockSize(s.bits)) + Idx(s, start) * BlockSize(s.bits)
  {
    var b := BlockSize(s.bits);
    var base := AlignDown(s.vmallocStart, b);
    AlignedSum(start, base, b);
    var m := (start - base) / b;
    assert start - base == m * b;
    Remainder(start - base + d, m, d, b);
    Remainder(start - base, m, 0, b);
    Remainder(start + d, start / b, d, b);
  }

  function SumPages(live: seq<Sub>): nat {
    if live == [] then 0 else SumPages(live[..|live| - 1]) + live[|live| - 1].pages
  }

  function Without(live: seq<Sub>, k: nat): seq<Sub>
    requires k < |live|
  {
    live[..k] + live[k + 1..]
  }

  lemma {:induction false} SumWithout(live: seq<Sub>, k: nat)
    requires k < |live|
    ensures SumPages(live) == SumPages(Without(live, k)) + live[k].pages
    decreases |live|
  {
    var n := |live| - 1;
    if k == n {
      assert Without(live, k) == live[..n];
    } else {
      SumWithout(live[..n], k);
      assert Without(live, k)[..n - 1] == Without(live[..n], k);
    }
  }

  /** Sub-allocations in address order, apart, and before the part of the block never handed out. */
  ghost predicate Packed(bits: nat, b: Block) {
    && (forall i :: 0 <= i < |b.live| ==> b.live[i].pages > 0 && 0 <= b.live[i].off <= b.live[i].off + b.live[i].pages <= bits - b.free)
    && (forall i, j :: 0 <= i < j < |b.live| ==> b.live[i].off + b.live[i].pages <= b.live[j].off)
  }

  ghost predicate BlockOk(bits: nat, b: Block)
    requires bits > 0
  {
    && 0 <= b.free && 0 <= b.dirty && b.free + b.dirty + SumPages(b.live) == bits
    && Packed(bits, b)
    && Aligned(b.start, BlockSize(bits))
  }

  /** vb_alloc on one block: the next pages that were never handed out. */
  function Take(bits: nat, b: Block, n: nat): Block {
    b.(free := b.free - n, live := b.live + [Sub(bits - b.free, n)])
  }

  function Give(b: Block, k: nat): Block
    requires k < |b.live|
  {
    b.(dirty := b.dirty + b.live[k].pages, live := Without(b.live, k))
  }

  lemma TakeKeepsOk(bits: nat, b: Block, n: nat)
    requires bits > 0 && BlockOk(bits, b) && 0 < n <= b.free
    ensures BlockOk(bits, Take(bits, b, n))
  {
    var live := b.live + [Sub(bits - b.free, n)];
    assert live[..|live| - 1] == b.live;
  }

  lemma GiveKeepsOk(bits: nat, b: Block, k: nat)
    requires bits > 0 && BlockOk(bits, b) && k < |b.live|
    ensures BlockOk(bits, Give(b, k)) && Give(b, k).free == b.free && Give(b, k).start == b.start
    ensures multiset(Give(b, k).live) == multiset(b.live) - multiset{b.live[k]}
  {
    assert b.live == b.live[..k] + [b.live[k]] + b.live[k + 1..];
    hide Packed, SumPages, Without, Aligned;
    SumWithout(b.live, k);
    GiveKeepsPacked(bits, b, k);
  }

  lemma GiveKeepsPacked(bits: nat, b: Block, k: nat)
    requires Packed(bits, b) && k < |b.live|
    ensures Packed(bits, Give(b, k))
  {
    var live := Without(b.live, k);
    assert forall i :: 0 <= i < |live| ==> live[i] == b.live[if i < k then i else i + 1];
  }

  lemma {:induction false} NoPagesNoSubs(bits: nat, b: Block)
    requires Packed(bits, b)
    ensures SumPages(b.live) == 0 <==> b.live == []
  {
    if b.live != [] {
      assert b.live[|b.live| - 1].pages > 0;
    }
  }

  // ---------- the queues of blocks with free pages ----------

  predicate Queued(qs: seq<seq<nat>>, id: nat) {
    exists c :: 0 <= c < |qs| && id in qs[c]
  }

  function RemoveId(q: seq<nat>, id: nat): (r: seq<nat>)
    ensures forall x :: x in r <==> x in q && x != id
  {
    if q == [] then [] else (if q[0] == id then [] else [q[0]]) + RemoveId(q[1..], id)
  }

  function Dequeue(qs: seq<seq<nat>>, id: nat): (r: seq<seq<nat>>)
    ensures |r| == |qs| && forall c :: 0 <= c < |qs| ==> r[c] == RemoveId(qs[c], id)
  {
    seq(|qs|, c requires 0 <= c < |qs| => RemoveId(qs[c], id))
  }

  lemma DequeueMembers(qs: seq<seq<nat>>, id: nat)
    ensures forall x :: Queued(Dequeue(qs, id), x) <==> Queued(qs, x) && x != id
  {
    forall x ensures Queued(Dequeue(qs, id), x) <==> Queued(qs, x) && x != id {
      if Queued(qs, x) && x != id {
        var c :| 0 <= c < |qs| && x in qs[c];
        assert x in Dequeue(qs, id)[c];
      }
    }
  }

  lemma EnqueueMembers(qs: seq<seq<nat>>, cpu: nat, id: nat)
    requires cpu < |qs|
    ensures forall x :: Queued(qs[cpu := qs[cpu] + [id]], x) <==> Queued(qs, x) || x == id
  {
    var qs' := qs[cpu := qs[cpu] + [id]];
    forall x ensures Queued(qs', x) <==> Queued(qs, x) || x == id {
      if Queued(qs, x) {
        var c :| 0 <= c < |qs| && x in qs[c];
        assert x in qs'[c];
      }
      assert id in qs'[cpu];
    }
  }

  // ---------- steps ----------

  datatype Step =
    | Alloc(id: nat, pages: nat)          // vb_alloc, a block with room
    | NewBlock(start: int, pages: nat, cpu: nat)
    | Free(addr: int, pages: nat)         // vb_free
    | Purge(id: nat)                      // purge_fragmented_blocks, one block
    | Release(id: nat)                    // free_vmap_block

  /** The sub-allocation of a block that starts at an address. */
  ghost predicate IsLive(s: Blocks, id: nat, k: nat, addr: int, pages: nat) {
    && id in s.blocks && k < |s.blocks[id].live|
    && s.blocks[id].live[k].pages == pages && addr == s.blocks[id].start + s.blocks[id].live[k].off * PAGE_SIZE
  }

  ghost predicate HandedOut(s: Blocks, addr: int, pages: nat) {
    exists id: nat, k: nat :: IsLive(s, id, k, addr, pages)
  }

  /** What the callers and alloc_vmap_area provide. */
  /** What alloc_vmap_area may return for a block to be queued on `cpu`: an aligned start inside the window that
      no block has. */
  ghost predicate AreaFor(s: Blocks, start: int, cpu: nat)
    requires s.bits > 0
  {
    && cpu < |s.queues| && s.vmallocStart <= start && Aligned(start, BlockSize(s.bits))
    && forall id :: id in s.blocks ==> s.blocks[id].start != start
  }

  ghost predicate Enabled(s: Blocks, st: Step)
    requires s.bits > 0
  {
    match st
    case Alloc(id, pages) => id in s.blocks && 0 < pages <= s.blocks[id].free
    case NewBlock(start, pages, cpu) =>
      0 < pages <= MAX_ALLOC && AreaFor(s, start, cpu)
    case Free(addr, pages) => HandedOut(s, addr, pages)
    case Purge(id) => id in s.blocks && s.blocks[id].free + s.blocks[id].dirty == s.bits && s.blocks[id].dirty != s.bits
    case Release(id) => id in s.pending
  }

  function AllocStep(s: Blocks, id: nat, pages: nat): Blocks
    requires id in s.blocks
  {
    var b := Take(s.bits, s.blocks[id], pages);
    s.(blocks := s.blocks[id := b], queues := if b.free == 0 then Dequeue(s.queues, id) else s.queues)
  }

  function NewBlockStep(s: Blocks, start: int, pages: nat, cpu: nat): Blocks
    requires s.bits > 0 && cpu < |s.queues|
  {
    s.(blocks := s.blocks[s.nextId := Block(start, s.bits - pages, 0, [Sub(0, pages)])],
       tree := s.tree[Idx(s, start) := s.nextId],
       queues := s.queues[cpu := s.queues[cpu] + [s.nextId]],
       nextId := s.nextId + 1)
  }

  function FreeStep(s: Blocks, id: nat, k: nat): Blocks
    requires id in s.blocks && k < |s.blocks[id].live|
  {
    var b := Give(s.blocks[id], k);
    s.(blocks := s.blocks[id := b], pending := if b.dirty == s.bits then s.pending + multiset{id} else s.pending)
  }

  function PurgeStep(s: Blocks, id: nat): Blocks
    requires id in s.blocks
  {
    s.(blocks := s.blocks[id := s.blocks[id].(free := 0, dirty := s.bits)], queues := Dequeue(s.queues, id),
       pending := s.pending + multiset{id})
  }

  /** free_vmap_block; for a block already released only the log would show the second time. */
  function ReleaseStep(s: Blocks, id: nat): Blocks
    requires s.bits > 0
  {
    var s1 := s.(pending := s.pending - multiset{id}, released := s.released + [id]);
    if id in s.blocks then s1.(blocks := s.blocks - {id}, tree := s.tree - {Idx(s, s.blocks[id].start)}) else s1
  }

  /** vb_free finds the block through the tree and the sub-allocation through the page offset. */
  ghost function Apply(s: Blocks, st: Step): Blocks
    requires s.bits > 0 && Enabled(s, st)
  {
    match st
    case Alloc(id, pages) => AllocStep(s, id, pages)
    case NewBlock(start, pages, cpu) => NewBlockStep(s, start, pages, cpu)
    case Free(addr, pages) =>
      var x, off := Idx(s, addr), PageOffset(s.bits, addr);
      if x in s.tree && s.tree[x] in s.blocks && HasSub(s.blocks[s.tree[x]].live, off) then
        FreeStep(s, s.tree[x], SubAt(s.blocks[s.tree[x]].live, off))
      else s
    case Purge(id) => PurgeStep(s, id)
    case Release(id) => ReleaseStep(s, id)
  }

  function PageOffset(bits: nat, addr: int): int
    requires bits > 0
  {
    (addr % BlockSize(bits)) / PAGE_SIZE
  }

  predicate HasSub(live: seq<Sub>, off: int) {
    exists i :: 0 <= i < |live| && live[i].off == off
  }

  /** The sub-allocation at a page offset. */
  function SubAt(live: seq<Sub>, off: int): (k: nat)
    requires HasSub(live, off)
    ensures k < |live| && live[k].off == off
  {
    if live[|live| - 1].off == off then |live| - 1 else SubAt(live[..|live| - 1], off)
  }

  // ---------- the invariant ----------

  ghost predicate Counted(s: Blocks) {
    ValidBits(s.bits) && forall id :: id in s.blocks ==> BlockOk(s.bits, s.blocks[id]) && id < s.nextId
  }

  /** The tree holds exactly the blocks not released, each under its own index. */
  ghost predicate Indexed(s: Blocks)
    requires s.bits > 0
  {
    && (forall id :: id in s.blocks ==> Idx(s, s.blocks[id].start) in s.tree && s.tree[Idx(s, s.blocks[id].start)] == id)
    && (forall x :: x in s.tree ==> s.tree[x] in s.blocks && Idx(s, s.blocks[s.tree[x]].start) == x)
  }

  /** Listed exactly while it has free pages; one release pending exactly when all its pages are dirty. */
  ghost predicate Listed(s: Blocks) {
    && (forall id :: Queued(s.queues, id) <==> id in s.blocks && s.blocks[id].free > 0)
    && (forall id :: s.pending[id] == if id in s.blocks && s.blocks[id].dirty == s.bits then 1 else 0)
  }

  ghost predicate Gone(s: Blocks) {
    && (forall i :: 0 <= i < |s.released| ==> s.released[i] !in s.blocks && s.released[i] < s.nextId)
    && (forall i, j :: 0 <= i < j < |s.released| ==> s.released[i] != s.released[j])
  }

  ghost predicate Inv(s: Blocks) {
    Counted(s) && Indexed(s) && Listed(s) && Gone(s)
  }

  lemma BlocksAreOk(s: Blocks, id: nat)
    requires Counted(s) && id in s.blocks
    ensures BlockOk(s.bits, s.blocks[id]) && s.blocks[id].free <= s.bits
  {
  }

  lemma SubInBlock(s: Blocks, id: nat, k: nat)
    requires Counted(s) && id in s.blocks && k < |s.blocks[id].live|
    ensures var sub := s.blocks[id].live[k];
            0 <= sub.off * PAGE_SIZE && (sub.off + sub.pages) * PAGE_SIZE <= BlockSize(s.bits) && sub.off < s.bits && sub.pages > 0
  {
    assert BlockOk(s.bits, s.blocks[id]);
  }

  /** vb_free of an address handed out finds the block it came from and the page it starts at. */
  lemma LookupFindsOwner(s: Blocks, addr: int, pages: nat)
    requires Inv(s) && HandedOut(s, addr, pages)
    ensures Idx(s, addr) in s.tree && s.tree[Idx(s, addr)] in s.blocks
    ensures var b := s.blocks[s.tree[Idx(s, addr)]];
            var off := PageOffset(s.bits, addr);
            addr == b.start + off * PAGE_SIZE && HasSub(b.live, off) && Sub(off, pages) in b.live
  {
    hide BlockOk, Idx, Listed, Gone, Aligned, AlignDown;
    var id: nat, k: nat :| IsLive(s, id, k, addr, pages);
    LookupOf(s, id, k);
    var b := s.blocks[id];
    assert b.live[k] == Sub(PageOffset(s.bits, addr), pages);
  }

  lemma LookupOf(s: Blocks, id: nat, k: nat)
    requires Counted(s) && Indexed(s) && id in s.blocks && k < |s.blocks[id].live|
    ensures var addr := s.blocks[id].start + s.blocks[id].live[k].off * PAGE_SIZE;
            Idx(s, addr) in s.tree && s.tree[Idx(s, addr)] == id && PageOffset(s.bits, addr) == s.blocks[id].live[k].off
  {
    hide Packed, SumPages, Idx;
    var b := s.blocks[id];
    assert BlockOk(s.bits, b);
    SubInBlock(s, id, k);
    IdxOfBlock(s, b.start, b.live[k].off * PAGE_SIZE);
    Remainder(b.live[k].off * PAGE_SIZE, b.live[k].off, 0, PAGE_SIZE);
  }

  lemma AllocKeepsInv(s: Blocks, id: nat, pages: nat)
    requires Inv(s) && Enabled(s, Alloc(id, pages))
    ensures Inv(Apply(s, Alloc(id, pages)))
  {
    hide Packed, SumPages, Idx, Queued, Aligned;
    TakeKeepsOk(s.bits, s.blocks[id], pages);
    DequeueMembers(s.queues, id);
    SameIdx(s, Apply(s, Alloc(id, pages)));
  }

  lemma IdxTellsBlocksApart(s: Blocks, x: int, y: int)
    requires s.bits > 0 && Aligned(x, BlockSize(s.bits)) && Aligned(y, BlockSize(s.bits))
    ensures Idx(s, x) == Idx(s, y) <==> x == y
  {
    IdxOfBlock(s, x, 0);
    IdxOfBlock(s, y, 0);
  }

  lemma NewBlockKeepsInv(s: Blocks, start: int, pages: nat, cpu: nat)
    requires Inv(s) && Enabled(s, NewBlock(start, pages, cpu))
    ensures Idx(s, start) !in s.tree
    ensures Inv(Apply(s, NewBlock(start, pages, cpu)))
  {
    hide Packed, Idx, Queued, Aligned, Listed, BlockSize;
    forall id | id in s.blocks ensures Idx(s, s.blocks[id].start) != Idx(s, start) {
      BlocksAreOk(s, id);
      IdxTellsBlocksApart(s, s.blocks[id].start, start);
    }
    FirstBlock(s.bits, start, pages);
    var s' := NewBlockStep(s, start, pages, cpu);
    SameIdx(s, s');
    assert Counted(s');
    assert Indexed(s');
    NewBlockIsListed(s, start, pages, cpu);
    assert Gone(s');
  }

  lemma NewBlockIsListed(s: Blocks, start: int, pages: nat, cpu: nat)
    requires Counted(s) && Listed(s) && cpu < |s.queues| && 0 < pages <= MAX_ALLOC
    ensures Listed(NewBlockStep(s, start, pages, cpu))
  {
    hide Queued, Idx, BlockOk;
    var s' := NewBlockStep(s, start, pages, cpu);
    EnqueueMembers(s.queues, cpu, s.nextId);
    assert s.nextId !in s.blocks && s'.blocks[s.nextId].free > 0;
    forall id ensures Queued(s'.queues, id) <==> id in s'.blocks && s'.blocks[id].free > 0 {
      assert Queued(s'.queues, id) <==> Queued(s.queues, id) || id == s.nextId;
    }
  }

  lemma FirstBlock(bits: nat, start: int, pages: nat)
    requires ValidBits(bits) && 0 < pages <= MAX_ALLOC && Aligned(start, BlockSize(bits))
    ensures BlockOk(bits, Block(start, bits - pages, 0, [Sub(0, pages)])) && bits - pages > 0
  {
    var live := [Sub(0, pages)];
    assert live[..|live| - 1] == [];
  }

  /** The index reads nothing that a step changes. */
  lemma SameIdx(s: Blocks, s': Blocks)
    requires s.bits > 0 && s'.bits == s.bits && s'.vmallocStart == s.vmallocStart
    ensures forall addr :: Idx(s', addr) == Idx(s, addr)
  {
  }

  /** vb_free, and its BUG_ON: a block whose last page becomes dirty has none free and none in use. */
  lemma FreeKeepsInv(s: Blocks, addr: int, pages: nat)
    requires Inv(s) && Enabled(s, Free(addr, pages))
    ensures Inv(Apply(s, Free(addr, pages)))
    ensures Idx(s, addr) in s.tree && s.tree[Idx(s, addr)] in s.blocks
    ensures var id := s.tree[Idx(s, addr)];
            var b := Apply(s, Free(addr, pages)).blocks[id];
            b.dirty == s.bits ==> b.free == 0 && b.live == []
  {
    hide Idx, HandedOut, FreeStep, BlockOk, Indexed, Listed, Gone;
    LookupFindsOwner(s, addr, pages);
    var id := s.tree[Idx(s, addr)];
    FreeStepKeepsInv(s, id, SubAt(s.blocks[id].live, PageOffset(s.bits, addr)));
  }

  lemma FreeStepKeepsInv(s: Blocks, id: nat, k: nat)
    requires Inv(s) && id in s.blocks && k < |s.blocks[id].live|
    ensures Inv(FreeStep(s, id, k))
    ensures var b := FreeStep(s, id, k).blocks[id]; b.dirty == s.bits ==> b.free == 0 && b.live == []
  {
    hide BlockOk, Idx, Queued, Give, Without;
    BlocksAreOk(s, id);
    GiveKeepsOk(s.bits, s.blocks[id], k);
    AllDirtyIsEmpty(s.bits, Give(s.blocks[id], k));
    AllDirtyIsEmpty(s.bits, s.blocks[id]);
    SameIdx(s, FreeStep(s, id, k));
  }

  /** A block with a sub-allocation in use is not all dirty. */
  lemma AllDirtyIsEmpty(bits: nat, b: Block)
    requires bits > 0 && BlockOk(bits, b)
    ensures b.dirty == bits ==> b.free == 0 && b.live == []
    ensures b.free + b.dirty == bits ==> b.live == []
  {
    NoPagesNoSubs(bits, b);
  }

  /** A block without a page in use stays sound when purge_fragmented_blocks marks it all dirty. */
  lemma PurgedIsOk(bits: nat, b: Block)
    requires bits > 0 && BlockOk(bits, b) && b.free + b.dirty == bits
    ensures b.live == [] && BlockOk(bits, b.(free := 0, dirty := bits))
  {
    AllDirtyIsEmpty(bits, b);
  }

  /** A block purged has no page in use. */
  lemma PurgeKeepsInv(s: Blocks, id: nat)
    requires Inv(s) && Enabled(s, Purge(id))
    ensures Inv(Apply(s, Purge(id))) && s.blocks[id].live == []
  {
    hide Packed, SumPages, Idx, Queued, Aligned, BlockOk;
    BlocksAreOk(s, id);
    PurgedIsOk(s.bits, s.blocks[id]);
    DequeueMembers(s.queues, id);
    SameIdx(s, Apply(s, Purge(id)));
  }

  lemma ReleaseKeepsIndexed(s: Blocks, id: nat)
    requires s.bits > 0 && Indexed(s) && id in s.blocks
    ensures Indexed(ReleaseStep(s, id))
  {
    hide Idx;
    SameIdx(s, ReleaseStep(s, id));
  }

  lemma ReleaseKeepsListed(s: Blocks, id: nat)
    requires s.bits > 0 && Listed(s) && id in s.blocks && s.blocks[id].dirty == s.bits && s.blocks[id].free == 0
    ensures Listed(ReleaseStep(s, id))
  {
    hide Idx, Queued;
    assert !Queued(s.queues, id);
  }

  lemma ReleaseKeepsGone(s: Blocks, id: nat)
    requires s.bits > 0 && Gone(s) && id in s.blocks && id < s.nextId
    ensures Gone(ReleaseStep(s, id)) && id !in s.released
  {
    hide Idx;
  }

  /** A release, and its BUG_ON: the tree holds this very block; none of its pages is in use. */
  lemma ReleaseKeepsInv(s: Blocks, id: nat)
    requires Inv(s) && Enabled(s, Release(id))
    ensures Inv(Apply(s, Release(id)))
    ensures id in s.blocks && s.blocks[id].live == [] && id !in s.released
    ensures Idx(s, s.blocks[id].start) in s.tree && s.tree[Idx(s, s.blocks[id].start)] == id
  {
    hide Packed, SumPages, Idx, Aligned, BlockOk, Gone;
    assert id in s.blocks && s.blocks[id].dirty == s.bits by {
      hide Queued, Indexed;
      assert s.pending[id] > 0;
    }
    hide Listed;
    BlocksAreOk(s, id);
    AllDirtyIsEmpty(s.bits, s.blocks[id]);
    ReleaseKeepsIndexed(s, id);
    ReleaseKeepsListed(s, id);
    ReleaseKeepsGone(s, id);
  }

  lemma StepKeepsInv(s: Blocks, st: Step)
    requires Inv(s) && Enabled(s, st)
    ensures Inv(Apply(s, st))
  {
    hide Inv, Enabled, Apply;
    match st
    case Alloc(id, pages) => AllocKeepsInv(s, id, pages);
    case NewBlock(start, pages, cpu) => NewBlockKeepsInv(s, start, pages, cpu);
    case Free(addr, pages) => FreeKeepsInv(s, addr, pages);
    case Purge(id) => PurgeKeepsInv(s, id);
    case Release(id) => ReleaseKeepsInv(s, id);
  }

  // ---------- runs ----------

  ghost predicate Init(s: Blocks) {
    && ValidBits(s.bits) && s.blocks == map[] && s.tree == map[] && s.pending == multiset{} && s.released == [] && s.nextId == 0
    && (forall id :: !Queued(s.queues, id))
  }

  ghost predicate Follows(s: Blocks, s': Blocks) {
    s.bits > 0 && exists st :: Enabled(s, st) && s' == Apply(s, st)
  }

  ghost predicate IsRun(run: seq<Blocks>) {
    && run != [] && Init(run[0])
    && forall i :: 0 <= i < |run| - 1 ==> Follows(run[i], run[i + 1])
  }

  lemma {:induction false} RunsKeepInv(run: seq<Blocks>, n: nat)
    requires IsRun(run) && n < |run|
    ensures Inv(run[n])
  {
    hide Inv, Enabled, Apply, Init;
    if n == 0 {
      InitIsInv(run[0]);
    } else {
      RunsKeepInv(run, n - 1);
      assert Follows(run[n - 1], run[n - 1 + 1]);
      var st :| Enabled(run[n - 1], st) && run[n] == Apply(run[n - 1], st);
      StepKeepsInv(run[n - 1], st);
    }
  }

  lemma InitIsInv(s: Blocks)
    requires Init(s)
    ensures Inv(s)
  {
    hide Queued;
  }

  /** In every run each block's pages are free, dirty or in use, and it is listed iff it has free pages. */
  lemma PagesAreConserved(run: seq<Blocks>, n: nat, id: nat)
    requires IsRun(run) && n < |run| && id in run[n].blocks
    ensures var b := run[n].blocks[id];
            b.free + b.dirty + SumPages(b.live) == run[n].bits && (Queued(run[n].queues, id) <==> b.free > 0)
  {
    hide IsRun, Packed, Indexed, Gone, Queued, SumPages;
    RunsKeepInv(run, n);
    BlocksAreOk(run[n], id);
  }

  /** In every run the addresses of two sub-allocations in use, of one block or of two, never meet. */
  lemma LiveAddressesDisjoint(run: seq<Blocks>, n: nat, id: nat, k: nat, id': nat, k': nat)
    requires IsRun(run) && n < |run|
    requires id in run[n].blocks && k < |run[n].blocks[id].live| && id' in run[n].blocks && k' < |run[n].blocks[id'].live|
    requires id != id' || k != k'
    ensures var b, b' := run[n].blocks[id], run[n].blocks[id'];
            var lo, lo' := b.start + b.live[k].off * PAGE_SIZE, b'.start + b'.live[k'].off * PAGE_SIZE;
            lo + b.live[k].pages * PAGE_SIZE <= lo' || lo' + b'.live[k'].pages * PAGE_SIZE <= lo
  {
    hide IsRun, SumPages, Idx, Listed, Gone;
    RunsKeepInv(run, n);
    var s := run[n];
    var b, b' := s.blocks[id], s.blocks[id'];
    BlocksAreOk(s, id);
    BlocksAreOk(s, id');
    SubInBlock(s, id, k);
    SubInBlock(s, id', k');
    if id != id' {
      IdxTellsBlocksApart(s, b.start, b'.start);
      if b.start < b'.start {
        AlignedGap(b.start, b'.start, BlockSize(s.bits));
      } else {
        AlignedGap(b'.start, b.start, BlockSize(s.bits));
      }
    }
  }

  lemma {:induction false} DistinctCount(s: seq<nat>, x: nat)
    requires forall i, j :: 0 <= i < j < |s| ==> s[i] != s[j]
    ensures multiset(s)[x] == if x in s then 1 else 0
    decreases |s|
  {
    if s != [] {
      var n := |s| - 1;
      DistinctCount(s[..n], x);
      assert s == s[..n] + [s[n]];
    }
  }

  ghost predicate NoneLost(s: Blocks) {
    forall id: nat :: id < s.nextId ==> (id in s.blocks <==> id !in s.released)
  }

  lemma StepLosesNone(s: Blocks, st: Step)
    requires Inv(s) && Enabled(s, st) && NoneLost(s)
    ensures NoneLost(Apply(s, st))
  {
    hide Indexed, Listed, BlockOk, Idx, HandedOut, PageOffset, Dequeue;
    if st.Release? { ReleaseKeepsInv(s, st.id); }
    StepKeepsInv(s, st);
  }

  /** In every run each block ever made is either still there or has been released, and no block twice. */
  lemma {:induction false} EveryBlockAccounted(run: seq<Blocks>, n: nat)
    requires IsRun(run) && n < |run|
    ensures NoneLost(run[n])
    ensures forall i, j :: 0 <= i < j < |run[n].released| ==> run[n].released[i] != run[n].released[j]
  {
    hide Enabled, Apply, Counted, Indexed, Listed, NoneLost;
    RunsKeepInv(run, n);
    if n == 0 {
      NothingLostYet(run[0]);
    } else {
      EveryBlockAccounted(run, n - 1);
      RunsKeepInv(run, n - 1);
      assert Follows(run[n - 1], run[n - 1 + 1]);
      var st :| Enabled(run[n - 1], st) && run[n] == Apply(run[n - 1], st);
      StepLosesNone(run[n - 1], st);
    }
  }

  lemma NothingLostYet(s: Blocks)
    requires Init(s)
    ensures NoneLost(s)
  {
  }

  /** In every run the decisions to release a block and the releases made of it come to one at most; a
      block with a release pending is held by the tree under its own index, with no page in use. */
  lemma ReleasedOnce(run: seq<Blocks>, n: nat, id: nat)
    requires IsRun(run) && n < |run|
    ensures run[n].pending[id] + multiset(run[n].released)[id] <= 1
    ensures id in run[n].pending ==>
              && id in run[n].blocks && run[n].blocks[id].live == [] && run[n].bits > 0
              && Idx(run[n], run[n].blocks[id].start) in run[n].tree
              && run[n].tree[Idx(run[n], run[n].blocks[id].start)] == id
  {
    hide IsRun, BlockOk, Queued, Idx;
    RunsKeepInv(run, n);
    DistinctCount(run[n].released, id);
    if id in run[n].pending {
      ReleaseKeepsInv(run[n], id);
    }
  }

  // ---------- what was handed out stays used up ----------

  /** What time may do to a block: no page becomes free again, and a sub-allocation not there before lies
      in the part that had never been handed out. */
  ghost predicate Ages(bits: nat, b: Block, b': Block) {
    && b'.start == b.start && b'.free <= b.free && b.dirty <= b'.dirty
    && forall a :: a in b'.live ==> a in b.live || bits - b.free <= a.off
  }

  lemma TakeAges(bits: nat, b: Block, n: nat)
    ensures Ages(bits, b, Take(bits, b, n))
  {
  }

  lemma GiveAges(bits: nat, b: Block, k: nat)
    requires k < |b.live|
    ensures Ages(bits, b, Give(b, k))
  {
  }

  lemma AgesOn(bits: nat, b: Block, b': Block, b'': Block)
    requires Ages(bits, b, b') && Ages(bits, b', b'')
    ensures Ages(bits, b, b'')
  {
  }

  lemma FreeTouches(s: Blocks, addr: int, pages: nat) returns (id: nat, k: nat)
    requires Inv(s) && Enabled(s, Free(addr, pages))
    ensures id in s.blocks && k < |s.blocks[id].live| && Apply(s, Free(addr, pages)) == FreeStep(s, id, k)
    ensures s.blocks[id].live[k] == Sub(PageOffset(s.bits, addr), pages)
    ensures addr == s.blocks[id].start + s.blocks[id].live[k].off * PAGE_SIZE
  {
    hide Inv, Idx, HandedOut, PageOffset;
    InvParts(s);
    LookupFindsOwner(s, addr, pages);
    id := s.tree[Idx(s, addr)];
    k := SubAt(s.blocks[id].live, PageOffset(s.bits, addr));
    var j :| 0 <= j < |s.blocks[id].live| && s.blocks[id].live[j] == Sub(PageOffset(s.bits, addr), pages);
    OffsetsDiffer(s.bits, s.blocks[id], j, k);
  }

  lemma InvParts(s: Blocks)
    requires Inv(s)
    ensures s.bits > 0 && Counted(s) && Indexed(s)
    ensures forall id :: id in s.blocks ==> BlockOk(s.bits, s.blocks[id]) && Packed(s.bits, s.blocks[id]) && id < s.nextId
  {
  }

  lemma OffsetsDiffer(bits: nat, b: Block, i: nat, j: nat)
    requires Packed(bits, b) && i < |b.live| && j < |b.live| && b.live[i].off == b.live[j].off
    ensures i == j
  {
  }

  /** No step undoes a block's use, and a block that appears has a new id. */
  lemma StepAges(s: Blocks, st: Step, id: nat)
    requires Inv(s) && Enabled(s, st) && id in Apply(s, st).blocks
    ensures Apply(s, st).bits == s.bits && s.nextId <= Apply(s, st).nextId
    ensures if id in s.blocks then Ages(s.bits, s.blocks[id], Apply(s, st).blocks[id]) else id == s.nextId < Apply(s, st).nextId
  {
    hide Inv, Idx, HandedOut, Packed, BlockOk, Take, Give;
    InvParts(s);
    match st
    case Alloc(x, pages) => TakeAges(s.bits, s.blocks[x], pages);
    case Free(addr, pages) =>
      var x, k := FreeTouches(s, addr, pages);
      GiveAges(s.bits, s.blocks[x], k);
    case Purge(x) => BlocksAreOk(s, x); DirtyIsBounded(s.bits, s.blocks[x]);
    case _ =>
  }

  lemma DirtyIsBounded(bits: nat, b: Block)
    requires bits > 0 && BlockOk(bits, b)
    ensures b.dirty <= bits && 0 <= b.free
  {
  }

  lemma {:induction false} BlocksAge(run: seq<Blocks>, m: nat, n: nat, id: nat)
    requires IsRun(run) && m <= n < |run| && id in run[m].blocks
    ensures run[n].bits == run[m].bits && id < run[m].nextId <= run[n].nextId
    ensures id in run[n].blocks ==> Ages(run[m].bits, run[m].blocks[id], run[n].blocks[id])
    decreases n
  {
    hide Inv, Enabled, Apply, Init, Ages;
    RunsKeepInv(run, m);
    InvParts(run[m]);
    if m == n {
      AgesNot(run[m].bits, run[m].blocks[id]);
    } else {
      BlocksAge(run, m, n - 1, id);
      RunsKeepInv(run, n - 1);
      assert Follows(run[n - 1], run[n - 1 + 1]);
      var st :| Enabled(run[n - 1], st) && run[n] == Apply(run[n - 1], st);
      StepKeepsBits(run[n - 1], st);
      if id in run[n].blocks {
        StepAges(run[n - 1], st, id);
        AgesOn(run[m].bits, run[m].blocks[id], run[n - 1].blocks[id], run[n].blocks[id]);
      }
    }
  }

  lemma AgesNot(bits: nat, b: Block)
    ensures Ages(bits, b, b)
  {
  }

  lemma StepKeepsBits(s: Blocks, st: Step)
    requires s.bits > 0 && Enabled(s, st)
    ensures Apply(s, st).bits == s.bits && s.nextId <= Apply(s, st).nextId
  {
    hide Idx, HandedOut;
  }

  /** In every run a block's free pages never become more while it lasts, and of two sub-allocations it has
      had at any two times, freed ones included, either both are one that stayed in use all the while, or
      they share no page: no page of a block is handed out twice. */
  lemma NoPageHandedOutTwice(run: seq<Blocks>, m: nat, k: nat, n: nat, id: nat, a: Sub, b: Sub)
    requires IsRun(run) && m <= k <= n < |run| && id in run[m].blocks && id in run[n].blocks
    requires a in run[m].blocks[id].live && b in run[n].blocks[id].live
    ensures run[n].blocks[id].start == run[m].blocks[id].start && run[n].blocks[id].free <= run[m].blocks[id].free
    ensures a.off + a.pages <= b.off || b.off + b.pages <= a.off || (a == b && id in run[k].blocks && a in run[k].blocks[id].live)
  {
    hide IsRun, Inv;
    BlocksAge(run, m, n, id);
    RunsKeepInv(run, m);
    InvParts(run[m]);
    BlocksAge(run, m, k, id);
    StaysInBetween(run, k, n, id);
    BlocksAge(run, k, n, id);
  }

  /** A block that is there later and had its id given before is there now. */
  lemma {:induction false} StaysInBetween(run: seq<Blocks>, k: nat, n: nat, id: nat)
    requires IsRun(run) && k <= n < |run| && id in run[n].blocks && id < run[k].nextId
    ensures id in run[k].blocks && run[k].nextId <= run[n].nextId
    decreases n
  {
    hide Inv, Enabled, Apply, Init, Ages;
    if k < n {
      RunsKeepInv(run, n - 1);
      assert Follows(run[n - 1], run[n - 1 + 1]);
      var st :| Enabled(run[n - 1], st) && run[n] == Apply(run[n - 1], st);
      StepAges(run[n - 1], st, id);
      IdsGrow(run, k, n - 1);
      StaysInBetween(run, k, n - 1, id);
    }
  }

  lemma {:induction false} IdsGrow(run: seq<Blocks>, k: nat, n: nat)
    requires IsRun(run) && k <= n < |run|
    ensures run[k].nextId <= run[n].nextId
    decreases n
  {
    hide Enabled, Apply, Init;
    if k < n {
      IdsGrow(run, k, n - 1);
      assert Follows(run[n - 1], run[n - 1 + 1]);
      var st :| Enabled(run[n - 1], st) && run[n] == Apply(run[n - 1], st);
      StepKeepsBits(run[n - 1], st);
    }
  }

  // ---------- which ranges are handed out ----------

  /** One sub-allocation moves between the ranges handed out of two states. */
  ghost predicate Adds(s: Blocks, s': Blocks, addr: int, pages: nat) {
    forall x, p: nat :: HandedOut(s', x, p) <==> HandedOut(s, x, p) || (x == addr && p == pages)
  }

  lemma LiveBefore(s: Blocks, id: nat, k: nat, i: nat, j: nat, x: int, p: nat) returns (j': nat)
    requires Inv(s) && id in s.blocks && k < |s.blocks[id].live| && IsLive(FreeStep(s, id, k), i, j, x, p)
    ensures IsLive(s, i, j', x, p) && x != s.blocks[id].start + s.blocks[id].live[k].off * PAGE_SIZE
  {
    hide Inv;
    j' := if i == id && j >= k then j + 1 else j;
    assert IsLive(s, i, j', x, p);
    if x == s.blocks[id].start + s.blocks[id].live[k].off * PAGE_SIZE {
      OneAtAddress(s, id, k, i, j');
    }
  }

  lemma LiveAfter(s: Blocks, id: nat, k: nat, i: nat, j: nat, x: int, p: nat)
    requires id in s.blocks && k < |s.blocks[id].live| && IsLive(s, i, j, x, p)
    requires x != s.blocks[id].start + s.blocks[id].live[k].off * PAGE_SIZE
    ensures HandedOut(FreeStep(s, id, k), x, p)
  {
    assert IsLive(FreeStep(s, id, k), i, if i == id && j > k then j - 1 else j, x, p);
  }

  /** vb_free takes back the range at its address, and none other. */
  lemma FreeTakesBack(s: Blocks, addr: int, pages: nat, x: int, p: nat)
    requires Inv(s) && Enabled(s, Free(addr, pages))
    ensures HandedOut(Apply(s, Free(addr, pages)), x, p) <==> HandedOut(s, x, p) && x != addr
  {
    hide Inv, Idx, PageOffset, Apply, Enabled, FreeStep, IsLive;
    InvParts(s);
    var id, k := FreeTouches(s, addr, pages);
    var s' := FreeStep(s, id, k);
    if HandedOut(s', x, p) {
      var i: nat, j: nat :| IsLive(s', i, j, x, p);
      var j' := LiveBefore(s, id, k, i, j, x, p);
    }
    if HandedOut(s, x, p) && x != addr {
      var i: nat, j: nat :| IsLive(s, i, j, x, p);
      LiveAfter(s, id, k, i, j, x, p);
    }
  }

  lemma OneAtAddress(s: Blocks, id: nat, k: nat, i: nat, j: nat)
    requires Inv(s) && id in s.blocks && k < |s.blocks[id].live| && i in s.blocks && j < |s.blocks[i].live|
    requires s.blocks[id].start + s.blocks[id].live[k].off * PAGE_SIZE == s.blocks[i].start + s.blocks[i].live[j].off * PAGE_SIZE
    ensures id == i && k == j
  {
    hide Inv, Idx, PageOffset;
    InvParts(s);
    LookupOf(s, id, k);
    LookupOf(s, i, j);
    OffsetsDiffer(s.bits, s.blocks[id], k, j);
  }

  /** vb_alloc on a block hands out the pages behind those used before, and no other range changes. */
  lemma AllocHandsOut(s: Blocks, id: nat, pages: nat)
    requires s.bits > 0 && Enabled(s, Alloc(id, pages))
    ensures Adds(s, Apply(s, Alloc(id, pages)), s.blocks[id].start + (s.bits - s.blocks[id].free) * PAGE_SIZE, pages)
  {
    var b, s' := s.blocks[id], Apply(s, Alloc(id, pages));
    var addr := b.start + (s.bits - b.free) * PAGE_SIZE;
    assert IsLive(s', id, |b.live|, addr, pages);
    forall x, p: nat ensures HandedOut(s', x, p) <==> HandedOut(s, x, p) || (x == addr && p == pages) {
      if HandedOut(s', x, p) {
        var i: nat, j: nat :| IsLive(s', i, j, x, p);
        assert (i == id && j == |b.live|) || IsLive(s, i, j, x, p);
      }
      if HandedOut(s, x, p) {
        var i: nat, j: nat :| IsLive(s, i, j, x, p);
        assert IsLive(s', i, j, x, p);
      }
    }
  }

  lemma NewBlockHandsOut(s: Blocks, start: int, pages: nat, cpu: nat)
    requires Inv(s) && Enabled(s, NewBlock(start, pages, cpu))
    ensures Adds(s, Apply(s, NewBlock(start, pages, cpu)), start, pages)
  {
    hide Inv, Idx;
    InvParts(s);
    var s' := Apply(s, NewBlock(start, pages, cpu));
    assert IsLive(s', s.nextId, 0, start, pages);
    forall x, p: nat ensures HandedOut(s', x, p) <==> HandedOut(s, x, p) || (x == start && p == pages) {
      if HandedOut(s', x, p) {
        var i: nat, j: nat :| IsLive(s', i, j, x, p);
        assert i == s.nextId || IsLive(s, i, j, x, p);
      }
      if HandedOut(s, x, p) {
        var i: nat, j: nat :| IsLive(s, i, j, x, p);
        assert IsLive(s', i, j, x, p);
      }
    }
  }

  /** A purge and a release take no range back. */
  lemma OthersHandOutNothing(s: Blocks, st: Step, x: int, p: nat)
    requires Inv(s) && Enabled(s, st) && (st.Purge? || st.Release?)
    ensures HandedOut(Apply(s, st), x, p) <==> HandedOut(s, x, p)
  {
    hide Inv, HandedOut, Idx, BlockOk, Dequeue;
    InvParts(s);
    if st.Release? {
      ReleaseKeepsInv(s, st.id);
      SameSubs(s, ReleaseStep(s, st.id), st.id, x, p);
    } else {
      PurgeKeepsInv(s, st.id);
      SameSubs(s, PurgeStep(s, st.id), st.id, x, p);
    }
  }

  lemma SameSubs(s: Blocks, s': Blocks, id: nat, x: int, p: nat)
    requires id in s.blocks ==> s.blocks[id].live == []
    requires s'.bits == s.bits && forall i :: i in s'.blocks ==> i in s.blocks && s'.blocks[i].live == s.blocks[i].live && s'.blocks[i].start == s.blocks[i].start
    requires forall i :: i in s.blocks && i != id ==> i in s'.blocks
    ensures HandedOut(s', x, p) <==> HandedOut(s, x, p)
  {
    if HandedOut(s', x, p) {
      var i: nat, j: nat :| IsLive(s', i, j, x, p);
      assert IsLive(s, i, j, x, p);
    }
    if HandedOut(s, x, p) {
      var i: nat, j: nat :| IsLive(s, i, j, x, p);
      assert IsLive(s', i, j, x, p);
    }
  }

  // ---------- the order of the queues ----------

  ghost predicate Ascending(q: seq<nat>, limit: nat) {
    && (forall i, j :: 0 <= i < j < |q| ==> q[i] < q[j])
    && (forall x :: x in q ==> x < limit)
  }

  ghost predicate QueuesOk(s: Blocks) {
    && (forall c :: 0 <= c < |s.queues| ==> Ascending(s.queues[c], s.nextId))
    && (forall c, d, x :: 0 <= c < |s.queues| && 0 <= d < |s.queues| && x in s.queues[c] && x in s.queues[d] ==> c == d)
  }

  lemma ConsAscending(x: nat, q: seq<nat>, limit: nat)
    requires Ascending(q, limit) && x < limit && forall y :: y in q ==> x < y
    ensures Ascending([x] + q, limit)
  {
    assert forall i :: 0 <= i < |q| ==> q[i] in q;
  }

  lemma AppendAscending(q: seq<nat>, limit: nat)
    requires Ascending(q, limit)
    ensures Ascending(q + [limit], limit + 1)
  {
    assert forall i :: 0 <= i < |q| ==> q[i] in q;
  }

  lemma AscendingTail(q: seq<nat>, limit: nat)
    requires Ascending(q, limit) && q != []
    ensures Ascending(q[1..], limit) && q[0] < limit && forall y: nat :: y in q[1..] ==> q[0] < y
  {
    assert q[0] in q;
    forall y: nat | y in q[1..] ensures q[0] < y < limit {
      var i :| 0 <= i < |q| - 1 && q[1..][i] == y;
      assert q[i + 1] == y && q[i + 1] in q;
    }
  }

  lemma {:induction false} RemoveKeepsAscending(q: seq<nat>, id: nat, limit: nat)
    requires Ascending(q, limit)
    ensures Ascending(RemoveId(q, id), limit)
    decreases |q|
  {
    if q != [] {
      hide Ascending;
      AscendingTail(q, limit);
      RemoveKeepsAscending(q[1..], id, limit);
      ConsAscending(q[0], RemoveId(q[1..], id), limit);
    }
  }

  lemma DequeueKeepsOrder(s: Blocks, s': Blocks, id: nat)
    requires QueuesOk(s) && s'.nextId == s.nextId && (s'.queues == s.queues || s'.queues == Dequeue(s.queues, id))
    ensures QueuesOk(s')
  {
    hide Ascending;
    forall c | 0 <= c < |s'.queues| ensures Ascending(s'.queues[c], s'.nextId) {
      RemoveKeepsAscending(s.queues[c], id, s.nextId);
    }
  }

  /** A new block joins the end of one CPU's queue and no other. */
  lemma NewBlockKeepsOrder(s: Blocks, start: int, pages: nat, cpu: nat)
    requires s.bits > 0 && QueuesOk(s) && Enabled(s, NewBlock(start, pages, cpu))
    ensures QueuesOk(Apply(s, NewBlock(start, pages, cpu)))
    ensures forall c :: 0 <= c < |s.queues| ==> (s.nextId in Apply(s, NewBlock(start, pages, cpu)).queues[c] <==> c == cpu)
  {
    hide Idx;
    var s' := Apply(s, NewBlock(start, pages, cpu));
    forall c | 0 <= c < |s'.queues| ensures Ascending(s'.queues[c], s'.nextId) {
      assert Ascending(s.queues[c], s.nextId);
      AppendAscending(s.queues[c], s.nextId);
    }
    assert forall c, x :: 0 <= c < |s'.queues| && x in s'.queues[c] ==> x in s.queues[c] || (c == cpu && x == s.nextId);
    assert forall c :: 0 <= c < |s.queues| ==> s.nextId !in s.queues[c] by {
      assert forall c :: 0 <= c < |s.queues| ==> Ascending(s.queues[c], s.nextId);
    }
  }

  lemma StepKeepsOrder(s: Blocks, st: Step)
    requires s.bits > 0 && QueuesOk(s) && Enabled(s, st)
    ensures QueuesOk(Apply(s, st))
  {
    hide Idx, QueuesOk, HandedOut, PageOffset, HasSub, Take, Give;
    match st
    case Alloc(id, _) => DequeueKeepsOrder(s, Apply(s, st), id);
    case NewBlock(start, pages, cpu) => NewBlockKeepsOrder(s, start, pages, cpu);
    case Free(_, _) => DequeueKeepsOrder(s, Apply(s, st), 0);
    case Purge(id) => DequeueKeepsOrder(s, Apply(s, st), id);
    case Release(_) => DequeueKeepsOrder(s, Apply(s, st), 0);
  }

  /** In every run each CPU's queue has its blocks oldest first, and no block is in two queues; so the first
      with room is the oldest with room. */
  lemma {:induction false} QueuesOldestFirst(run: seq<Blocks>, n: nat)
    requires IsRun(run) && n < |run|
    ensures QueuesOk(run[n])
  {
    hide Inv, Enabled, Apply;
    if n == 0 {
      NoQueues(run[0]);
    } else {
      QueuesOldestFirst(run, n - 1);
      RunsKeepInv(run, n - 1);
      assert Follows(run[n - 1], run[n - 1 + 1]);
      var st :| Enabled(run[n - 1], st) && run[n] == Apply(run[n - 1], st);
      StepKeepsOrder(run[n - 1], st);
    }
  }

  lemma NoQueues(s: Blocks)
    requires Init(s)
    ensures QueuesOk(s)
  {
    forall c | 0 <= c < |s.queues| ensures s.queues[c] == [] {
      if s.queues[c] != [] {
        assert s.queues[c][0] in s.queues[c];
        assert Queued(s.queues, s.queues[c][0]);
      }
    }
  }

  // ---------- the functions that update the globals ----------

  class BlockAllocator {
    const bits: nat
    const vmallocStart: int
    var blocks: map<nat, Block>
    var tree: map<int, nat>
    var queues: seq<seq<nat>>
    var nextId: nat
    ghost var pending: multiset<nat>
    ghost var released: seq<nat>

    ghost function View(): Blocks
      reads this
    {
      Blocks(bits, vmallocStart, blocks, tree, queues, pending, released, nextId)
    }

    constructor (bits: nat, vmallocStart: int, cpus: nat)
      requires ValidBits(bits)
      ensures Init(View()) && Inv(View()) && |queues| == cpus
    {
      this.bits, this.vmallocStart := bits, vmallocStart;
      blocks, tree, queues, nextId := map[], map[], seq(cpus, c => []), 0;
      pending, released := multiset{}, [];
    }

    /** vb_alloc's loop: the first block of this CPU's queue with room, else none has. */
    method AllocFromQueue(cpu: nat, pages: nat) returns (addr: Option<int>)
      requires Inv(View()) && cpu < |queues| && 0 < pages
      modifies this`blocks, this`queues
      ensures Inv(View())
      ensures addr.None? ==> View() == old(View()) && forall id :: id in queues[cpu] && id in blocks ==> blocks[id].free < pages
      ensures addr.Some? ==> HandedOutFrom(old(View()), View(), cpu, addr.value, pages)
    {
      hide Inv, Apply, Enabled;
      var queue, i := queues[cpu], 0;
      while i < |queue|
        invariant 0 <= i <= |queue| && View() == old(View())
        invariant forall j :: 0 <= j < i && queue[j] in blocks ==> blocks[queue[j]].free < pages
      {
        var id := queue[i];
        if id in blocks && blocks[id].free >= pages {
          AllocFacts(View(), cpu, i, id, pages);
          var pagesOff := bits - blocks[id].free;
          addr := Some(blocks[id].start + pagesOff * PAGE_SIZE);
          blocks := blocks[id := blocks[id].(free := blocks[id].free - pages, live := blocks[id].live + [Sub(pagesOff, pages)])];
          if blocks[id].free == 0 {
            queues := Dequeue(queues, id);
          }
          return;
        }
        i := i + 1;
      }
      addr := None;
    }

    /** new_vmap_block, given what alloc_vmap_area returned: its BUG_ONs cannot fire. */
    method NewVmapBlock(start: int, pages: nat, cpu: nat) returns (vaddr: int)
      requires Inv(View()) && Enabled(View(), NewBlock(start, pages, cpu))
      modifies this`blocks, this`tree, this`queues, this`nextId
      ensures Inv(View()) && View() == NewBlockStep(old(View()), start, pages, cpu)
      ensures vaddr == start && HandedOut(View(), vaddr, pages)
    {
      hide Indexed, Listed, Gone, BlockOk, Packed;
      NewBlockFacts(View(), start, pages, cpu);
      vaddr := start;
      assert pages < bits && Idx(View(), start) !in tree;
      blocks := blocks[nextId := Block(start, bits - pages, 0, [Sub(0, pages)])];
      tree := tree[AddrToVbIdx(bits, vmallocStart, start) := nextId];
      queues := queues[cpu := queues[cpu] + [nextId]];
      nextId := nextId + 1;
    }

    /** vb_alloc: from this CPU's queue, else from a new block at `area`, when there is one, queued on the
        CPU the thread has come to run on. */
    method VbAlloc(size: nat, cpu: nat, newCpu: nat, area: Option<int>) returns (addr: Option<int>)
      requires Inv(View()) && cpu < |queues| && size % PAGE_SIZE == 0 && size <= PAGE_SIZE * MAX_ALLOC
      requires area.Some? ==> AreaFor(View(), area.value, newCpu)
      modifies this
      ensures Inv(View())
      ensures addr.Some? ==> size > 0 && HandedOut(View(), addr.value, Pages(size))
      ensures addr.Some? ==> || HandedOutFrom(old(View()), View(), cpu, addr.value, Pages(size))
                             || (addr == area && View() == NewBlockStep(old(View()), addr.value, Pages(size), newCpu)
                                 && forall id :: id in old(queues[cpu]) && id in old(blocks) ==> old(blocks[id]).free < Pages(size))
      ensures addr.None? ==> View() == old(View()) && (size == 0 || area.None?)
    {
      hide Inv, NewBlockStep, HandedOut, AreaFor;
      if size == 0 {
        return None;
      }
      addr := AllocFromQueue(cpu, Pages(size));
      if addr.None? && area.Some? {
        var vaddr := NewVmapBlock(area.value, Pages(size), newCpu);
        addr := Some(vaddr);
      }
    }

    /** free_vmap_block: the tree gives back this block, and none of its pages is in use. */
    method FreeVmapBlock(id: nat)
      requires Inv(View()) && id in pending
      modifies this`blocks, this`tree, this`pending, this`released
      ensures Inv(View()) && id in old(blocks) && old(blocks[id]).live == []
      ensures View() == ReleaseStep(old(View()), id)
    {
      hide Indexed, Gone, BlockOk, Packed;
      ReleaseFacts(View(), id);
      var vbIdx := AddrToVbIdx(bits, vmallocStart, blocks[id].start);
      assert tree[vbIdx] == id;
      tree := tree - {vbIdx};
      blocks := blocks - {id};
      pending, released := pending - multiset{id}, released + [id];
    }

    /** vb_free: the pages turn dirty in their own block, which is released when that was its last. */
    method VbFree(addr: int, size: nat)
      requires Inv(View()) && 0 < size <= PAGE_SIZE * MAX_ALLOC && HandedOut(View(), addr, Pages(size))
      modifies this
      ensures Inv(View())
      ensures var s1 := Apply(old(View()), Step.Free(addr, Pages(size)));
              var id := OwnerOf(old(View()), addr);
              View() == if id in s1.pending then ReleaseStep(s1, id) else s1
    {
      hide Indexed, Listed, Gone, BlockOk, Packed, HandedOut;
      FreeFacts(View(), addr, Pages(size));
      var id := tree[AddrToVbIdx(bits, vmallocStart, addr)];
      var k := SubAt(blocks[id].live, PageOffset(bits, addr));
      blocks := blocks[id := Give(blocks[id], k)];
      if blocks[id].dirty == bits {
        assert blocks[id].free == 0;
        pending := pending + multiset{id};
        FreeVmapBlock(id);
      }
    }

    /** purge_fragmented_blocks: of this CPU's listed blocks, exactly those without a page in use and not
        yet on their way out are released; all others stay as they were. */
    method PurgeFragmentedBlocks(cpu: nat)
      requires Inv(View()) && cpu < |queues|
      modifies this
      ensures Inv(View())
      ensures forall id :: id in blocks <==> id in old(blocks) && !(id in old(queues[cpu]) && Fragmented(bits, old(blocks[id])))
      ensures forall id :: id in blocks ==> blocks[id] == old(blocks[id])
    {
      hide Inv, ReleaseStep, Purging;
      var queue, purge, i := queues[cpu], [], 0;
      ghost var s0 := View();
      PurgeStarts(s0);
      while i < |queue|
        invariant 0 <= i <= |queue| && Inv(View()) && Purging(s0, View(), purge, 0)
        invariant forall id :: id in purge ==> id in queue
        invariant forall j :: 0 <= j < i && queue[j] in s0.blocks && Fragmented(bits, s0.blocks[queue[j]]) ==> queue[j] in purge
      {
        var id := queue[i];
        PurgeSkips(s0, View(), purge, id);
        if id in blocks && Fragmented(bits, blocks[id]) {
          PurgeFacts(s0, View(), purge, id);
          blocks := blocks[id := blocks[id].(free := 0, dirty := bits)];
          queues := Dequeue(queues, id);
          pending := pending + multiset{id};
          purge := purge + [id];
        }
        i := i + 1;
      }
      var j := 0;
      while j < |purge|
        invariant 0 <= j <= |purge| && Inv(View()) && Purging(s0, View(), purge, j)
      {
        PurgeReleases(s0, View(), purge, j);
        FreeVmapBlock(purge[j]);
        j := j + 1;
      }
      PurgeDone(s0, View(), purge);
    }
  }

  /** No page in use, some page free: free + dirty is the whole block, dirty is not. */
  predicate Fragmented(bits: nat, b: Block) {
    b.free + b.dirty == bits && b.dirty != bits
  }

  /** The first block of a CPU's queue that is still there and has room for so many pages. */
  ghost predicate FirstWithRoom(s: Blocks, cpu: nat, id: nat, pages: nat) {
    exists i :: InTurn(s, cpu, i, id, pages)
  }

  ghost predicate InTurn(s: Blocks, cpu: nat, i: nat, id: nat, pages: nat) {
    && cpu < |s.queues| && i < |s.queues[cpu]| && s.queues[cpu][i] == id
    && id in s.blocks && s.blocks[id].free >= pages
    && (forall j :: 0 <= j < i && s.queues[cpu][j] in s.blocks ==> s.blocks[s.queues[cpu][j]].free < pages)
  }

  /** The step that hands out these pages of the first block with room: they are now in use, at this
      address, the end of what that block had handed out before. */
  ghost predicate HandedOutFrom(s: Blocks, s': Blocks, cpu: nat, addr: int, pages: nat)
    requires Inv(s)
  {
    && HandedOut(s', addr, pages)
    && exists id: nat :: FirstWithRoom(s, cpu, id, pages) && Enabled(s, Alloc(id, pages)) && s' == Apply(s, Alloc(id, pages))
                         && addr == s.blocks[id].start + (s.bits - s.blocks[id].free) * PAGE_SIZE
  }

  lemma AllocFacts(s: Blocks, cpu: nat, i: nat, id: nat, pages: nat)
    requires Inv(s) && 0 < pages && InTurn(s, cpu, i, id, pages)
    ensures var s' := AllocStep(s, id, pages);
            Inv(s') && HandedOutFrom(s, s', cpu, s.blocks[id].start + (s.bits - s.blocks[id].free) * PAGE_SIZE, pages)
  {
    hide Indexed, Listed, Gone, BlockOk;
    AllocKeepsInv(s, id, pages);
    var s' := AllocStep(s, id, pages);
    assert s' == Apply(s, Alloc(id, pages));
    assert IsLive(s', id, |s'.blocks[id].live| - 1, s.blocks[id].start + (s.bits - s.blocks[id].free) * PAGE_SIZE, pages);
    assert FirstWithRoom(s, cpu, id, pages);
  }

  lemma NewBlockFacts(s: Blocks, start: int, pages: nat, cpu: nat)
    requires Inv(s) && Enabled(s, NewBlock(start, pages, cpu))
    ensures var s' := NewBlockStep(s, start, pages, cpu);
            Inv(s') && HandedOut(s', start, pages)
    ensures pages < s.bits && Idx(s, start) !in s.tree
  {
    NewBlockKeepsInv(s, start, pages, cpu);
    var s' := NewBlockStep(s, start, pages, cpu);
    assert s' == Apply(s, NewBlock(start, pages, cpu));
    assert IsLive(s', s.nextId, 0, start, pages);
  }

  lemma ReleaseFacts(s: Blocks, id: nat)
    requires Inv(s) && id in s.pending
    ensures id in s.blocks && s.blocks[id].live == [] && Inv(ReleaseStep(s, id))
    ensures Idx(s, s.blocks[id].start) in s.tree && s.tree[Idx(s, s.blocks[id].start)] == id
  {
    ReleaseKeepsInv(s, id);
    assert ReleaseStep(s, id) == Apply(s, Release(id));
  }

  function OwnerOf(s: Blocks, addr: int): nat
    requires s.bits > 0
  {
    if Idx(s, addr) in s.tree then s.tree[Idx(s, addr)] else 0
  }

  lemma FreeFacts(s: Blocks, addr: int, pages: nat)
    requires Inv(s) && HandedOut(s, addr, pages)
    ensures Idx(s, addr) in s.tree && OwnerOf(s, addr) in s.blocks && HasSub(s.blocks[OwnerOf(s, addr)].live, PageOffset(s.bits, addr))
    ensures var s' := FreeStep(s, OwnerOf(s, addr), SubAt(s.blocks[OwnerOf(s, addr)].live, PageOffset(s.bits, addr)));
            && s' == Apply(s, Step.Free(addr, pages)) && Inv(s')
            && (s'.blocks[OwnerOf(s, addr)].dirty == s.bits ==> s'.blocks[OwnerOf(s, addr)].free == 0)
    ensures OwnerOf(s, addr) !in s.pending
  {
    LookupFindsOwner(s, addr, pages);
    FreeKeepsInv(s, addr, pages);
  }

  /** A purge under way: the blocks of `purge` are marked, the first `j` of them released, and every
      other block is as it was. */
  ghost predicate Purging(s0: Blocks, s: Blocks, purge: seq<nat>, j: nat) {
    && j <= |purge| && s.bits == s0.bits && |s.queues| == |s0.queues|
    && (forall a, b :: 0 <= a < b < |purge| ==> purge[a] != purge[b])
    && (forall id :: id in purge ==> id in s0.blocks && Fragmented(s0.bits, s0.blocks[id]))
    && (forall id :: id in s.blocks <==> id in s0.blocks && id !in purge[..j])
    && (forall a :: j <= a < |purge| ==> purge[a] in s.pending)
    && (forall id :: id in s.blocks ==>
          s.blocks[id] == if id in purge then s0.blocks[id].(free := 0, dirty := s0.bits) else s0.blocks[id])
  }

  lemma PurgeFacts(s0: Blocks, s: Blocks, purge: seq<nat>, id: nat)
    requires Inv(s) && Purging(s0, s, purge, 0) && id in s.blocks && Fragmented(s.bits, s.blocks[id])
    ensures Inv(PurgeStep(s, id)) && Purging(s0, PurgeStep(s, id), purge + [id], 0)
  {
    hide Indexed, Listed, Gone, BlockOk;
    PurgeKeepsInv(s, id);
    assert PurgeStep(s, id) == Apply(s, Purge(id));
  }

  lemma PurgeSkips(s0: Blocks, s: Blocks, purge: seq<nat>, id: nat)
    requires Purging(s0, s, purge, 0)
    ensures id in s0.blocks && Fragmented(s0.bits, s0.blocks[id]) && id !in purge ==>
              id in s.blocks && Fragmented(s.bits, s.blocks[id])
  {
  }

  lemma PurgeReleases(s0: Blocks, s: Blocks, purge: seq<nat>, j: nat)
    requires Inv(s) && Purging(s0, s, purge, j) && j < |purge|
    ensures purge[j] in s.pending && purge[j] in s.blocks && Purging(s0, ReleaseStep(s, purge[j]), purge, j + 1)
  {
    hide Counted, Indexed, Gone;
    assert purge[..j + 1] == purge[..j] + [purge[j]];
  }

  lemma PurgeDone(s0: Blocks, s: Blocks, purge: seq<nat>)
    requires Purging(s0, s, purge, |purge|)
    ensures forall id :: id in s.blocks <==> id in s0.blocks && id !in purge
    ensures forall id :: id in s.blocks ==> s.blocks[id] == s0.blocks[id]
    ensures forall id :: id in purge ==> id in s0.blocks && Fragmented(s0.bits, s0.blocks[id])
  {
    assert purge[..|purge|] == purge;
  }

  lemma PurgeStarts(s: Blocks)
    ensures Purging(s, s, [], 0)
  {
  }
}
