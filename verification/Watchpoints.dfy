/** The watchpoint library's slots of one thread: which ranges are watched, and the per-slot counters
    of reservoir sampling. Device lookups, updates and registrations succeed or fail arbitrarily, and
    random draws are arbitrary. */
module Watchpoints {
  import opened Common

  const MAX_WP_SLOTS := 5
  const RESET := 1

  /** One element of watchPointArray; `inst` says that it was armed for WP_INST, `sampleAddr` is the
      data address of the sampled event. */
  datatype Slot = Slot(active: bool, handle: int, va: int, len: int, inst: bool, sampleAddr: int, postFull: nat)

  predicate ValidateWPData(va: int, len: int) {
    IsWatchLength(len) && va % len == 0
  }

  /** IsOveralpped: some active slot meets the range, as the macro sees it. */
  predicate IsOverlapped(slots: seq<Slot>, va: int, len: int) {
    exists i :: 0 <= i < |slots| && Clashes(slots[i], va, len)
  }

  predicate Clashes(s: Slot, va: int, len: int) {
    s.active && AddressesOverlap(s.va, s.len, va, len)
  }

  predicate Apart(a: int, aLen: int, b: int, bLen: int) {
    a + aLen <= b || b + bLen <= a
  }

  /** What is known of an active slot: a handle, and a range that a debug register can watch. */
  predicate Watching(s: Slot) {
    && s.handle != -1
    && IsWatchLength(s.len)
    && (!s.inst ==> s.va % s.len == 0)
    && 0 <= s.va && s.va + s.len <= ADDRESS_SPACE
  }

  ghost predicate Disjoint(slots: seq<Slot>) {
    forall i, j :: 0 <= i < j < |slots| && slots[i].active && slots[j].active ==>
      Apart(slots[i].va, slots[i].len, slots[j].va, slots[j].len)
  }

  /** The table: active slots watch disjoint ranges, and without modification support an inactive slot
      holds no device. */
  ghost predicate TableOk(fast: bool, slots: seq<Slot>) {
    && (forall i :: 0 <= i < |slots| ==> SlotOk(fast, slots[i]))
    && Disjoint(slots)
  }

  predicate SlotOk(fast: bool, s: Slot) {
    (s.active ==> Watching(s)) && (!fast && !s.active ==> s.handle == -1)
  }

  // ---------- the overlap test ----------

  /** The range ends at the very top of the address space, where its end wraps to 0. */
  predicate AtTop(va: int, len: int) {
    va + len == ADDRESS_SPACE
  }

  /** What the test fails to see: the range and an active slot meet, and one of the two ends at the top. */
  predicate Unseen(s: Slot, va: int, len: int) {
    s.active && ((AtTop(va, len) && s.va + s.len > va) || (AtTop(s.va, s.len) && va + len > s.va))
  }

  /** The test refuses exactly the ranges that meet an active slot and are not overlooked. */
  lemma OverlapTestIsExact(s: Slot, va: int, len: int)
    requires s.active ==> Watching(s)
    requires 0 <= va && 0 < len && va + len <= ADDRESS_SPACE
    ensures Clashes(s, va, len) <==> s.active && !Apart(s.va, s.len, va, len) && !Unseen(s, va, len)
    ensures Unseen(s, va, len) ==> !Apart(s.va, s.len, va, len)
  {
    if s.active {
      WrappedEnd(s.va + s.len);
      WrappedEnd(va + len);
    }
  }

  lemma WrappedEnd(x: int)
    requires 0 < x <= ADDRESS_SPACE
    ensures x % ADDRESS_SPACE == if x == ADDRESS_SPACE then 0 else x
  {
    if x == ADDRESS_SPACE {
      Remainder(x, 1, 0, ADDRESS_SPACE);
    } else {
      Unwrapped(x);
    }
  }

  /** Some active slot meets the range. */
  predicate MeetsActive(slots: seq<Slot>, va: int, len: int) {
    exists i :: 0 <= i < |slots| && MeetsSlot(slots[i], va, len)
  }

  predicate MeetsSlot(s: Slot, va: int, len: int) {
    s.active && !Apart(s.va, s.len, va, len)
  }

  ghost predicate SlotsBelowTop(slots: seq<Slot>) {
    forall i :: 0 <= i < |slots| && slots[i].active ==> Watching(slots[i]) && !AtTop(slots[i].va, slots[i].len)
  }

  /** Over a table below the top, the test agrees with the true meeting of ranges exactly when the range ends
      below the top or no active slot ends above its start. */
  lemma TopRangeAgreesIff(slots: seq<Slot>, va: int, len: int)
    requires SlotsBelowTop(slots) && 0 <= va && 0 < len && va + len <= ADDRESS_SPACE
    ensures (IsOverlapped(slots, va, len) <==> MeetsActive(slots, va, len))
            <==> va + len < ADDRESS_SPACE || forall i :: 0 <= i < |slots| && slots[i].active ==> slots[i].va + slots[i].len <= va
  {
    forall i | 0 <= i < |slots|
      ensures Clashes(slots[i], va, len) <==> MeetsSlot(slots[i], va, len) && !AtTop(va, len)
      ensures AtTop(va, len) ==> (MeetsSlot(slots[i], va, len) <==> slots[i].active && slots[i].va + slots[i].len > va)
    {
      OverlapTestIsExact(slots[i], va, len);
    }
  }

  // ---------- arming ----------

  /** What the device layer does during one arming: lookups, the address update, the registration. */
  datatype Device = Device(found: bool, foundAgain: bool, updated: bool, registered: bool, handle: int)

  /** CreateWatchPoint on a slot that is modified in place. */
  function Modify(s: Slot, va: int, len: int, inst: bool, sampleAddr: int, d: Device): Slot {
    var s1 := if d.found then s.(active := false) else s;
    if !d.foundAgain || !d.updated then s1
    else s1.(active := true, va := va, len := len, inst := inst, sampleAddr := sampleAddr)
  }

  /** CreateWatchPoint with a fresh device. */
  function Create(s: Slot, va: int, len: int, inst: bool, sampleAddr: int, d: Device): Slot {
    if !d.registered then s.(handle := -1)
    else s.(handle := d.handle, active := true, va := va, len := len, inst := inst, sampleAddr := sampleAddr)
  }

  function DisArm(s: Slot): Slot {
    s.(handle := -1, active := false)
  }

  /** ArmWatchPoint: the slot, and whether it reports success. */
  function Arm(fast: bool, s: Slot, va: int, len: int, inst: bool, sampleAddr: int, d: Device): (Slot, bool) {
    if fast && s.handle != -1 then (Modify(s, va, len, inst, sampleAddr, d), true)
    else
      var s1 := Create(if s.active then DisArm(s) else s, va, len, inst, sampleAddr, d);
      (s1, s1.handle != -1)
  }

  lemma ArmKeepsSlot(fast: bool, s: Slot, va: int, len: int, inst: bool, sampleAddr: int, d: Device)
    requires SlotOk(fast, s) && 0 <= va && va + len <= ADDRESS_SPACE && IsWatchLength(len) && (inst || ValidateWPData(va, len))
    requires d.registered ==> d.handle != -1
    ensures var s' := Arm(fast, s, va, len, inst, sampleAddr, d).0;
            && SlotOk(fast, s') && s'.postFull == s.postFull
            && (s'.active ==>
                  || (s'.va == va && s'.len == len && s'.inst == inst)
                  || (s.active && s'.va == s.va && s'.len == s.len && s'.inst == s.inst))
  {
  }

  /** One slot re-armed for a range the test let through: the table stays sound exactly when the slot does
      not come to watch the range, or no other active slot was overlooked. */
  lemma ArmKeepsTableIff(fast: bool, slots: seq<Slot>, loc: nat, va: int, len: int, inst: bool, sampleAddr: int, d: Device)
    requires TableOk(fast, slots) && loc < |slots| && !IsOverlapped(slots, va, len)
    requires 0 <= va && va + len <= ADDRESS_SPACE && IsWatchLength(len) && (inst || ValidateWPData(va, len))
    requires d.registered ==> d.handle != -1
    ensures var s' := Arm(fast, slots[loc], va, len, inst, sampleAddr, d).0;
            TableOk(fast, slots[loc := s']) <==> (Watches(s', va, len) ==> NoneUnseen(slots, loc, va, len))
  {
    hide Arm, Watching, AtTop, Apart;
    ArmKeepsSlot(fast, slots[loc], va, len, inst, sampleAddr, d);
    var s' := Arm(fast, slots[loc], va, len, inst, sampleAddr, d).0;
    var slots' := slots[loc := s'];
    forall i | 0 <= i < |slots| && slots[i].active ensures Apart(slots[i].va, slots[i].len, va, len) <==> !Unseen(slots[i], va, len) {
      assert !Clashes(slots[i], va, len) && SlotOk(fast, slots[i]);
      OverlapTestIsExact(slots[i], va, len);
    }
    if Disjoint(slots') && Watches(s', va, len) {
      forall i | 0 <= i < |slots| && i != loc && slots[i].active ensures !Unseen(slots[i], va, len) {
        assert slots'[i].active && slots'[loc].active;
        ApartIsSymmetric(slots[i].va, slots[i].len, va, len);
      }
    }
    if Watches(s', va, len) ==> NoneUnseen(slots, loc, va, len) {
      forall i | 0 <= i < |slots| && i != loc && slots[i].active && s'.active ensures Apart(slots[i].va, slots[i].len, s'.va, s'.len) {
        ApartIsSymmetric(slots[i].va, slots[i].len, s'.va, s'.len);
      }
      RearmedIsDisjoint(slots, loc, s');
    }
  }

  lemma ApartIsSymmetric(a: int, aLen: int, b: int, bLen: int)
    ensures Apart(a, aLen, b, bLen) <==> Apart(b, bLen, a, aLen)
  {
  }

  lemma RearmedIsDisjoint(slots: seq<Slot>, loc: nat, s': Slot)
    requires Disjoint(slots) && loc < |slots|
    requires forall i :: 0 <= i < |slots| && i != loc && slots[i].active && s'.active ==> Apart(slots[i].va, slots[i].len, s'.va, s'.len)
    ensures Disjoint(slots[loc := s'])
  {
    hide Apart;
    forall i | 0 <= i < |slots| ensures Apart(slots[i].va, slots[i].len, s'.va, s'.len) <==> Apart(s'.va, s'.len, slots[i].va, slots[i].len) {
      ApartIsSymmetric(slots[i].va, slots[i].len, s'.va, s'.len);
    }
  }

  /** A slot watches a range. */
  predicate Watches(s: Slot, va: int, len: int) {
    s.active && s.va == va && s.len == len
  }

  /** No active slot but `loc` is overlooked. */
  ghost predicate NoneUnseen(slots: seq<Slot>, loc: int, va: int, len: int) {
    forall i :: 0 <= i < |slots| && i != loc ==> !Unseen(slots[i], va, len)
  }

  // ---------- the victim search ----------

  datatype Victim = EmptySlot | NonEmptySlot | NoneAvailable

  function Bump(s: Slot): Slot {
    s.(postFull := s.postFull + 1)
  }

  /** Every active slot counts one more search. */
  function BumpActive(slots: seq<Slot>): (r: seq<Slot>)
    ensures |r| == |slots| && forall i :: 0 <= i < |slots| ==> r[i] == if slots[i].active then Bump(slots[i]) else slots[i]
  {
    seq(|slots|, i requires 0 <= i < |slots| => if slots[i].active then Bump(slots[i]) else slots[i])
  }

  ghost predicate IsFirstInactive(slots: seq<Slot>, loc: int) {
    0 <= loc < |slots| && !slots[loc].active && forall i :: 0 <= i < loc ==> slots[i].active
  }

  ghost predicate IsFull(slots: seq<Slot>) {
    forall i :: 0 <= i < |slots| ==> slots[i].active
  }

  /** The outcomes of a search: the first inactive slot; else any slot, or none for lack of luck. */
  ghost predicate Chosen(slots: seq<Slot>, loc: int, v: Victim) {
    match v
    case EmptySlot => IsFirstInactive(slots, loc)
    case _ => IsFull(slots) && 0 <= loc < |slots|
  }

  /** The slot numbers in some order, each once. */
  ghost predicate IsPermutation(order: seq<int>, n: nat) {
    && |order| == n
    && (forall a :: 0 <= a < n ==> 0 <= order[a] < n)
    && (forall a, b :: 0 <= a < b < n ==> order[a] != order[b])
    && (forall k :: 0 <= k < n ==> k in order)
  }

  lemma SwapKeepsPermutation(order: seq<int>, n: nat, i: nat, j: nat)
    requires IsPermutation(order, n) && i < n && j < n
    ensures IsPermutation(order[i := order[j]][j := order[i]], n)
  {
    var r := order[i := order[j]][j := order[i]];
    forall k | 0 <= k < n ensures k in r {
      assert k in order;
      var a :| 0 <= a < n && order[a] == k;
      assert r[if a == i then j else if a == j then i else a] == k;
    }
  }

  /** The loop of the shuffle from its i-th round on. */
  function Shuffled(order: seq<int>, draws: seq<nat>, i: nat): (r: seq<int>)
    requires i <= |order| == |draws|
    ensures |r| == |order|
    decreases |order| - i
  {
    if i == |order| then order
    else
      var draw := draws[i] % |order|;
      Shuffled(order[i := order[draw]][draw := order[i]], draws, i + 1)
  }

  function InPlace(n: nat): (r: seq<int>)
    ensures |r| == n && forall i :: 0 <= i < n ==> r[i] == i
  {
    seq(n, i => i)
  }

  lemma {:induction false} LaterDrawsDecide(order: seq<int>, draws: seq<nat>, draws': seq<nat>, i: nat)
    requires i <= |order| == |draws| == |draws'| && forall k :: i <= k < |draws| ==> draws[k] == draws'[k]
    ensures Shuffled(order, draws, i) == Shuffled(order, draws', i)
    decreases |order| - i
  {
    if i < |order| {
      var draw := draws[i] % |order|;
      LaterDrawsDecide(order[i := order[draw]][draw := order[i]], draws, draws', i + 1);
    }
  }

  lemma PlaceOf(order: seq<int>, p: seq<int>, i: nat) returns (j: nat)
    requires IsPermutation(order, |order|) && IsPermutation(p, |order|) && i < |order|
    requires forall k :: 0 <= k < i ==> order[k] == p[k]
    ensures i <= j < |order| && order[j] == p[i] && j % |order| == j
  {
    assert p[i] in order;
    var a :| 0 <= a < |order| && order[a] == p[i];
    j := a;
    Remainder(j, 0, j, |order|);
  }

  lemma {:induction false} DrawsFor(order: seq<int>, p: seq<int>, i: nat) returns (draws: seq<nat>)
    requires IsPermutation(order, |order|) && IsPermutation(p, |order|) && i <= |order|
    requires forall k :: 0 <= k < i ==> order[k] == p[k]
    ensures |draws| == |order| && Shuffled(order, draws, i) == p
    decreases |order| - i
  {
    hide IsPermutation, Shuffled;
    PermutationLength(p, |order|);
    if i == |order| {
      draws := seq(i, k => 0);
      ShuffleEnds(order, draws);
      assert order == p;
    } else {
      var j := PlaceOf(order, p, i);
      var next := order[i := order[j]][j := order[i]];
      SwapKeepsPermutation(order, |order|, i, j);
      var later := DrawsFor(next, p, i + 1);
      draws := later[i := j];
      LaterDrawsDecide(next, later, draws, i + 1);
      ShuffleRound(order, draws, i, j);
    }
  }

  lemma PermutationLength(p: seq<int>, n: nat)
    requires IsPermutation(p, n)
    ensures |p| == n
  {
  }

  lemma ShuffleEnds(order: seq<int>, draws: seq<nat>)
    requires |order| == |draws|
    ensures Shuffled(order, draws, |order|) == order
  {
  }

  lemma ShuffleRound(order: seq<int>, draws: seq<nat>, i: nat, j: nat)
    requires i < |order| == |draws| && j < |order| && draws[i] == j && j % |order| == j
    ensures Shuffled(order, draws, i) == Shuffled(order[i := order[j]][j := order[i]], draws, i + 1)
  {
  }

  /** Every order of the slots can come out of the shuffle. */
  lemma AnyOrderCanArise(p: seq<int>) returns (draws: seq<nat>)
    requires IsPermutation(p, |p|)
    ensures |draws| == |p| && Shuffled(InPlace(|p|), draws, 0) == p
  {
    InPlaceIsPermutation(|p|);
    draws := DrawsFor(InPlace(|p|), p, 0);
  }

  lemma InPlaceIsPermutation(n: nat)
    ensures IsPermutation(InPlace(n), n)
  {
    forall k | 0 <= k < n ensures k in InPlace(n) {
      assert InPlace(n)[k] == k;
    }
  }

  /** The i-th draw accepts and none before it does. */
  predicate FirstAccepted(accept: seq<bool>, i: int) {
    0 <= i < |accept| && accept[i] && forall j :: 0 <= j < i ==> !accept[j]
  }

  /** On a full table: the slot visited when the first draw accepts, and the first one visited if none does. */
  ghost predicate IsVictim(order: seq<int>, accept: seq<bool>, victim: Victim, location: int)
    requires |order| == |accept| > 0
  {
    match victim
    case NonEmptySlot => exists i :: FirstAccepted(accept, i) && location == order[i]
    case NoneAvailable => (forall i :: 0 <= i < |accept| ==> !accept[i]) && location == order[0]
    case EmptySlot => false
  }

  /** The slots whose number is among the first `i` of the order have been counted. */
  ghost predicate Counted(was: seq<Slot>, slots: seq<Slot>, order: seq<int>, i: nat)
    requires IsPermutation(order, |was|) && i <= |order| && |slots| == |was|
  {
    forall a :: 0 <= a < |order| ==> slots[order[a]] == if a < i then Bump(was[order[a]]) else was[order[a]]
  }

  lemma CountNext(was: seq<Slot>, slots: seq<Slot>, order: seq<int>, i: nat)
    requires IsPermutation(order, |was|) && i < |order| && |slots| == |was| && Counted(was, slots, order, i)
    ensures Counted(was, slots[order[i] := Bump(slots[order[i]])], order, i + 1)
  {
  }

  lemma AllCounted(was: seq<Slot>, slots: seq<Slot>, order: seq<int>)
    requires IsPermutation(order, |was|) && |slots| == |was| && IsFull(was) && Counted(was, slots, order, |order|)
    ensures slots == BumpActive(was)
  {
    forall k | 0 <= k < |was| ensures slots[k] == Bump(was[k]) {
      assert k in order;
      var a :| 0 <= a < |order| && order[a] == k;
    }
  }

  // ---------- steps and runs ----------

  datatype Event = Searched(active: set<nat>) | Cleared(slots: set<nat>)

  /** The table and what has happened to its counters. */
  datatype State = State(fast: bool, slots: seq<Slot>, log: seq<Event>)

  /** What a tool's callback can ask for; WP_ALREADY_DISABLED would fail its assertion. */
  datatype Action = Disable | DisableAll | Retain

  datatype Step =
    | Subscribe(va: int, len: int, inst: bool, sampleAddr: int, loc: int, victim: Victim, device: Device)
    | Trap(fired: nat, action: Action, found: seq<bool>)

  ghost function ActiveSet(slots: seq<Slot>): set<nat> {
    set i: nat | i < |slots| && slots[i].active
  }

  ghost function Numbers(n: nat): set<nat>
    ensures forall i: nat :: i in Numbers(n) <==> i < n
  {
    if n == 0 then {} else Numbers(n - 1) + {n - 1}
  }

  /** DisableWatchpointWrapper: a device that is not found stays enabled. */
  function Disabled(fast: bool, s: Slot, found: bool): Slot {
    if !s.active then s
    else if !fast then DisArm(s)
    else if found then s.(active := false)
    else s
  }

  function Reset(s: Slot): Slot {
    s.(postFull := RESET)
  }

  function DisabledAll(fast: bool, slots: seq<Slot>, found: seq<bool>): (r: seq<Slot>)
    requires |found| == |slots|
    ensures |r| == |slots| && forall i :: 0 <= i < |slots| ==> r[i] == Reset(Disabled(fast, slots[i], found[i]))
  {
    seq(|slots|, i requires 0 <= i < |slots| => Reset(Disabled(fast, slots[i], found[i])))
  }

  /** A disabled slot is inactive, unless its device was to be modified in place and was not found; its count
      starts anew, and no other slot changes. */
  lemma DisableStops(s: State, loc: nat, found: seq<bool>)
    requires Enabled(s, Trap(loc, Disable, found))
    ensures var slots := Apply(s, Trap(loc, Disable, found)).slots;
            && |slots| == |s.slots| && (slots[loc].active <==> s.fast && !found[loc])
            && slots[loc].postFull == RESET && (!s.fast ==> slots[loc].handle == -1)
            && forall i :: 0 <= i < |slots| && i != loc ==> slots[i] == s.slots[i]
  {
  }

  /** Disabling all leaves no slot active but those whose device was to be modified and was not found. */
  lemma DisableAllStops(s: State, loc: nat, found: seq<bool>)
    requires Enabled(s, Trap(loc, DisableAll, found))
    ensures var slots := Apply(s, Trap(loc, DisableAll, found)).slots;
            && |slots| == |s.slots|
            && forall i :: 0 <= i < |slots| ==>
                 (slots[i].active <==> s.slots[i].active && s.fast && !found[i]) && slots[i].postFull == RESET
                 && (!s.slots[i].active ==> slots[i] == s.slots[i].(postFull := RESET))
  {
  }

  predicate Refused(slots: seq<Slot>, va: int, len: int, inst: bool) {
    (!inst && !ValidateWPData(va, len)) || IsOverlapped(slots, va, len)
  }

  /** What callers and devices provide: a range inside the address space, of a length that does not make the
      process exit, and a registered device that has a file handle. */
  ghost predicate Enabled(s: State, st: Step) {
    match st
    case Subscribe(va, len, inst, _, loc, victim, d) =>
      && 0 <= va && va + len <= ADDRESS_SPACE && (inst ==> IsWatchLength(len)) && (d.registered ==> d.handle != -1)
      && Chosen(s.slots, loc, victim)
    case Trap(loc, _, found) => loc < |s.slots| && s.slots[loc].active && |found| == |s.slots|
  }

  ghost function Apply(s: State, st: Step): State
    requires Enabled(s, st)
  {
    match st
    case Subscribe(va, len, inst, sampleAddr, loc, victim, d) =>
      if Refused(s.slots, va, len, inst) then s
      else
        var s1 := s.(slots := BumpActive(s.slots), log := s.log + [Searched(ActiveSet(s.slots))]);
        if victim == NoneAvailable then s1
        else s1.(slots := s1.slots[loc := Arm(s.fast, s1.slots[loc], va, len, inst, sampleAddr, d).0])
    case Trap(loc, action, found) =>
      match action
      case Retain => s
      case Disable =>
        s.(slots := s.slots[loc := Reset(Disabled(s.fast, s.slots[loc], found[loc]))], log := s.log + [Cleared({loc})])
      case DisableAll =>
        s.(slots := DisabledAll(s.fast, s.slots, found), log := s.log + [Cleared(Numbers(|s.slots|))])
  }

  /** What WP_Subscribe returns. */
  ghost function Answer(s: State, st: Step): int
    requires st.Subscribe? && Enabled(s, st)
  {
    if Refused(s.slots, st.va, st.len, st.inst) || st.victim == NoneAvailable then -1
    else if Arm(s.fast, BumpActive(s.slots)[st.loc], st.va, st.len, st.inst, st.sampleAddr, st.device).1 then 0
    else -1
  }

  /** After an answer of 0 the range is being watched exactly when the slot got a fresh device, or the update
      of its old one went through, or the slot was watching it all along: a failed update is reported as a
      success. */
  lemma ZeroMeansWatchedIff(s: State, st: Step)
    requires st.Subscribe? && Enabled(s, st) && Answer(s, st) == 0 && (st.device.registered ==> st.device.handle != -1)
    ensures Watches(Apply(s, st).slots[st.loc], st.va, st.len)
            <==> || !(s.fast && s.slots[st.loc].handle != -1) || (st.device.foundAgain && st.device.updated)
                 || (!st.device.found && Watches(s.slots[st.loc], st.va, st.len))
  {
    hide IsOverlapped, ValidateWPData;
  }

  /** But for its count. */
  predicate SameWatch(s: Slot, s': Slot) {
    s' == s.(postFull := s'.postFull)
  }

  /** A subscription touches one slot at most, none when it is refused or unlucky, and while some slot is
      inactive no active one. */
  lemma SubscribeEvictsOnlyWhenFull(s: State, st: Step)
    requires st.Subscribe? && Enabled(s, st)
    ensures var slots := Apply(s, st).slots;
            && |slots| == |s.slots|
            && (forall i :: 0 <= i < |slots| && i != st.loc ==> SameWatch(s.slots[i], slots[i]))
            && (Refused(s.slots, st.va, st.len, st.inst) || st.victim == NoneAvailable ==>
                  forall i :: 0 <= i < |slots| ==> SameWatch(s.slots[i], slots[i]))
            && ((exists i :: 0 <= i < |slots| && !s.slots[i].active) ==>
                  forall i :: 0 <= i < |slots| && s.slots[i].active ==> SameWatch(s.slots[i], slots[i]))
  {
    hide IsOverlapped, ValidateWPData, Arm;
  }

  /** What is watched after an answer of 0 is found again: a trap with the slot's handle and the sampled address
      of the subscription is this slot's. */
  lemma WatchIsFound(s: State, st: Step)
    requires st.Subscribe? && Enabled(s, st) && Answer(s, st) == 0
    requires !(s.fast && s.slots[st.loc].handle != -1) || (st.device.foundAgain && st.device.updated)
    ensures var slot := Apply(s, st).slots[st.loc];
            Fired(slot, if s.fast && s.slots[st.loc].handle != -1 then s.slots[st.loc].handle else st.device.handle, st.sampleAddr)
            && slot.inst == st.inst && Watches(slot, st.va, st.len)
  {
    hide IsOverlapped, ValidateWPData;
  }

  /** One more event on a slot's count. */
  ghost function CountOn(e: Event, count: nat, i: nat): nat {
    if e.Cleared? then (if i in e.slots then 0 else count)
    else if i in e.active then count + 1
    else count
  }

  /** The searches a slot was active for since its counter was last set back. */
  ghost function SearchesSince(log: seq<Event>, i: nat): nat {
    if log == [] then 0 else CountOn(log[|log| - 1], SearchesSince(log[..|log| - 1], i), i)
  }

  lemma Logged(log: seq<Event>, e: Event, i: nat)
    ensures SearchesSince(log + [e], i) == CountOn(e, SearchesSince(log, i), i)
  {
    assert (log + [e])[..|log + [e]| - 1] == log;
  }

  ghost predicate CountersOk(s: State) {
    forall i :: 0 <= i < |s.slots| ==> s.slots[i].postFull == RESET + SearchesSince(s.log, i)
  }

  ghost predicate SlotsOk(s: State) {
    forall i :: 0 <= i < |s.slots| ==> SlotOk(s.fast, s.slots[i])
  }

  /** What every run keeps. */
  ghost predicate Inv(s: State) {
    SlotsOk(s) && CountersOk(s)
  }

  /** The step does not put a range in a slot that meets another active slot the test has overlooked. */
  ghost predicate SafeStep(s: State, st: Step)
    requires Enabled(s, st)
  {
    (&& st.Subscribe? && !Refused(s.slots, st.va, st.len, st.inst) && st.victim != NoneAvailable
     && Watches(Arm(s.fast, s.slots[st.loc], st.va, st.len, st.inst, st.sampleAddr, st.device).0, st.va, st.len))
    ==> NoneUnseen(s.slots, st.loc, st.va, st.len)
  }

  lemma BumpKeepsTable(fast: bool, slots: seq<Slot>)
    ensures TableOk(fast, BumpActive(slots)) <==> TableOk(fast, slots)
    ensures forall va, len :: IsOverlapped(BumpActive(slots), va, len) == IsOverlapped(slots, va, len)
    ensures forall loc, va, len :: NoneUnseen(BumpActive(slots), loc, va, len) == NoneUnseen(slots, loc, va, len)
  {
    var r := BumpActive(slots);
    forall va, len ensures IsOverlapped(r, va, len) == IsOverlapped(slots, va, len) {
      assert forall i :: 0 <= i < |slots| ==> Clashes(r[i], va, len) == Clashes(slots[i], va, len);
    }
    forall loc, va, len ensures NoneUnseen(r, loc, va, len) == NoneUnseen(slots, loc, va, len) {
      assert forall i :: 0 <= i < |slots| ==> Unseen(r[i], va, len) == Unseen(slots[i], va, len);
    }
    assert forall i :: 0 <= i < |slots| ==> SlotOk(fast, r[i]) == SlotOk(fast, slots[i]);
    BumpKeepsDisjoint(slots);
  }

  lemma BumpKeepsDisjoint(slots: seq<Slot>)
    ensures Disjoint(BumpActive(slots)) <==> Disjoint(slots)
  {
    var r := BumpActive(slots);
    assert forall i :: 0 <= i < |slots| ==> r[i].active == slots[i].active && r[i].va == slots[i].va && r[i].len == slots[i].len;
  }

  lemma ArmBumped(fast: bool, s: Slot, va: int, len: int, inst: bool, sampleAddr: int, d: Device)
    ensures var b := if s.active then Bump(s) else s;
            Watches(Arm(fast, b, va, len, inst, sampleAddr, d).0, va, len) == Watches(Arm(fast, s, va, len, inst, sampleAddr, d).0, va, len)
  {
  }

  /** From a sound table, a subscription leaves a sound table exactly when it is a safe step. */
  lemma SubscribeKeepsTableIff(s: State, st: Step)
    requires TableOk(s.fast, s.slots) && st.Subscribe? && Enabled(s, st)
    ensures TableOk(s.fast, Apply(s, st).slots) <==> SafeStep(s, st)
  {
    hide Arm, TableOk, IsOverlapped, SlotOk, NoneUnseen, Watches, ValidateWPData;
    BumpKeepsTable(s.fast, s.slots);
    if !Refused(s.slots, st.va, st.len, st.inst) && st.victim != NoneAvailable {
      SupportedLength(st.va, st.len, st.inst);
      ArmKeepsTableIff(s.fast, BumpActive(s.slots), st.loc, st.va, st.len, st.inst, st.sampleAddr, st.device);
      ArmBumped(s.fast, s.slots[st.loc], st.va, st.len, st.inst, st.sampleAddr, st.device);
    }
  }

  lemma SupportedLength(va: int, len: int, inst: bool)
    requires if inst then IsWatchLength(len) else ValidateWPData(va, len)
    ensures IsWatchLength(len) && (inst || ValidateWPData(va, len))
  {
  }

  lemma SubscribeKeepsInv(s: State, st: Step)
    requires Inv(s) && st.Subscribe? && Enabled(s, st)
    ensures Inv(Apply(s, st))
  {
    hide Arm, IsOverlapped, SlotOk, ValidateWPData;
    var e := Searched(ActiveSet(s.slots));
    var slots1 := BumpActive(s.slots);
    forall i: nat | i < |s.slots| ensures slots1[i].postFull == RESET + SearchesSince(s.log + [e], i) {
      Logged(s.log, e, i);
    }
    forall i | 0 <= i < |s.slots| ensures SlotOk(s.fast, slots1[i]) {
      BumpKeepsSlot(s.fast, s.slots[i]);
    }
    if !Refused(s.slots, st.va, st.len, st.inst) && st.victim != NoneAvailable {
      SupportedLength(st.va, st.len, st.inst);
      ArmKeepsSlot(s.fast, slots1[st.loc], st.va, st.len, st.inst, st.sampleAddr, st.device);
      ArmKeepsCounter(s.fast, slots1[st.loc], st.va, st.len, st.inst, st.sampleAddr, st.device);
    }
  }

  lemma BumpKeepsSlot(fast: bool, s: Slot)
    requires SlotOk(fast, s)
    ensures SlotOk(fast, Bump(s))
  {
  }

  lemma ArmKeepsCounter(fast: bool, s: Slot, va: int, len: int, inst: bool, sampleAddr: int, d: Device)
    ensures Arm(fast, s, va, len, inst, sampleAddr, d).0.postFull == s.postFull
  {
  }

  lemma TrapKeepsCounters(s: State, st: Step)
    requires CountersOk(s) && st.Trap? && Enabled(s, st)
    ensures CountersOk(Apply(s, st))
  {
    hide Disabled;
    var s' := Apply(s, st);
    if st.action != Retain {
      var e := s'.log[|s.log|];
      forall i: nat | i < |s.slots| ensures s'.slots[i].postFull == RESET + SearchesSince(s'.log, i) {
        Logged(s.log, e, i);
      }
    }
  }

  lemma DisabledKeepsSlot(fast: bool, s: Slot, found: bool)
    requires SlotOk(fast, s)
    ensures var s' := Reset(Disabled(fast, s, found));
            SlotOk(fast, s') && (s'.active ==> s.active && s'.va == s.va && s'.len == s.len)
  {
  }

  lemma TrapKeepsTable(s: State, st: Step)
    requires TableOk(s.fast, s.slots) && st.Trap? && Enabled(s, st)
    ensures TableOk(s.fast, Apply(s, st).slots) && Apply(s, st).fast == s.fast
  {
    hide Disabled, Reset, SlotOk;
    forall i | 0 <= i < |s.slots|
      ensures var s' := Reset(Disabled(s.fast, s.slots[i], st.found[i]));
              SlotOk(s.fast, s') && (s'.active ==> s.slots[i].active && s'.va == s.slots[i].va && s'.len == s.slots[i].len)
    {
      DisabledKeepsSlot(s.fast, s.slots[i], st.found[i]);
    }
  }

  lemma TrapKeepsInv(s: State, st: Step)
    requires Inv(s) && st.Trap? && Enabled(s, st)
    ensures Inv(Apply(s, st))
  {
    hide CountersOk, Disabled, Reset, SlotOk;
    TrapKeepsCounters(s, st);
    forall i | 0 <= i < |s.slots| ensures SlotOk(s.fast, Reset(Disabled(s.fast, s.slots[i], st.found[i]))) {
      DisabledKeepsSlot(s.fast, s.slots[i], st.found[i]);
    }
  }

  ghost predicate Init(s: State) {
    && |s.slots| <= MAX_WP_SLOTS && s.log == []
    && (forall i :: 0 <= i < |s.slots| ==> !s.slots[i].active && s.slots[i].handle == -1 && s.slots[i].postFull == RESET)
  }

  /** The states that steps from an empty table lead through. */
  ghost predicate IsRun(run: seq<State>, steps: seq<Step>) {
    && |run| == |steps| + 1 && Init(run[0])
    && forall i :: 0 <= i < |steps| ==> Follows(run[i], steps[i], run[i + 1])
  }

  ghost predicate Follows(s: State, st: Step, s': State) {
    Enabled(s, st) && s' == Apply(s, st)
  }

  lemma InitIsInv(s: State)
    requires Init(s)
    ensures Inv(s) && Disjoint(s.slots)
  {
  }

  lemma {:induction false} RunsKeepInv(run: seq<State>, steps: seq<Step>, n: nat)
    requires IsRun(run, steps) && n < |run|
    ensures Inv(run[n])
  {
    hide Inv, Enabled, Apply, Init;
    if n == 0 {
      InitIsInv(run[0]);
    } else {
      RunsKeepInv(run, steps, n - 1);
      var st := steps[n - 1];
      assert Follows(run[n - 1], st, run[n - 1 + 1]);
      if st.Subscribe? {
        SubscribeKeepsInv(run[n - 1], st);
      } else {
        TrapKeepsInv(run[n - 1], st);
      }
    }
  }

  /** In every run an active slot has a handle and, unless it watches instructions, an aligned range of 1, 2,
      4 or 8 bytes. */
  lemma ActiveSlotsAreSound(run: seq<State>, steps: seq<Step>, n: nat, i: nat)
    requires IsRun(run, steps) && n < |run| && i < |run[n].slots| && run[n].slots[i].active
    ensures var a := run[n].slots[i];
            a.handle != -1 && IsWatchLength(a.len) && (a.inst || ValidateWPData(a.va, a.len))
  {
    hide IsRun, CountersOk;
    RunsKeepInv(run, steps, n);
    assert SlotOk(run[n].fast, run[n].slots[i]);
  }

  lemma StepKeepsDisjointIff(s: State, st: Step)
    requires SlotsOk(s) && Disjoint(s.slots) && Enabled(s, st) && SlotsOk(Apply(s, st)) && Apply(s, st).fast == s.fast
    ensures Disjoint(Apply(s, st).slots) <==> SafeStep(s, st)
  {
    hide Apply, Disjoint, SlotOk, Enabled;
    if st.Subscribe? {
      SubscribeKeepsTableIff(s, st);
    } else {
      TrapKeepsTable(s, st);
    }
  }

  lemma ApplyKeepsFast(s: State, st: Step)
    requires Enabled(s, st)
    ensures Apply(s, st).fast == s.fast
  {
  }

  /** In every run the active slots watched pairwise disjoint ranges all along, exactly when every step was
      safe. */
  lemma {:induction false} DisjointIffStepsSafe(run: seq<State>, steps: seq<Step>, n: nat)
    requires IsRun(run, steps) && n < |run|
    ensures (forall k :: 0 <= k <= n ==> Disjoint(run[k].slots)) <==> (forall k :: 0 <= k < n ==> TookSafely(run, steps, k))
    decreases n
  {
    hide Apply, Enabled, Init, Disjoint, SlotsOk, CountersOk;
    if n == 0 {
      InitIsInv(run[0]);
    } else {
      DisjointIffStepsSafe(run, steps, n - 1);
      RunsKeepInv(run, steps, n - 1);
      RunsKeepInv(run, steps, n);
      assert Follows(run[n - 1], steps[n - 1], run[n - 1 + 1]);
      ApplyKeepsFast(run[n - 1], steps[n - 1]);
      if Disjoint(run[n - 1].slots) {
        StepKeepsDisjointIff(run[n - 1], steps[n - 1]);
        assert TookSafely(run, steps, n - 1) <==> Disjoint(run[n].slots);
      }
    }
  }

  ghost predicate TookSafely(run: seq<State>, steps: seq<Step>, k: nat) {
    k < |steps| && k < |run| && Enabled(run[k], steps[k]) && SafeStep(run[k], steps[k])
  }

  /** Below the top every step is safe: nothing is overlooked. */
  lemma BelowTopIsSafe(s: State, st: Step)
    requires SlotsBelowTop(s.slots) && Enabled(s, st) && (st.Subscribe? ==> !AtTop(st.va, st.len))
    ensures SafeStep(s, st)
  {
  }

  /** The step asks for no range that ends at the top. */
  predicate AsksBelowTop(st: Step) {
    st.Subscribe? ==> st.va + st.len < ADDRESS_SPACE
  }

  lemma ArmStaysBelowTop(fast: bool, s: Slot, va: int, len: int, inst: bool, sampleAddr: int, d: Device)
    requires (s.active ==> !AtTop(s.va, s.len)) && !AtTop(va, len)
    ensures var s' := Arm(fast, s, va, len, inst, sampleAddr, d).0;
            s'.active ==> !AtTop(s'.va, s'.len)
  {
  }

  lemma StepStaysBelowTop(s: State, st: Step)
    requires SlotsBelowTop(s.slots) && Enabled(s, st) && AsksBelowTop(st) && SlotsOk(Apply(s, st)) && Apply(s, st).fast == s.fast
    ensures SlotsBelowTop(Apply(s, st).slots)
  {
    hide Arm, Watching, IsOverlapped, ValidateWPData, Apart;
    var s' := Apply(s, st);
    forall i | 0 <= i < |s'.slots| && s'.slots[i].active ensures Watching(s'.slots[i]) && !AtTop(s'.slots[i].va, s'.slots[i].len) {
      assert SlotOk(s'.fast, s'.slots[i]);
      if st.Subscribe? && i == st.loc {
        ArmStaysBelowTop(s.fast, BumpActive(s.slots)[i], st.va, st.len, st.inst, st.sampleAddr, st.device);
      }
    }
  }

  /** In every run whose subscriptions all end below the top, the active slots watch disjoint ranges. */
  lemma {:induction false} RunsBelowTopAreDisjoint(run: seq<State>, steps: seq<Step>, n: nat)
    requires IsRun(run, steps) && n < |run|
    requires forall k :: 0 <= k < n ==> AsksBelowTop(steps[k])
    ensures Disjoint(run[n].slots) && SlotsBelowTop(run[n].slots)
    decreases n
  {
    hide Apply, Enabled, Disjoint, SlotsOk, CountersOk, SlotsBelowTop;
    if n == 0 {
      InitIsInv(run[0]);
      InitIsBelowTop(run[0]);
    } else {
      RunsBelowTopAreDisjoint(run, steps, n - 1);
      RunsKeepInv(run, steps, n - 1);
      RunsKeepInv(run, steps, n);
      var s, st := run[n - 1], steps[n - 1];
      assert Follows(s, st, run[n - 1 + 1]) && AsksBelowTop(st);
      ApplyKeepsFast(s, st);
      BelowTopIsSafe(s, st);
      StepKeepsDisjointIff(s, st);
      StepStaysBelowTop(s, st);
    }
  }

  lemma InitIsBelowTop(s: State)
    requires Init(s)
    ensures SlotsBelowTop(s.slots)
  {
  }

  /** WP_Subscribe for a range that ends at the top, over a table below the top: such a range is never
      refused for overlap, and once a slot watches it the table is disjoint exactly when no other active
      slot ends above its start. */
  lemma TopSubscribeDisjointIff(s: State, st: Step)
    requires TableOk(s.fast, s.slots) && SlotsBelowTop(s.slots)
    requires st.Subscribe? && Enabled(s, st) && AtTop(st.va, st.len) && IsWatchLength(st.len)
    requires st.victim != NoneAvailable && (st.inst || ValidateWPData(st.va, st.len))
    requires Watches(Arm(s.fast, s.slots[st.loc], st.va, st.len, st.inst, st.sampleAddr, st.device).0, st.va, st.len)
    ensures !Refused(s.slots, st.va, st.len, st.inst)
    ensures TableOk(s.fast, Apply(s, st).slots) <==>
              forall i :: 0 <= i < |s.slots| && i != st.loc && s.slots[i].active ==> s.slots[i].va + s.slots[i].len <= st.va
  {
    hide Arm, TableOk, SlotOk, Watches, Apply;
    SubscribeKeepsTableIff(s, st);
    WrappedEnd(st.va + st.len);
  }

  /** In every run a slot's counter is one more than the searches it was active for since its last reset. */
  lemma CountersCountSearches(run: seq<State>, steps: seq<Step>, n: nat, i: nat)
    requires IsRun(run, steps) && n < |run| && i < |run[n].slots|
    ensures run[n].slots[i].postFull == 1 + SearchesSince(run[n].log, i)
  {
    hide IsRun, SlotsOk;
    RunsKeepInv(run, steps, n);
  }

  // ---------- two runs that go wrong ----------

  const FREE := Slot(false, -1, 0, 0, false, 0, RESET)

  ghost predicate Answered(s: State, st: Step, r: int) {
    st.Subscribe? && Enabled(s, st) && Answer(s, st) == r
  }

  function Opened(handle: int): Device { Device(true, true, true, true, handle) }

  /** A watch of 4 bytes just below the top, then one of 8 bytes from the same address: both are accepted. */
  lemma TopRangesMeet()
    ensures exists run: seq<State>, steps: seq<Step> ::
              && IsRun(run, steps) && |steps| == 2 && !Disjoint(run[2].slots)
              && Answered(run[0], steps[0], 0) && Answered(run[1], steps[1], 0)
  {
    var va := ADDRESS_SPACE - 8;
    var first := Subscribe(va, 4, false, va, 0, EmptySlot, Opened(3));
    var second := Subscribe(va, 8, false, va, 1, EmptySlot, Opened(4));
    var s0 := State(false, [FREE, FREE], []);
    assert Enabled(s0, first) && !Refused(s0.slots, va, 4, false);
    var s1 := Apply(s0, first);
    var watch := Slot(true, 3, va, 4, false, va, RESET);
    assert s1.slots == [watch, FREE];
    WrappedEnd(va + 8);
    assert !Clashes(s1.slots[0], va, 8) && !Clashes(s1.slots[1], va, 8);
    assert Enabled(s1, second) && !Refused(s1.slots, va, 8, false);
    var s2 := Apply(s1, second);
    assert s2.slots == [Bump(watch), Slot(true, 4, va, 8, false, va, RESET)];
    assert !Disjoint(s2.slots) by {
      assert s2.slots[0].active && s2.slots[1].active;
    }
    var run, steps := [s0, s1, s2], [first, second];
    assert Follows(run[0], steps[0], run[1]) && Follows(run[1], steps[1], run[2]);
    assert IsRun(run, steps) && Answered(run[0], steps[0], 0) && Answered(run[1], steps[1], 0);
  }

  /** A watch armed and disabled by its trap, its slot chosen again, and the address update refused by the
      device: the answer is 0 and nothing is watched. */
  lemma FailedUpdateAnswersZero()
    ensures exists run: seq<State>, steps: seq<Step> ::
              && IsRun(run, steps) && |steps| == 3 && Answered(run[2], steps[2], 0)
              && forall i :: 0 <= i < |run[3].slots| ==> !run[3].slots[i].active
  {
    var first := Subscribe(0x1000, 8, false, 0x1000, 0, EmptySlot, Opened(3));
    var trap := Trap(0, Disable, [true]);
    var again := Subscribe(0x2000, 8, false, 0x2000, 0, EmptySlot, Device(true, true, false, true, 4));
    var s0 := State(true, [FREE], []);
    assert Enabled(s0, first) && !Refused(s0.slots, 0x1000, 8, false);
    var s1 := Apply(s0, first);
    assert s1.slots == [Slot(true, 3, 0x1000, 8, false, 0x1000, RESET)];
    assert Enabled(s1, trap);
    var s2 := Apply(s1, trap);
    assert s2.slots == [Slot(false, 3, 0x1000, 8, false, 0x1000, RESET)];
    assert Enabled(s2, again) && !Refused(s2.slots, 0x2000, 8, false);
    var s3 := Apply(s2, again);
    var run, steps := [s0, s1, s2, s3], [first, trap, again];
    assert Follows(run[0], steps[0], run[1]) && Follows(run[1], steps[1], run[2]) && Follows(run[2], steps[2], run[3]);
    assert IsRun(run, steps) && Answered(run[2], steps[2], 0);
  }

  // ---------- the functions that update the table ----------

  class ThreadData {
    const fast: bool
    const watchPointArray: array<Slot>
    ghost var log: seq<Event>

    ghost function View(): State
      reads this, watchPointArray
    {
      State(fast, watchPointArray[..], log)
    }

    /** WP_ThreadInit. */
    constructor (fast: bool, maxWP: nat)
      requires 0 < maxWP <= MAX_WP_SLOTS
      ensures Init(View()) && fresh(watchPointArray) && watchPointArray.Length == maxWP && this.fast == fast
    {
      this.fast, log := fast, [];
      watchPointArray := new Slot[maxWP](_ => Slot(false, -1, 0, 0, false, 0, RESET));
    }

    method FindOverlap(va: int, len: int) returns (r: bool)
      ensures r == IsOverlapped(watchPointArray[..], va, len)
    {
      var i := 0;
      while i < watchPointArray.Length
        invariant 0 <= i <= watchPointArray.Length
        invariant forall j :: 0 <= j < i ==> !Clashes(watchPointArray[..][j], va, len)
      {
        if watchPointArray[i].active {
          if AddressesOverlap(watchPointArray[i].va, watchPointArray[i].len, va, len) {
            assert Clashes(watchPointArray[..][i], va, len);
            return true;
          }
        }
        i := i + 1;
      }
      return false;
    }

    /** The counters of those who survive a search that found an empty slot. */
    method CountActive()
      modifies watchPointArray
      ensures watchPointArray[..] == BumpActive(old(watchPointArray[..]))
    {
      ghost var was := watchPointArray[..];
      var rest := 0;
      while rest < watchPointArray.Length
        invariant 0 <= rest <= watchPointArray.Length
        invariant forall i :: 0 <= i < watchPointArray.Length ==> watchPointArray[i] == if i < rest then BumpActive(was)[i] else was[i]
      {
        if watchPointArray[rest].active {
          watchPointArray[rest] := Bump(watchPointArray[rest]);
        }
        rest := rest + 1;
      }
    }

    /** The shuffled visit order; `draws` are the random numbers. */
    method Shuffle(draws: seq<nat>) returns (order: seq<int>)
      requires |draws| == watchPointArray.Length
      ensures IsPermutation(order, watchPointArray.Length)
      ensures order == Shuffled(InPlace(watchPointArray.Length), draws, 0)
    {
      hide IsPermutation;
      var n := watchPointArray.Length;
      order := InPlace(n);
      InPlaceIsPermutation(n);
      var i := 0;
      while i < n
        invariant 0 <= i <= n && IsPermutation(order, n) && |order| == n
        invariant Shuffled(order, draws, i) == Shuffled(InPlace(n), draws, 0)
      {
        var draw := draws[i] % n;
        SwapKeepsPermutation(order, n, i, draw);
        order := order[i := order[draw]][draw := order[i]];
        i := i + 1;
      }
    }

    /** The search of a full table: every slot is counted exactly once, wherever the draws end it. */
    method Reservoir(draws: seq<nat>, accept: seq<bool>) returns (victim: Victim, location: int)
      requires 0 < watchPointArray.Length == |draws| == |accept| && IsFull(watchPointArray[..])
      modifies watchPointArray
      ensures watchPointArray[..] == BumpActive(old(watchPointArray[..]))
      ensures Chosen(old(watchPointArray[..]), location, victim) && victim != EmptySlot
      ensures victim == NoneAvailable <==> forall i :: 0 <= i < |accept| ==> !accept[i]
      ensures IsVictim(Shuffled(InPlace(watchPointArray.Length), draws, 0), accept, victim, location)
    {
      ghost var was := watchPointArray[..];
      var order := Shuffle(draws);
      var n, i := watchPointArray.Length, 0;
      victim, location := NoneAvailable, -1;
      while i < n && victim == NoneAvailable
        invariant 0 <= i <= n && Counted(was, watchPointArray[..], order, i)
        invariant victim == NoneAvailable ==> forall j :: 0 <= j < i ==> !accept[j]
        invariant victim != NoneAvailable ==> victim == NonEmptySlot && 0 < i && location == order[i - 1] && FirstAccepted(accept, i - 1)
      {
        var loc := order[i];
        CountNext(was, watchPointArray[..], order, i);
        watchPointArray[loc] := Bump(watchPointArray[loc]);
        if accept[i] {
          victim, location := NonEmptySlot, loc;
        }
        i := i + 1;
      }
      while i < n
        invariant 0 <= i <= n && Counted(was, watchPointArray[..], order, i)
      {
        CountNext(was, watchPointArray[..], order, i);
        watchPointArray[order[i]] := Bump(watchPointArray[order[i]]);
        i := i + 1;
      }
      AllCounted(was, watchPointArray[..], order);
      if victim == NoneAvailable {
        location := order[0];
      }
      assert 0 <= location < n;
    }

    /** GetVictim under WP_REPLACEMENT_AUTO: adds one to exactly the active slots, whatever it returns. */
    method GetVictim(draws: seq<nat>, accept: seq<bool>) returns (victim: Victim, location: int)
      requires 0 < watchPointArray.Length == |draws| == |accept|
      modifies watchPointArray
      ensures watchPointArray[..] == BumpActive(old(watchPointArray[..]))
      ensures Chosen(old(watchPointArray[..]), location, victim)
      ensures victim == EmptySlot <==> !IsFull(old(watchPointArray[..]))
      ensures IsFull(old(watchPointArray[..])) ==>
                IsVictim(Shuffled(InPlace(watchPointArray.Length), draws, 0), accept, victim, location)
    {
      ghost var was := watchPointArray[..];
      var i := 0;
      while i < watchPointArray.Length
        invariant 0 <= i <= watchPointArray.Length && watchPointArray[..] == was
        invariant forall j :: 0 <= j < i ==> was[j].active
      {
        if !watchPointArray[i].active {
          assert IsFirstInactive(was, i) && !was[i].active;
          CountActive();
          return EmptySlot, i;
        }
        i := i + 1;
      }
      victim, location := Reservoir(draws, accept);
    }

    /** ArmWatchPoint, with CreateWatchPoint. */
    method ArmWatchPoint(loc: nat, va: int, len: int, inst: bool, sampleAddr: int, d: Device) returns (ok: bool)
      requires loc < watchPointArray.Length
      modifies watchPointArray
      ensures watchPointArray[..] == old(watchPointArray[..])[loc := Arm(fast, old(watchPointArray[loc]), va, len, inst, sampleAddr, d).0]
      ensures ok == Arm(fast, old(watchPointArray[loc]), va, len, inst, sampleAddr, d).1
    {
      var wpi := watchPointArray[loc];
      if fast && wpi.handle != -1 {
        if d.found {
          wpi := wpi.(active := false);
        }
        if d.foundAgain && d.updated {
          wpi := wpi.(active := true, va := va, len := len, inst := inst, sampleAddr := sampleAddr);
        }
        watchPointArray[loc] := wpi;
        return true;
      }
      if wpi.active {
        wpi := wpi.(handle := -1, active := false);
      }
      if !d.registered {
        wpi := wpi.(handle := -1);
      } else {
        wpi := wpi.(handle := d.handle, active := true, va := va, len := len, inst := inst, sampleAddr := sampleAddr);
      }
      watchPointArray[loc] := wpi;
      return wpi.handle != -1;
    }

    /** WP_Subscribe: refused with nothing changed, or the step of the state machine. */
    method WPSubscribe(va: int, len: int, inst: bool, sampleAddr: int, draws: seq<nat>, accept: seq<bool>, d: Device) returns (r: int)
      requires Inv(View()) && 0 < watchPointArray.Length == |draws| == |accept|
      requires 0 <= va && va + len <= ADDRESS_SPACE && (inst ==> IsWatchLength(len)) && (d.registered ==> d.handle != -1)
      modifies this`log, watchPointArray
      ensures Inv(View())
      ensures Refused(old(watchPointArray[..]), va, len, inst) ==> r == -1 && View() == old(View())
      ensures exists loc, victim :: Enabled(old(View()), Subscribe(va, len, inst, sampleAddr, loc, victim, d))
                && View() == Apply(old(View()), Subscribe(va, len, inst, sampleAddr, loc, victim, d))
                && r == Answer(old(View()), Subscribe(va, len, inst, sampleAddr, loc, victim, d))
    {
      hide SlotsOk, CountersOk, IsOverlapped, ValidateWPData, Arm;
      if !inst && !ValidateWPData(va, len) {
        RefusedStep(View(), va, len, inst, sampleAddr, d);
        return -1;
      }
      var overlapped := FindOverlap(va, len);
      if overlapped {
        RefusedStep(View(), va, len, inst, sampleAddr, d);
        return -1;
      }
      ghost var s := View();
      var victim, location := GetVictim(draws, accept);
      log := log + [Searched(ActiveSet(s.slots))];
      ghost var st := Subscribe(va, len, inst, sampleAddr, location, victim, d);
      SubscribeKeepsInv(s, st);
      if victim != NoneAvailable {
        var ok := ArmWatchPoint(location, va, len, inst, sampleAddr, d);
        assert View() == Apply(s, st);
        return if ok then 0 else -1;
      }
      assert View() == Apply(s, st);
      return -1;
    }

    /** The slot a trap is for: the first active one with this handle and sampled address. */
    method FindFired(fd: int, dataAddr: int) returns (location: int)
      ensures location == -1 ==> forall i :: 0 <= i < watchPointArray.Length ==> !Fired(watchPointArray[i], fd, dataAddr)
      ensures location != -1 ==> 0 <= location < watchPointArray.Length && Fired(watchPointArray[location], fd, dataAddr)
                                 && forall i :: 0 <= i < location ==> !Fired(watchPointArray[i], fd, dataAddr)
    {
      for i := 0 to watchPointArray.Length
        invariant forall j :: 0 <= j < i ==> !Fired(watchPointArray[j], fd, dataAddr)
      {
        if Fired(watchPointArray[i], fd, dataAddr) {
          return i;
        }
      }
      return -1;
    }

    /** OnWatchPoint once the slot is found and the tool has answered; `found` are the device lookups. */
    method OnWatchPoint(location: nat, action: Action, found: seq<bool>)
      requires Inv(View()) && location < watchPointArray.Length == |found| && watchPointArray[location].active
      modifies this`log, watchPointArray
      ensures Inv(View()) && View() == Apply(old(View()), Trap(location, action, found))
    {
      hide SlotsOk, CountersOk;
      ghost var s := View();
      TrapKeepsInv(s, Trap(location, action, found));
      match action {
        case Disable =>
          watchPointArray[location] := Reset(Disabled(fast, watchPointArray[location], found[location]));
          log := log + [Cleared({location})];
        case DisableAll =>
          var i := 0;
          while i < watchPointArray.Length
            invariant 0 <= i <= watchPointArray.Length && log == old(log)
            invariant forall j :: 0 <= j < watchPointArray.Length ==>
              watchPointArray[j] == if j < i then DisabledAll(fast, s.slots, found)[j] else s.slots[j]
          {
            watchPointArray[i] := Reset(Disabled(fast, watchPointArray[i], found[i]));
            i := i + 1;
          }
          log := log + [Cleared(Numbers(watchPointArray.Length))];
        case Retain =>
      }
      assert View() == Apply(s, Trap(location, action, found));
    }
  }

  predicate Fired(s: Slot, fd: int, dataAddr: int) {
    s.active && fd == s.handle && s.sampleAddr == dataAddr
  }

  lemma RefusedStep(s: State, va: int, len: int, inst: bool, sampleAddr: int, d: Device)
    requires s.slots != [] && Refused(s.slots, va, len, inst)
    requires 0 <= va && va + len <= ADDRESS_SPACE && (inst ==> IsWatchLength(len)) && (d.registered ==> d.handle != -1)
    ensures exists loc, victim :: Enabled(s, Subscribe(va, len, inst, sampleAddr, loc, victim, d))
              && s == Apply(s, Subscribe(va, len, inst, sampleAddr, loc, victim, d))
              && Answer(s, Subscribe(va, len, inst, sampleAddr, loc, victim, d)) == -1
  {
    AnyChoice(s.slots);
    var loc, victim :| Chosen(s.slots, loc, victim);
    assert Enabled(s, Subscribe(va, len, inst, sampleAddr, loc, victim, d));
  }

  /** Some outcome of the victim search fits every table with a slot. */
  lemma AnyChoice(slots: seq<Slot>)
    requires slots != []
    ensures exists loc, victim :: Chosen(slots, loc, victim)
  {
    if IsFull(slots) {
      assert Chosen(slots, 0, NoneAvailable);
    } else {
      var i := FirstInactive(slots);
      assert Chosen(slots, i, EmptySlot);
    }
  }

  lemma FirstInactive(slots: seq<Slot>) returns (i: nat)
    requires !IsFull(slots)
    ensures IsFirstInactive(slots, i)
  {
    i := 0;
    while slots[i].active
      invariant 0 <= i < |slots| && !IsFull(slots) && forall j :: 0 <= j < i ==> slots[j].active
      decreases |slots| - i
    {
      assert exists k :: 0 <= k < |slots| && !slots[k].active;
      i := i + 1;
    }
  }
}
