/** The Witch profiler's books: proportional attribution of samples to contexts, the global totals, and
    the metrics of the context tree, for the RedSpy, LoadSpy and DeadStore tools. */
module Attribution {
  import opened Common
  import opened Overlap
  import opened ContextTrie

  const THRESHOLD := 100003

  datatype Tool = RedSpy | LoadSpy | DeadStore

  datatype Action = Disable | Retain

  datatype SampleNum = SampleNum(catchup: nat, cur: nat)

  /** The tool's state. The last four components record history: what each context was charged, the
      bytes these charges stand for, the bytes no metric received, and the sampled event's fixed IP. */
  datatype Witch = Witch(
    t: Tree, leafOf: map<int, nat>, table: map<nat, SampleNum>, totals: Metrics,
    charged: map<nat, int>, bytes: int, lost: int, ipOf: map<int, int>)

  const START := Witch(EMPTY, map[], map[], ZERO, map[], 0, 0, map[])

  datatype Trap = Trap(cur: Event, sample: Event, va: Word, watchLen: nat, close: bool)

  ghost predicate Mapped(w: Witch) {
    && WellFormed(w.t)
    && (forall id :: id in w.leafOf ==> 0 < w.leafOf[id] < |w.t| && w.leafOf[id] in w.table)
    && (forall n :: n in w.table ==> n < |w.t|)
  }

  /** Witch_OnSample_Callback: false, with nothing recorded, for an empty call chain. */
  function OnSample(w: Witch, ev: Event): (r: (Witch, bool))
    requires Mapped(w)
  {
    var (t', leaf) := AddFrames(w.t, 0, Reverse(ev.chain));
    if leaf == 0 then (w.(t := t'), false)
    else
      var seen := if leaf in w.table then w.table[leaf].(cur := w.table[leaf].cur + 1) else SampleNum(0, 1);
      (w.(t := t', leafOf := w.leafOf[ev.id := leaf], table := w.table[leaf := seen],
          charged := if leaf in w.charged then w.charged else w.charged[leaf := 0], ipOf := w.ipOf[ev.id := ev.fixedIP]), true)
  }

  /** GetNumDiffSamplesAndReset with a proportion of 1: the samples not yet charged, times the period. */
  function CatchUp(w: Witch, leaf: nat): (r: (Witch, int)) {
    if leaf in w.table then
      var seen := w.table[leaf];
      var n := (seen.cur - seen.catchup) * THRESHOLD;
      (w.(table := w.table[leaf := seen.(catchup := seen.cur)],
          charged := w.charged[leaf := (if leaf in w.charged then w.charged[leaf] else 0) + n]), n)
    else (w, 0)
  }

  function Forget(w: Witch, id: int): Witch {
    w.(leafOf := w.leafOf - {id})
  }

  function Bump(t: Tree, n: nat, k: Kind, d: int): (r: Tree)
    requires n < |t|
    ensures |r| == |t|
  {
    t[n := t[n].(metrics := t[n].metrics.Plus(k, d))]
  }

  /** Both ends of a pair: the sampled leaf and the leaf of the trap's chain hung below it. */
  function ChargePair(w: Witch, leaf: nat, chain: seq<Frame>, k: Kind, inc: int): Witch
    requires WellFormed(w.t) && leaf < |w.t|
  {
    AddFramesReadsBack(w.t, leaf, chain);
    var (t', watchLeaf) := AddFrames(w.t, leaf, chain);
    w.(t := Bump(Bump(t', watchLeaf, k, inc), leaf, k, inc), totals := w.totals.Plus(k, inc))
  }

  function ChargeUsed(w: Witch, leaf: nat, inc: int): Witch
    requires leaf < |w.t|
  {
    w.(t := Bump(w.t, leaf, USED, inc), totals := w.totals.Plus(USED, inc))
  }

  function Wants(tool: Tool, a: Access): bool {
    match tool
    case RedSpy => a == STORE || a == LOAD_AND_STORE
    case LoadSpy => a == LOAD || a == LOAD_AND_STORE
    case DeadStore => a != UNKNOWN
  }

  /** The charge of one classified trap. */
  function Settle(w: Witch, leaf: nat, chain: seq<Frame>, v: Verdict, inc: int): Witch
    requires WellFormed(w.t) && leaf < |w.t|
  {
    match v
    case Red => ChargePair(w, leaf, chain, RED, inc)
    case Approx => ChargePair(w, leaf, chain, APPROX, inc)
    case Used => ChargeUsed(w, leaf, inc)
    case _ => w
  }

  /** RedSpy and LoadSpy: classified first, then caught up. */
  ghost function OnSpyTrap(w: Witch, tr: Trap, leaf: nat): Witch
    requires Mapped(w) && leaf < |w.t|
  {
    var v := Judge(tr.cur, tr.sample, tr.va, tr.watchLen, tr.close);
    if v == NoOverlap || v == BadOffset then w
    else
      var (w1, diff) := CatchUp(w, leaf);
      var inc := diff * tr.sample.len;
      var w2 := w1.(bytes := w1.bytes + inc);
      if inc == 0 then w2 else Settle(w2, leaf, tr.cur.chain, v, inc)
  }

  /** DeadStore: caught up before the overlap test. */
  function OnDeadTrap(w: Witch, tr: Trap, leaf: nat): Witch
    requires Mapped(w) && leaf < |w.t|
  {
    var (w1, diff) := CatchUp(w, leaf);
    var inc := diff * tr.sample.len;
    var w2 := w1.(bytes := w1.bytes + inc);
    if ToInt(WatchOverlap(tr.cur, tr.sample, tr.va, tr.watchLen)) <= 0 then w2.(lost := w2.lost + inc)
    else if tr.cur.access == STORE then ChargePair(w2, leaf, tr.cur.chain, DEAD, inc)
    else ChargeUsed(w2, leaf, inc)
  }

  /** Witch_OnWP_Callback of a tool; `inst` is the per-instruction build. */
  ghost function OnTrap(tool: Tool, inst: bool, w: Witch, tr: Trap): (r: (Witch, Action))
    requires Mapped(w)
  {
    if !Wants(tool, tr.cur.access) then
      if tool == DeadStore then (Forget(w, tr.sample.id), Disable) else (w, Retain)
    else if inst && tr.sample.fixedIP != tr.cur.fixedIP then (w, Disable)
    else if tr.sample.id !in w.leafOf then (w, Disable)
    else
      var leaf := w.leafOf[tr.sample.id];
      (Forget(if tool == DeadStore then OnDeadTrap(w, tr, leaf) else OnSpyTrap(w, tr, leaf), tr.sample.id), Disable)
  }

  /** The sum of a metric over the nodes below `n` that lie in `s`. */
  ghost function Sum(t: Tree, k: Kind, s: set<nat>, n: nat): int
    requires n <= |t|
  {
    if n == 0 then 0 else Sum(t, k, s, n - 1) + if n - 1 in s then t[n - 1].metrics.Get(k) else 0
  }

  ghost function Upto(n: nat): (r: set<nat>)
    ensures forall i: nat :: i in r <==> i < n
  {
    if n == 0 then {} else Upto(n - 1) + {n - 1}
  }

  ghost function All(t: Tree): set<nat> {
    Upto(|t|)
  }

  ghost function Whole(t: Tree, k: Kind): int {
    Sum(t, k, All(t), |t|)
  }

  /** New nodes add nothing to a sum. */
  lemma {:induction false} SumKept(t: Tree, t': Tree, k: Kind, s: set<nat>, s': set<nat>, n: nat)
    requires Extends(t, t') && n <= |t'|
    requires forall i :: 0 <= i < |t| ==> (i in s <==> i in s')
    ensures Sum(t', k, s', n) == Sum(t, k, s, if n <= |t| then n else |t|)
    decreases n
  {
    if n > 0 {
      SumKept(t, t', k, s, s', n - 1);
    }
  }

  lemma {:induction false} SumBumped(t: Tree, m: nat, kind: Kind, d: int, k: Kind, s: set<nat>, n: nat)
    requires m < |t| && n <= |t|
    ensures Sum(Bump(t, m, kind, d), k, s, n) == Sum(t, k, s, n) + if k == kind && m in s && m < n then d else 0
    decreases n
  {
    if n > 0 {
      SumBumped(t, m, kind, d, k, s, n - 1);
    }
  }

  lemma BumpKeepsWellFormed(t: Tree, m: nat, k: Kind, d: int)
    requires WellFormed(t) && m < |t|
    ensures WellFormed(Bump(t, m, k, d))
    ensures Grows(t, Bump(t, m, k, d))
  {
    var t' := Bump(t, m, k, d);
    forall n: nat | n < |t'| ensures NodeOk(t', n) {
      assert NodeOk(t, n);
      assert t'[n].children == t[n].children && t'[n].parent == t[n].parent && t'[n].frame == t[n].frame;
      assert t[n].parent >= 0 ==> t'[t[n].parent].children == t[t[n].parent].children;
      assert SiblingsDiffer(t', n);
    }
  }

  /** A pair adds `inc` to both ends: twice to the sum over all nodes. */
  lemma ChargePairSums(w: Witch, leaf: nat, chain: seq<Frame>, kind: Kind, inc: int, k: Kind)
    requires WellFormed(w.t) && leaf < |w.t|
    ensures WellFormed(ChargePair(w, leaf, chain, kind, inc).t) && |w.t| <= |ChargePair(w, leaf, chain, kind, inc).t|
    ensures Whole(ChargePair(w, leaf, chain, kind, inc).t, k) == Whole(w.t, k) + if k == kind then 2 * inc else 0
  {
    AddFramesReadsBack(w.t, leaf, chain);
    var (t', watchLeaf) := AddFrames(w.t, leaf, chain);
    SumKept(w.t, t', k, All(w.t), All(t'), |t'|);
    BumpKeepsWellFormed(t', watchLeaf, kind, inc);
    SumBumped(t', watchLeaf, kind, inc, k, All(t'), |t'|);
    var t2 := Bump(t', watchLeaf, kind, inc);
    assert All(t2) == All(t');
    BumpKeepsWellFormed(t2, leaf, kind, inc);
    SumBumped(t2, leaf, kind, inc, k, All(t2), |t2|);
    assert All(Bump(t2, leaf, kind, inc)) == All(t2);
  }

  lemma ChargeUsedSums(w: Witch, leaf: nat, inc: int, k: Kind)
    requires WellFormed(w.t) && leaf < |w.t|
    ensures WellFormed(ChargeUsed(w, leaf, inc).t)
    ensures Whole(ChargeUsed(w, leaf, inc).t, k) == Whole(w.t, k) + if k == USED then inc else 0
  {
    BumpKeepsWellFormed(w.t, leaf, USED, inc);
    SumBumped(w.t, leaf, USED, inc, k, All(w.t), |w.t|);
    assert All(Bump(w.t, leaf, USED, inc)) == All(w.t);
  }

  /** A metric summed over all nodes against its global total. */
  ghost predicate Balanced(w: Witch) {
    && Whole(w.t, RED) == 2 * w.totals.red
    && Whole(w.t, APPROX) == 2 * w.totals.approx
    && Whole(w.t, DEAD) == 2 * w.totals.dead
    && Whole(w.t, USED) == w.totals.used
  }

  /** A context is charged for each of its samples once, and never for more than it has had. */
  ghost predicate Charged(w: Witch) {
    && w.charged.Keys == w.table.Keys
    && (forall n :: n in w.table ==> w.table[n].catchup <= w.table[n].cur && w.charged[n] == THRESHOLD * w.table[n].catchup)
  }

  /** Every byte charged went to one total, or was lost by DeadStore. */
  ghost predicate Spent(tool: Tool, w: Witch) {
    && w.bytes == w.totals.used + w.totals.red + w.totals.approx + w.totals.dead + w.lost
    && (tool != DeadStore ==> w.lost == 0 && w.totals.dead == 0)
    && (tool == DeadStore ==> w.totals.red == 0 && w.totals.approx == 0)
  }

  ghost predicate Inv(tool: Tool, w: Witch) {
    Mapped(w) && Balanced(w) && Charged(w) && Spent(tool, w)
  }

  lemma SampleKeepsInv(tool: Tool, w: Witch, ev: Event)
    requires Inv(tool, w)
    ensures Inv(tool, OnSample(w, ev).0)
  {
    hide NodeOk, AddFrames, Extends;
    AddFramesReadsBack(w.t, 0, Reverse(ev.chain));
    var t' := AddFrames(w.t, 0, Reverse(ev.chain)).0;
    WholeKept(w.t, t');
    ExtendsGrows(w.t, t');
  }

  lemma WholeKept(t: Tree, t': Tree)
    requires Extends(t, t')
    ensures forall k :: Whole(t', k) == Whole(t, k)
  {
    forall k ensures Whole(t', k) == Whole(t, k) {
      SumKept(t, t', k, All(t), All(t'), |t'|);
    }
  }

  lemma ExtendsGrows(t: Tree, t': Tree)
    requires Extends(t, t')
    ensures |t| <= |t'|
  {
  }

  lemma CatchUpKeeps(tool: Tool, w: Witch, leaf: nat)
    requires Inv(tool, w)
    ensures Inv(tool, CatchUp(w, leaf).0) && CatchUp(w, leaf).0.t == w.t
    ensures leaf in w.table ==> CatchUp(w, leaf).1 == (w.table[leaf].cur - w.table[leaf].catchup) * THRESHOLD >= 0
  {
    hide WellFormed, Whole;
  }

  lemma ChargePairKeeps(tool: Tool, w: Witch, leaf: nat, chain: seq<Frame>, k: Kind, inc: int)
    requires Inv(tool, w) && leaf < |w.t| && (if tool == DeadStore then k == DEAD else k == RED || k == APPROX)
    ensures var w' := ChargePair(w, leaf, chain, k, inc);
            Inv(tool, w'.(bytes := w.bytes + inc))
  {
    hide WellFormed, Whole, AddFrames;
    ChargePairSums(w, leaf, chain, k, inc, RED);
    ChargePairSums(w, leaf, chain, k, inc, APPROX);
    ChargePairSums(w, leaf, chain, k, inc, DEAD);
    ChargePairSums(w, leaf, chain, k, inc, USED);
  }

  lemma ChargeUsedKeeps(tool: Tool, w: Witch, leaf: nat, inc: int)
    requires Inv(tool, w) && leaf < |w.t|
    ensures Inv(tool, ChargeUsed(w, leaf, inc).(bytes := w.bytes + inc))
  {
    hide WellFormed, Whole, AddFrames;
    ChargeUsedSums(w, leaf, inc, RED);
    ChargeUsedSums(w, leaf, inc, APPROX);
    ChargeUsedSums(w, leaf, inc, DEAD);
    ChargeUsedSums(w, leaf, inc, USED);
  }

  lemma SpyTrapKeeps(tool: Tool, w: Witch, tr: Trap, leaf: nat)
    requires Inv(tool, w) && leaf < |w.t| && tool != DeadStore
    ensures Inv(tool, OnSpyTrap(w, tr, leaf))
  {
    hide WellFormed, Judge, Inv, ChargePair, ChargeUsed, CatchUp;
    var (w1, diff) := CatchUp(w, leaf);
    var inc := diff * tr.sample.len;
    CatchUpKeeps(tool, w, leaf);
    InvParts(tool, w);
    InvParts(tool, w1);
    var v := Judge(tr.cur, tr.sample, tr.va, tr.watchLen, tr.close);
    ChargesCommute(w1, leaf, tr.cur.chain, if v == Red then RED else APPROX, inc, w1.bytes + inc);
    ChargePairKeeps(tool, w1, leaf, tr.cur.chain, if v == Red then RED else APPROX, inc);
    ChargeUsedKeeps(tool, w1, leaf, inc);
    assert inc == 0 ==> w1.(bytes := w1.bytes + inc) == w1;
  }

  lemma InvParts(tool: Tool, w: Witch)
    requires Inv(tool, w)
    ensures Mapped(w) && WellFormed(w.t)
  {
  }

  lemma ChargesCommute(w: Witch, leaf: nat, chain: seq<Frame>, k: Kind, inc: int, b: int)
    requires WellFormed(w.t) && leaf < |w.t|
    ensures ChargePair(w.(bytes := b), leaf, chain, k, inc) == ChargePair(w, leaf, chain, k, inc).(bytes := b)
    ensures ChargeUsed(w.(bytes := b), leaf, inc) == ChargeUsed(w, leaf, inc).(bytes := b)
  {
  }

  lemma DeadTrapKeeps(w: Witch, tr: Trap, leaf: nat)
    requires Inv(DeadStore, w) && leaf < |w.t|
    ensures Inv(DeadStore, OnDeadTrap(w, tr, leaf))
  {
    hide WellFormed, WatchOverlap, ToInt, Inv, ChargePair, ChargeUsed, CatchUp;
    var (w1, diff) := CatchUp(w, leaf);
    var inc := diff * tr.sample.len;
    CatchUpKeeps(DeadStore, w, leaf);
    InvParts(DeadStore, w);
    InvParts(DeadStore, w1);
    ChargesCommute(w1, leaf, tr.cur.chain, DEAD, inc, w1.bytes + inc);
    ChargePairKeeps(DeadStore, w1, leaf, tr.cur.chain, DEAD, inc);
    ChargeUsedKeeps(DeadStore, w1, leaf, inc);
    LoseKeeps(w1, inc);
  }

  lemma LoseKeeps(w: Witch, inc: int)
    requires Inv(DeadStore, w)
    ensures Inv(DeadStore, w.(bytes := w.bytes + inc, lost := w.lost + inc))
  {
    hide WellFormed, Whole;
  }

  lemma ForgetKeeps(tool: Tool, w: Witch, id: int)
    requires Inv(tool, w)
    ensures Inv(tool, Forget(w, id))
  {
    hide WellFormed, Whole;
  }

  lemma TrapKeepsInv(tool: Tool, inst: bool, w: Witch, tr: Trap)
    requires Inv(tool, w)
    ensures Mapped(w) && Inv(tool, OnTrap(tool, inst, w, tr).0)
  {
    hide WellFormed, Inv, Forget, OnSpyTrap, OnDeadTrap;
    InvParts(tool, w);
    var id := tr.sample.id;
    ForgetKeeps(tool, w, id);
    if id in w.leafOf {
      var leaf := w.leafOf[id];
      if tool == DeadStore {
        DeadTrapKeeps(w, tr, leaf);
        ForgetKeeps(tool, OnDeadTrap(w, tr, leaf), id);
      } else {
        SpyTrapKeeps(tool, w, tr, leaf);
        ForgetKeeps(tool, OnSpyTrap(w, tr, leaf), id);
      }
    }
  }
}
