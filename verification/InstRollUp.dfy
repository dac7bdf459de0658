/** The per-instruction builds: traps are charged only when sample and trap have one instruction
    pointer, so the roll-up prunes exactly the chains hung below sampled leaves, and the root ends up
    with the global totals. */
module InstRollUp {
  import opened Common
  import opened Overlap
  import opened ContextTrie
  import opened Attribution
  import opened RollUp
  import opened WitchRuns

  /** No two adjacent frames have equal addresses, counting the address above the first. */
  predicate NoRepeats(above: int, fs: seq<Frame>)
    decreases |fs|
  {
    fs == [] || (fs[0].addr != above && NoRepeats(fs[0].addr, fs[1..]))
  }

  /** A call chain whose front frame carries the event's fixed instruction pointer. */
  predicate FrontIsFixed(ev: Event) {
    ev.chain != [] && ev.chain[0].addr == ev.fixedIP
  }

  /** What the roll-up relies on: sampled chains without adjacent equal addresses, counting the root's 0,
      trap chains that are not empty, and the event of a trap being the one sampled under its id. */
  predicate Tame(w: Witch, st: Step) {
    match st
    case Sampled(ev) => ev.chain != [] ==> FrontIsFixed(ev) && NoRepeats(0, Reverse(ev.chain))
    case Trapped(tr) =>
      && FrontIsFixed(tr.cur)
      && (tr.sample.id in w.leafOf && tr.sample.id in w.ipOf ==> tr.sample.fixedIP == w.ipOf[tr.sample.id])
  }

  ghost predicate TameRun(tool: Tool, steps: seq<Step>) {
    steps == [] || (TameRun(tool, steps[..|steps| - 1]) && Tame(Run(tool, true, steps[..|steps| - 1]), steps[|steps| - 1]))
  }

  ghost function Live(t: Tree): set<nat>
    requires WellFormed(t)
  {
    Under(t, 0)
  }

  ghost function LiveSum(t: Tree, k: Kind): int
    requires WellFormed(t)
  {
    Sum(t, k, Live(t), |t|)
  }

  ghost predicate LiveTotals(w: Witch)
    requires WellFormed(w.t)
  {
    LiveSum(w.t, RED) == w.totals.red && LiveSum(w.t, USED) == w.totals.used && LiveSum(w.t, DEAD) == w.totals.dead
  }

  /** The unpruned nodes carry the totals once, and every sampled leaf is one of them. */
  ghost predicate LiveInv(w: Witch) {
    && Mapped(w) && LiveTotals(w)
    && (forall id :: id in w.leafOf ==> id in w.ipOf && LeafIs(w.t, w.leafOf[id], w.ipOf[id]))
  }

  ghost predicate LeafIs(t: Tree, leaf: nat, ip: int)
    requires WellFormed(t)
  {
    leaf < |t| && leaf in Live(t) && t[leaf].frame.addr == ip
  }

  lemma {:induction false} GrowthKeepsReach(t: Tree, t': Tree, i: nat)
    requires WellFormed(t) && WellFormed(t') && Grows(t, t') && i < |t|
    ensures Reaches(t', 0, i) == Reaches(t, 0, i)
    decreases i
  {
    assert NodeOk(t, i);
    if i > 0 {
      GrowthKeepsReach(t, t', t[i].parent);
    }
  }

  lemma GrowthKeepsLive(t: Tree, t': Tree)
    requires WellFormed(t) && WellFormed(t') && Grows(t, t')
    ensures forall i: nat :: i < |t| ==> (i in Live(t') <==> i in Live(t))
  {
    forall i: nat | i < |t| ensures Reaches(t', 0, i) == Reaches(t, 0, i) {
      GrowthKeepsReach(t, t', i);
    }
  }

  lemma LiveSumKept(t: Tree, t': Tree, k: Kind)
    requires WellFormed(t) && WellFormed(t') && Extends(t, t')
    ensures LiveSum(t', k) == LiveSum(t, k)
  {
    GrowthKeepsLive(t, t');
    SumKept(t, t', k, Live(t), Live(t'), |t'|);
  }

  lemma LiveSumBumped(t: Tree, m: nat, kind: Kind, d: int, k: Kind)
    requires WellFormed(t) && m < |t| && WellFormed(Bump(t, m, kind, d))
    ensures LiveSum(Bump(t, m, kind, d), k) == LiveSum(t, k) + if k == kind && m in Live(t) then d else 0
    ensures Live(Bump(t, m, kind, d)) == Live(t)
  {
    BumpKeepsWellFormed(t, m, kind, d);
    GrowthKeepsLive(t, Bump(t, m, kind, d));
    assert Live(Bump(t, m, kind, d)) == Live(t);
    SumBumped(t, m, kind, d, k, Live(t), |t|);
  }

  /** Below a node that is cut off, every insertion ends in one that is cut off. */
  lemma {:induction false} CutOffBelow(t: Tree, n: nat, fs: seq<Frame>)
    requires WellFormed(t) && n < |t| && n !in Live(t)
    ensures var (t', leaf) := AddFrames(t, n, fs);
            WellFormed(t') && leaf < |t'| && leaf !in Live(t')
    decreases |fs|
  {
    if fs != [] {
      AddFrameKeepsWellFormed(t, n, fs[0]);
      AddFrameExtends(t, n, fs[0]);
      var (u, c) := AddFrame(t, n, fs[0]);
      GrowthKeepsLive(t, u);
      CutOffBelow(u, c, fs[1..]);
    }
  }

  /** A chain whose first address is that of the node it hangs below is cut off at once. */
  lemma TrapChainCutOff(t: Tree, n: nat, fs: seq<Frame>)
    requires WellFormed(t) && n < |t| && fs != [] && fs[0].addr == t[n].frame.addr
    ensures var (t', leaf) := AddFrames(t, n, fs);
            WellFormed(t') && leaf < |t'| && leaf !in Live(t')
  {
    AddFrameKeepsWellFormed(t, n, fs[0]);
    AddFrameExtends(t, n, fs[0]);
    var (u, c) := AddFrame(t, n, fs[0]);
    assert Pruned(u, c);
    CutOffBelow(u, c, fs[1..]);
  }

  /** A chain without repeats hung below a live node ends in a live leaf. */
  lemma {:induction false} ChainLive(t: Tree, n: nat, fs: seq<Frame>)
    requires WellFormed(t) && n < |t| && n in Live(t) && NoRepeats(t[n].frame.addr, fs)
    ensures var (t', leaf) := AddFrames(t, n, fs);
            && WellFormed(t') && leaf < |t'| && leaf in Live(t')
            && (fs != [] ==> t'[leaf].frame == fs[|fs| - 1])
    decreases |fs|
  {
    if fs != [] {
      AddFrameKeepsWellFormed(t, n, fs[0]);
      AddFrameExtends(t, n, fs[0]);
      var (u, c) := AddFrame(t, n, fs[0]);
      GrowthKeepsLive(t, u);
      assert NodeOk(u, c);
      ChainLive(u, c, fs[1..]);
      if fs[1..] != [] {
        assert fs[1..][|fs[1..]| - 1] == fs[|fs| - 1];
      }
    }
  }

  /** Of a pair, only the sampled leaf counts among the live nodes. */
  lemma ChargePairLive(w: Witch, leaf: nat, chain: seq<Frame>, kind: Kind, inc: int, k: Kind)
    requires WellFormed(w.t) && leaf < |w.t| && leaf in Live(w.t) && chain != [] && chain[0].addr == w.t[leaf].frame.addr
    ensures WellFormed(ChargePair(w, leaf, chain, kind, inc).t)
    ensures LiveSum(ChargePair(w, leaf, chain, kind, inc).t, k) == LiveSum(w.t, k) + if k == kind then inc else 0
  {
    hide WellFormed, Live, LiveSum, AddFrames, Bump;
    AddFramesReadsBack(w.t, leaf, chain);
    TrapChainCutOff(w.t, leaf, chain);
    var (t', watchLeaf) := AddFrames(w.t, leaf, chain);
    LiveSumKept(w.t, t', k);
    GrowthKeepsLive(w.t, t');
    BumpKeepsWellFormed(t', watchLeaf, kind, inc);
    LiveSumBumped(t', watchLeaf, kind, inc, k);
    var t2 := Bump(t', watchLeaf, kind, inc);
    BumpKeepsWellFormed(t2, leaf, kind, inc);
    LiveSumBumped(t2, leaf, kind, inc, k);
  }

  lemma ChargePairLiveTotals(w: Witch, leaf: nat, chain: seq<Frame>, kind: Kind, inc: int)
    requires WellFormed(w.t) && leaf < |w.t| && leaf in Live(w.t) && chain != [] && chain[0].addr == w.t[leaf].frame.addr
    requires LiveTotals(w) && kind != USED
    ensures var w' := ChargePair(w, leaf, chain, kind, inc);
            WellFormed(w'.t) && LiveTotals(w')
  {
    hide WellFormed, Live, LiveSum, AddFrames, Bump;
    ChargePairLive(w, leaf, chain, kind, inc, RED);
    ChargePairLive(w, leaf, chain, kind, inc, USED);
    ChargePairLive(w, leaf, chain, kind, inc, DEAD);
  }

  lemma ChargeUsedLiveTotals(w: Witch, leaf: nat, inc: int)
    requires WellFormed(w.t) && leaf < |w.t| && leaf in Live(w.t) && LiveTotals(w)
    ensures var w' := ChargeUsed(w, leaf, inc);
            WellFormed(w'.t) && LiveTotals(w')
  {
    hide WellFormed, Live, LiveSum, Bump;
    BumpKeepsWellFormed(w.t, leaf, USED, inc);
    LiveSumBumped(w.t, leaf, USED, inc, RED);
    LiveSumBumped(w.t, leaf, USED, inc, USED);
    LiveSumBumped(w.t, leaf, USED, inc, DEAD);
  }

  lemma SpyTrapLiveTotals(w: Witch, tr: Trap, leaf: nat)
    requires Mapped(w) && leaf < |w.t| && leaf in Live(w.t) && LiveTotals(w)
    requires tr.cur.chain != [] && tr.cur.chain[0].addr == w.t[leaf].frame.addr
    ensures WellFormed(OnSpyTrap(w, tr, leaf).t) && LiveTotals(OnSpyTrap(w, tr, leaf))
  {
    hide WellFormed, Live, LiveSum, Judge, ChargePair, ChargeUsed;
    var (w1, diff) := CatchUp(w, leaf);
    var inc := diff * tr.sample.len;
    var w2 := w1.(bytes := w1.bytes + inc);
    ChargePairLiveTotals(w2, leaf, tr.cur.chain, RED, inc);
    ChargePairLiveTotals(w2, leaf, tr.cur.chain, APPROX, inc);
    ChargeUsedLiveTotals(w2, leaf, inc);
  }

  lemma DeadTrapLiveTotals(w: Witch, tr: Trap, leaf: nat)
    requires Mapped(w) && leaf < |w.t| && leaf in Live(w.t) && LiveTotals(w)
    requires tr.cur.chain != [] && tr.cur.chain[0].addr == w.t[leaf].frame.addr
    ensures WellFormed(OnDeadTrap(w, tr, leaf).t) && LiveTotals(OnDeadTrap(w, tr, leaf))
  {
    hide WellFormed, Live, LiveSum, WatchOverlap, ToInt, ChargePair, ChargeUsed;
    var (w1, diff) := CatchUp(w, leaf);
    var inc := diff * tr.sample.len;
    var w2 := w1.(bytes := w1.bytes + inc);
    ChargePairLiveTotals(w2, leaf, tr.cur.chain, DEAD, inc);
    ChargeUsedLiveTotals(w2, leaf, inc);
  }

  lemma TrapLiveTotals(tool: Tool, w: Witch, tr: Trap)
    requires LiveInv(w) && Tame(w, Trapped(tr))
    ensures WellFormed(OnTrap(tool, true, w, tr).0.t) && LiveTotals(OnTrap(tool, true, w, tr).0)
  {
    hide WellFormed, LiveSum, Live, OnSpyTrap, OnDeadTrap;
    var id := tr.sample.id;
    if id in w.leafOf && tr.sample.fixedIP == tr.cur.fixedIP {
      assert LeafIs(w.t, w.leafOf[id], w.ipOf[id]);
      SpyTrapLiveTotals(w, tr, w.leafOf[id]);
      DeadTrapLiveTotals(w, tr, w.leafOf[id]);
    }
  }

  lemma LeavesKept(w: Witch, w': Witch)
    requires LiveInv(w) && Mapped(w') && Framed(w, w') && LiveTotals(w')
    ensures LiveInv(w')
  {
    hide WellFormed, LiveTotals, Live;
    GrowthKeepsLive(w.t, w'.t);
    forall id | id in w'.leafOf ensures id in w'.ipOf && LeafIs(w'.t, w'.leafOf[id], w'.ipOf[id]) {
      assert LeafIs(w.t, w.leafOf[id], w.ipOf[id]);
    }
  }

  lemma SampleKeepsLive(w: Witch, ev: Event)
    requires LiveInv(w) && Tame(w, Sampled(ev)) && Mapped(OnSample(w, ev).0)
    ensures LiveInv(OnSample(w, ev).0)
  {
    hide WellFormed, Live, LiveSum, AddFrames, Extends;
    var path := Reverse(ev.chain);
    RootLive(w.t);
    var (t', leaf) := AddFrames(w.t, 0, path);
    AddFramesReadsBack(w.t, 0, path);
    ExtendsIsGrowth(w.t, t');
    LiveSumKept(w.t, t', RED);
    LiveSumKept(w.t, t', USED);
    LiveSumKept(w.t, t', DEAD);
    GrowthKeepsLive(w.t, t');
    if ev.chain != [] {
      ChainLive(w.t, 0, path);
    } else {
      LeafOfPath(w.t, path);
    }
    var w' := OnSample(w, ev).0;
    forall id | id in w'.leafOf ensures id in w'.ipOf && LeafIs(w'.t, w'.leafOf[id], w'.ipOf[id]) {
      if id != ev.id || leaf == 0 {
        assert LeafIs(w.t, w.leafOf[id], w.ipOf[id]);
      }
    }
  }

  lemma ExtendsIsGrowth(t: Tree, t': Tree)
    requires Extends(t, t')
    ensures Grows(t, t')
  {
  }

  lemma RootLive(t: Tree)
    requires WellFormed(t)
    ensures 0 < |t| && 0 in Live(t) && t[0].frame == ROOT_FRAME
  {
    assert NodeOk(t, 0);
    assert Reaches(t, 0, 0);
  }

  lemma StepKeepsLive(tool: Tool, w: Witch, st: Step)
    requires Inv(tool, w) && LiveInv(w) && Tame(w, st)
    ensures Mapped(w) && LiveInv(Apply(tool, true, w, st))
  {
    hide WellFormed, LiveInv, OnTrap, OnSample, Framed, Tame;
    InvParts(tool, w);
    ApplyKeepsInv(tool, true, w, st);
    InvParts(tool, Apply(tool, true, w, st));
    match st
    case Sampled(ev) => SampleKeepsLive(w, ev);
    case Trapped(tr) =>
      TrapFrames(tool, true, w, tr);
      TrapLiveTotals(tool, w, tr);
      LeavesKept(w, Apply(tool, true, w, st));
  }

  lemma StartLive()
    ensures LiveInv(START)
  {
    StartInv(RedSpy);
    assert Reaches(EMPTY, 0, 0);
    assert Live(EMPTY) == {0};
    forall k ensures LiveSum(EMPTY, k) == 0 {
      assert Sum(EMPTY, k, {0}, 0) == 0 && EMPTY[0].metrics.Get(k) == 0;
    }
  }

  lemma {:induction false} TameRunsLive(tool: Tool, steps: seq<Step>)
    requires TameRun(tool, steps)
    ensures LiveInv(Run(tool, true, steps))
    decreases |steps|
  {
    hide LiveInv, Inv, Apply;
    if steps == [] {
      StartLive();
    } else {
      TameRunsLive(tool, steps[..|steps| - 1]);
      StepKeepsLive(tool, Run(tool, true, steps[..|steps| - 1]), steps[|steps| - 1]);
    }
  }

  /** After the roll-up of a tame run of a per-instruction build, the root holds the global totals. */
  lemma RootHoldsTotals(tool: Tool, steps: seq<Step>, t': Tree)
    requires TameRun(tool, steps)
    requires var t := Run(tool, true, steps).t;
             WellFormed(t) && 0 < |t| && Rolled(t, t', Under(t, 0))
    ensures 0 < |t'| && t'[0].metrics.red == Run(tool, true, steps).totals.red
    ensures t'[0].metrics.used == Run(tool, true, steps).totals.used
  {
    hide Run, TameRun, WellFormed, Sum, Reaches;
    TameRunsLive(tool, steps);
    var t := Run(tool, true, steps).t;
    RootLive(t);
    assert RolledAt(t, t', 0);
  }

  /** Why trap chains must not be empty: such a trap counts a live sampled leaf twice. */
  lemma EmptyChainCountsTwice(w: Witch, leaf: nat, kind: Kind, inc: int)
    requires WellFormed(w.t) && leaf < |w.t| && leaf in Live(w.t)
    ensures var w' := ChargePair(w, leaf, [], kind, inc);
            && WellFormed(w'.t) && w'.totals == w.totals.Plus(kind, inc)
            && LiveSum(w'.t, kind) == LiveSum(w.t, kind) + 2 * inc
  {
    hide WellFormed, Live, LiveSum, Bump;
    BumpKeepsWellFormed(w.t, leaf, kind, inc);
    LiveSumBumped(w.t, leaf, kind, inc, kind);
    var t1 := Bump(w.t, leaf, kind, inc);
    BumpKeepsWellFormed(t1, leaf, kind, inc);
    LiveSumBumped(t1, leaf, kind, inc, kind);
    assert AddFrames(w.t, leaf, []) == (w.t, leaf);
  }

  /** Why sampled chains must not repeat an address: a sampled leaf that is cut off keeps its bytes from
      the root. */
  lemma CutOffLeafUncounted(w: Witch, leaf: nat, chain: seq<Frame>, kind: Kind, inc: int)
    requires WellFormed(w.t) && leaf < |w.t| && leaf !in Live(w.t)
    ensures WellFormed(ChargePair(w, leaf, chain, kind, inc).t)
    ensures LiveSum(ChargePair(w, leaf, chain, kind, inc).t, kind) == LiveSum(w.t, kind)
  {
    hide WellFormed, Live, LiveSum, AddFrames, Bump;
    AddFramesReadsBack(w.t, leaf, chain);
    CutOffBelow(w.t, leaf, chain);
    var (t', watchLeaf) := AddFrames(w.t, leaf, chain);
    LiveSumKept(w.t, t', kind);
    GrowthKeepsLive(w.t, t');
    BumpKeepsWellFormed(t', watchLeaf, kind, inc);
    LiveSumBumped(t', watchLeaf, kind, inc, kind);
    var t2 := Bump(t', watchLeaf, kind, inc);
    BumpKeepsWellFormed(t2, leaf, kind, inc);
    LiveSumBumped(t2, leaf, kind, inc, kind);
  }
}
