/** Which nodes the roll-up of a per-instruction build leaves out: the chains hung below sampled leaves by
    traps, and nothing else. */
module CutOff {
  import opened Common
  import opened Overlap
  import opened ContextTrie
  import opened Attribution
  import opened RollUp
  import opened WitchRuns
  import opened InstRollUp

  /** `a` hangs below a sampled leaf and has its address: where a trap's chain begins. */
  ghost predicate BeginsAtLeaf(w: Witch, a: nat)
    requires a < |w.t|
  {
    Pruned(w.t, a) && w.t[a].parent in w.table
  }

  ghost predicate AtOrBelow(t: Tree, a: nat, n: nat)
    requires WellFormed(t) && n < |t|
    decreases n
  {
    assert NodeOk(t, n);
    n == a || (n > 0 && AtOrBelow(t, a, t[n].parent))
  }

  ghost predicate CutAtLeaf(w: Witch, i: nat)
    requires WellFormed(w.t) && i < |w.t|
  {
    Pruned(w.t, i) && w.t[i].parent in Live(w.t) ==> w.t[i].parent in w.table
  }

  /** A node pruned below a live one begins a trap's chain. */
  ghost predicate CutOnlyAtLeaves(w: Witch)
    requires WellFormed(w.t)
  {
    forall i: nat :: i < |w.t| ==> CutAtLeaf(w, i)
  }

  /** The new nodes are children of `leaf` or lie below what is cut off. */
  ghost predicate HangsBelow(t: Tree, t': Tree, leaf: nat)
    requires WellFormed(t')
  {
    Grows(t, t') && forall i :: |t| <= i < |t'| ==> t'[i].parent == leaf || t'[i].parent !in Live(t')
  }

  /** An insertion without repeats adds no pruned node. */
  lemma {:induction false} AddsUnpruned(t: Tree, n: nat, fs: seq<Frame>)
    requires WellFormed(t) && n < |t| && NoRepeats(t[n].frame.addr, fs)
    ensures forall i: nat :: |t| <= i < |AddFrames(t, n, fs).0| ==> !Pruned(AddFrames(t, n, fs).0, i)
    decreases |fs|
  {
    if fs != [] {
      AddFrameKeepsWellFormed(t, n, fs[0]);
      AddFrameExtends(t, n, fs[0]);
      var (u, c) := AddFrame(t, n, fs[0]);
      AddsUnpruned(u, c, fs[1..]);
      AddFramesReadsBack(u, c, fs[1..]);
      ExtendsIsGrowth(u, AddFrames(u, c, fs[1..]).0);
    }
  }

  /** Below a node that is cut off only such nodes are added. */
  lemma {:induction false} AddsCutOff(t: Tree, n: nat, fs: seq<Frame>)
    requires WellFormed(t) && n < |t| && n !in Live(t)
    ensures WellFormed(AddFrames(t, n, fs).0) && HangsBelow(t, AddFrames(t, n, fs).0, n)
    ensures n !in Live(AddFrames(t, n, fs).0)
    decreases |fs|
  {
    AddFramesReadsBack(t, n, fs);
    GrowthKeepsLive(t, AddFrames(t, n, fs).0);
    if fs != [] {
      AddFrameKeepsWellFormed(t, n, fs[0]);
      AddFrameExtends(t, n, fs[0]);
      var (u, c) := AddFrame(t, n, fs[0]);
      CutOffBelow(t, n, [fs[0]]);
      GrowthKeepsLive(t, u);
      assert c !in Live(u) by { assert NodeOk(u, c); }
      AddsCutOff(u, c, fs[1..]);
    }
  }

  lemma ChainHangs(t: Tree, leaf: nat, fs: seq<Frame>)
    requires WellFormed(t) && leaf < |t| && fs != [] && fs[0].addr == t[leaf].frame.addr
    ensures WellFormed(AddFrames(t, leaf, fs).0) && HangsBelow(t, AddFrames(t, leaf, fs).0, leaf)
  {
    AddFrameKeepsWellFormed(t, leaf, fs[0]);
    AddFrameExtends(t, leaf, fs[0]);
    var (u, c) := AddFrame(t, leaf, fs[0]);
    assert Pruned(u, c) && c !in Live(u);
    AddsCutOff(u, c, fs[1..]);
  }

  lemma BumpHangs(t: Tree, t': Tree, leaf: nat, m: nat, k: Kind, d: int)
    requires WellFormed(t') && HangsBelow(t, t', leaf) && m < |t'|
    ensures WellFormed(Bump(t', m, k, d)) && HangsBelow(t, Bump(t', m, k, d), leaf)
  {
    BumpKeepsWellFormed(t', m, k, d);
    LiveSumBumped(t', m, k, d, k);
  }

  lemma ChargesHang(w: Witch, leaf: nat, chain: seq<Frame>, k: Kind, inc: int)
    requires WellFormed(w.t) && leaf < |w.t| && chain != [] && chain[0].addr == w.t[leaf].frame.addr
    ensures WellFormed(ChargePair(w, leaf, chain, k, inc).t) && HangsBelow(w.t, ChargePair(w, leaf, chain, k, inc).t, leaf)
    ensures WellFormed(ChargeUsed(w, leaf, inc).t) && HangsBelow(w.t, ChargeUsed(w, leaf, inc).t, leaf)
  {
    hide WellFormed, Live, AddFrames, Bump;
    AddFramesReadsBack(w.t, leaf, chain);
    ChainHangs(w.t, leaf, chain);
    var (t', watchLeaf) := AddFrames(w.t, leaf, chain);
    BumpHangs(w.t, t', leaf, watchLeaf, k, inc);
    BumpHangs(w.t, Bump(t', watchLeaf, k, inc), leaf, leaf, k, inc);
    BumpHangs(w.t, w.t, leaf, leaf, USED, inc);
  }

  lemma TrapHangs(tool: Tool, w: Witch, tr: Trap)
    requires LiveInv(w) && Tame(w, Trapped(tr)) && WellFormed(OnTrap(tool, true, w, tr).0.t)
    ensures OnTrap(tool, true, w, tr).0.t == w.t
            || (tr.sample.id in w.leafOf && HangsBelow(w.t, OnTrap(tool, true, w, tr).0.t, w.leafOf[tr.sample.id]))
  {
    hide WellFormed, Live, LiveSum, Judge, ChargePair, ChargeUsed, WatchOverlap, ToInt, HangsBelow;
    var id := tr.sample.id;
    if id in w.leafOf && tr.sample.fixedIP == tr.cur.fixedIP {
      var leaf := w.leafOf[id];
      assert LeafIs(w.t, leaf, w.ipOf[id]);
      var (w1, diff) := CatchUp(w, leaf);
      var inc := diff * tr.sample.len;
      var w2 := w1.(bytes := w1.bytes + inc);
      ChargesHang(w2, leaf, tr.cur.chain, RED, inc);
      ChargesHang(w2, leaf, tr.cur.chain, APPROX, inc);
      ChargesHang(w2, leaf, tr.cur.chain, DEAD, inc);
    }
  }

  lemma TrapKeepsCut(tool: Tool, w: Witch, tr: Trap)
    requires LiveInv(w) && CutOnlyAtLeaves(w) && Tame(w, Trapped(tr))
    requires Mapped(OnTrap(tool, true, w, tr).0) && Framed(w, OnTrap(tool, true, w, tr).0)
    ensures CutOnlyAtLeaves(OnTrap(tool, true, w, tr).0)
  {
    hide WellFormed, Live, LiveTotals, OnTrap;
    TrapHangs(tool, w, tr);
    var w' := OnTrap(tool, true, w, tr).0;
    GrowthKeepsLive(w.t, w'.t);
    forall i: nat | i < |w'.t| ensures CutAtLeaf(w', i) {
      if i < |w.t| {
        assert CutAtLeaf(w, i);
        ParentBefore(w.t, i);
      }
    }
  }

  lemma ParentBefore(t: Tree, i: nat)
    requires WellFormed(t) && i < |t|
    ensures t[i].parent < i
  {
    assert NodeOk(t, i);
  }

  lemma SampleKeepsCut(w: Witch, ev: Event)
    requires LiveInv(w) && CutOnlyAtLeaves(w) && Tame(w, Sampled(ev)) && Mapped(OnSample(w, ev).0)
    ensures CutOnlyAtLeaves(OnSample(w, ev).0)
  {
    hide WellFormed, Live, LiveTotals, AddFrames;
    var path := Reverse(ev.chain);
    RootLive(w.t);
    AddFramesReadsBack(w.t, 0, path);
    var w' := OnSample(w, ev).0;
    ExtendsIsGrowth(w.t, w'.t);
    GrowthKeepsLive(w.t, w'.t);
    AddsUnpruned(w.t, 0, path);
    forall i: nat | i < |w'.t| ensures CutAtLeaf(w', i) {
      if i < |w.t| {
        assert CutAtLeaf(w, i);
        ParentBefore(w.t, i);
      }
    }
  }

  lemma {:induction false} TameRunsCut(tool: Tool, steps: seq<Step>)
    requires TameRun(tool, steps)
    ensures WellFormed(Run(tool, true, steps).t) && CutOnlyAtLeaves(Run(tool, true, steps))
    decreases |steps|
  {
    hide WellFormed, LiveInv, CutOnlyAtLeaves, OnTrap, OnSample, Framed, Tame;
    if steps == [] {
      StartCut();
    } else {
      var before, st := steps[..|steps| - 1], steps[|steps| - 1];
      var w := Run(tool, true, before);
      TameRunsCut(tool, before);
      TameRunsLive(tool, before);
      InvParts(tool, w);
      InvParts(tool, Run(tool, true, steps));
      match st
      case Sampled(ev) => SampleKeepsCut(w, ev);
      case Trapped(tr) =>
        TrapFrames(tool, true, w, tr);
        TrapKeepsCut(tool, w, tr);
    }
  }

  lemma StartCut()
    ensures WellFormed(START.t) && CutOnlyAtLeaves(START)
  {
    StartInv(RedSpy);
  }

  /** What is not live lies at or below the begin of a trap's chain. */
  lemma {:induction false} CutOffHasBegin(w: Witch, n: nat) returns (a: nat)
    requires WellFormed(w.t) && CutOnlyAtLeaves(w) && n < |w.t| && n !in Live(w.t)
    ensures a < |w.t| && BeginsAtLeaf(w, a) && AtOrBelow(w.t, a, n)
    decreases n
  {
    assert NodeOk(w.t, n) && CutAtLeaf(w, n);
    RootLive(w.t);
    if w.t[n].parent in Live(w.t) {
      a := n;
    } else {
      a := CutOffHasBegin(w, w.t[n].parent);
    }
  }

  lemma {:induction false} BelowPruned(t: Tree, a: nat, n: nat)
    requires WellFormed(t) && a < |t| && n < |t| && Pruned(t, a) && AtOrBelow(t, a, n)
    ensures n !in Live(t)
    decreases n
  {
    assert NodeOk(t, n) && NodeOk(t, a);
    if n != a {
      BelowPruned(t, a, t[n].parent);
    }
  }

  /** In every tame run of a per-instruction build the nodes the roll-up cuts off are exactly those at or
      below the begin of a trap's chain. */
  lemma CutOffExactly(tool: Tool, steps: seq<Step>, n: nat)
    requires TameRun(tool, steps) && n < |Run(tool, true, steps).t|
    ensures var w := Run(tool, true, steps);
            WellFormed(w.t) && (n !in Live(w.t) <==> exists a: nat :: a < |w.t| && BeginsAtLeaf(w, a) && AtOrBelow(w.t, a, n))
  {
    hide Run, TameRun, WellFormed, CutOnlyAtLeaves, Live, Pruned;
    TameRunsCut(tool, steps);
    var w := Run(tool, true, steps);
    if n !in Live(w.t) {
      var a := CutOffHasBegin(w, n);
    } else {
      forall a: nat | a < |w.t| && BeginsAtLeaf(w, a) ensures !AtOrBelow(w.t, a, n) {
        if AtOrBelow(w.t, a, n) {
          BelowPruned(w.t, a, n);
        }
      }
    }
  }
}
