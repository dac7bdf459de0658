/** Runs of a Witch tool: what every sequence of samples and traps keeps. */
module WitchRuns {
  import opened Common
  import opened Overlap
  import opened ContextTrie
  import opened Attribution

  datatype Step = Sampled(ev: Event) | Trapped(trap: Trap)

  ghost function Apply(tool: Tool, inst: bool, w: Witch, st: Step): Witch
    requires Mapped(w)
  {
    match st
    case Sampled(ev) => OnSample(w, ev).0
    case Trapped(tr) => OnTrap(tool, inst, w, tr).0
  }

  lemma ApplyKeepsInv(tool: Tool, inst: bool, w: Witch, st: Step)
    requires Inv(tool, w)
    ensures Mapped(w) && Inv(tool, Apply(tool, inst, w, st))
  {
    hide OnSample, OnTrap;
    match st
    case Sampled(ev) => SampleKeepsInv(tool, w, ev);
    case Trapped(tr) => TrapKeepsInv(tool, inst, w, tr);
  }

  lemma StartInv(tool: Tool)
    ensures Inv(tool, START)
  {
    assert NodeOk(EMPTY, 0);
    forall k ensures Whole(EMPTY, k) == 0 {
      assert Sum(EMPTY, k, All(EMPTY), 0) == 0 && EMPTY[0].metrics.Get(k) == 0;
    }
  }

  ghost function Run(tool: Tool, inst: bool, steps: seq<Step>): (w: Witch)
    ensures Inv(tool, w)
  {
    if steps == [] then
      StartInv(tool);
      START
    else
      var w := Run(tool, inst, steps[..|steps| - 1]);
      ApplyKeepsInv(tool, inst, w, steps[|steps| - 1]);
      Apply(tool, inst, w, steps[|steps| - 1])
  }

  /** In every run the metrics agree with the totals: each redundant, approximate or dead byte is on
      exactly two leaves, each used byte on one. */
  lemma MetricsMatchTotals(tool: Tool, inst: bool, steps: seq<Step>)
    ensures var w := Run(tool, inst, steps);
            && Whole(w.t, RED) == 2 * w.totals.red
            && Whole(w.t, APPROX) == 2 * w.totals.approx
            && Whole(w.t, DEAD) == 2 * w.totals.dead
            && Whole(w.t, USED) == w.totals.used
  {
    hide Run;
    var w := Run(tool, inst, steps);
    assert Balanced(w);
  }

  /** Every byte charged is in exactly one total; only DeadStore can lose any. */
  lemma ChargedBytesAreTotalled(tool: Tool, inst: bool, steps: seq<Step>)
    ensures var w := Run(tool, inst, steps);
            && w.bytes == w.totals.used + w.totals.red + w.totals.approx + w.totals.dead + w.lost
            && (tool != DeadStore ==> w.lost == 0)
  {
    hide Run;
    var w := Run(tool, inst, steps);
    assert Spent(tool, w);
  }

  /** The samples of a run taken with this path, from the root down. */
  ghost function Count(steps: seq<Step>, path: seq<Frame>): nat {
    if steps == [] then 0
    else
      var last := steps[|steps| - 1];
      Count(steps[..|steps| - 1], path) + if last.Sampled? && Reverse(last.ev.chain) == path then 1 else 0
  }

  /** `cur_num` counts the samples of its context, and every sampled context has an entry. */
  ghost predicate Tallied(w: Witch, steps: seq<Step>)
    requires Mapped(w)
  {
    && (forall n :: n in w.table ==> n > 0 && w.table[n].cur == Count(steps, PathTo(w.t, n)))
    && (forall p: seq<Frame> :: p != [] && Count(steps, p) > 0 ==> exists n :: n in w.table && PathTo(w.t, n) == p)
  }

  /** What a trap leaves alone: frames, parents, sample counts, and which events are recorded. */
  ghost predicate Framed(w: Witch, w': Witch) {
    && Grows(w.t, w'.t) && w'.table.Keys == w.table.Keys
    && (forall n :: n in w.table ==> w'.table[n].cur == w.table[n].cur)
    && w'.ipOf == w.ipOf
    && (forall id :: id in w'.leafOf ==> id in w.leafOf && w'.leafOf[id] == w.leafOf[id])
  }

  lemma ChargeFrames(w: Witch, leaf: nat, chain: seq<Frame>, k: Kind, inc: int)
    requires Mapped(w) && leaf < |w.t|
    ensures Framed(w, ChargePair(w, leaf, chain, k, inc)) && Framed(w, ChargeUsed(w, leaf, inc))
  {
    hide WellFormed, AddFrames;
    AddFramesReadsBack(w.t, leaf, chain);
  }

  lemma CatchUpFrames(w: Witch, leaf: nat, b: int, l: int)
    requires Mapped(w) && leaf < |w.t|
    ensures var w' := CatchUp(w, leaf).0.(bytes := b, lost := l);
            Mapped(w') && w'.t == w.t && Framed(w, w')
  {
    hide WellFormed;
  }

  lemma FramedTransitive(w: Witch, w1: Witch, w2: Witch)
    requires Framed(w, w1) && Framed(w1, w2)
    ensures Framed(w, w2)
  {
  }

  lemma SpyTrapFrames(w: Witch, tr: Trap, leaf: nat)
    requires Mapped(w) && leaf < |w.t|
    ensures Framed(w, OnSpyTrap(w, tr, leaf))
  {
    hide WellFormed, Judge, ChargePair, ChargeUsed, CatchUp, Framed;
    var (w1, diff) := CatchUp(w, leaf);
    var inc := diff * tr.sample.len;
    var w2 := w1.(bytes := w1.bytes + inc);
    FramedRefl(w);
    CatchUpFrames(w, leaf, w2.bytes, w2.lost);
    ChargeFrames(w2, leaf, tr.cur.chain, RED, inc);
    ChargeFrames(w2, leaf, tr.cur.chain, APPROX, inc);
    FramedTransitive(w, w2, ChargePair(w2, leaf, tr.cur.chain, RED, inc));
    FramedTransitive(w, w2, ChargePair(w2, leaf, tr.cur.chain, APPROX, inc));
    FramedTransitive(w, w2, ChargeUsed(w2, leaf, inc));
  }

  lemma DeadTrapFrames(w: Witch, tr: Trap, leaf: nat)
    requires Mapped(w) && leaf < |w.t|
    ensures Framed(w, OnDeadTrap(w, tr, leaf))
  {
    hide WellFormed, WatchOverlap, ToInt, ChargePair, ChargeUsed, CatchUp, Framed;
    var (w1, diff) := CatchUp(w, leaf);
    var inc := diff * tr.sample.len;
    var w2 := w1.(bytes := w1.bytes + inc);
    CatchUpFrames(w, leaf, w2.bytes, w2.lost);
    CatchUpFrames(w, leaf, w2.bytes, w2.lost + inc);
    ChargeFrames(w2, leaf, tr.cur.chain, DEAD, inc);
    FramedTransitive(w, w2, ChargePair(w2, leaf, tr.cur.chain, DEAD, inc));
    FramedTransitive(w, w2, ChargeUsed(w2, leaf, inc));
  }

  lemma FramedRefl(w: Witch)
    ensures Framed(w, w)
  {
  }

  lemma ForgetFrames(w: Witch, w1: Witch, id: int)
    requires Framed(w, w1)
    ensures Framed(w, Forget(w1, id))
  {
  }

  lemma TrapFrames(tool: Tool, inst: bool, w: Witch, tr: Trap)
    requires Mapped(w)
    ensures Framed(w, OnTrap(tool, inst, w, tr).0)
  {
    hide WellFormed, OnSpyTrap, OnDeadTrap, Framed, Forget;
    var id := tr.sample.id;
    FramedRefl(w);
    ForgetFrames(w, w, id);
    if id in w.leafOf {
      var leaf := w.leafOf[id];
      SpyTrapFrames(w, tr, leaf);
      DeadTrapFrames(w, tr, leaf);
      ForgetFrames(w, OnSpyTrap(w, tr, leaf), id);
      ForgetFrames(w, OnDeadTrap(w, tr, leaf), id);
    }
  }

  lemma TrapKeepsTally(w: Witch, w': Witch, steps: seq<Step>, st: Step)
    requires Mapped(w) && Mapped(w') && Framed(w, w') && Tallied(w, steps) && st.Trapped?
    ensures Tallied(w', steps + [st])
  {
    hide WellFormed, PathTo;
    assert (steps + [st])[..|steps|] == steps;
    forall n | n in w.table ensures PathTo(w'.t, n) == PathTo(w.t, n) {
      PathsKept(w.t, w'.t, n);
    }
    forall p: seq<Frame> | p != [] && Count(steps + [st], p) > 0 ensures exists n :: n in w'.table && PathTo(w'.t, n) == p {
      assert Count(steps, p) > 0;
      var n :| n in w.table && PathTo(w.t, n) == p;
      assert n in w'.table;
    }
  }

  lemma SampleKeepsTally(w: Witch, ev: Event, steps: seq<Step>)
    requires Mapped(w) && Tallied(w, steps) && Mapped(OnSample(w, ev).0)
    ensures Tallied(OnSample(w, ev).0, steps + [Sampled(ev)])
  {
    hide WellFormed, PathTo, AddFrames, Extends;
    var path, all := Reverse(ev.chain), steps + [Sampled(ev)];
    assert all[..|steps|] == steps;
    LeafOfPath(w.t, path);
    var (t', leaf) := AddFrames(w.t, 0, path);
    var w' := OnSample(w, ev).0;
    forall n | n in w.table ensures PathTo(t', n) == PathTo(w.t, n) {
      PathsKept(w.t, t', n);
    }
    forall n | n in w'.table ensures n > 0 && w'.table[n].cur == Count(all, PathTo(w'.t, n)) {
      if n != leaf && PathTo(t', n) == path {
        PathsIdentify(t', n, leaf);
      }
      if n == leaf && n !in w.table && Count(steps, path) > 0 {
        var m :| m in w.table && PathTo(w.t, m) == path;
        PathsIdentify(t', m, leaf);
      }
    }
    forall p: seq<Frame> | p != [] && Count(all, p) > 0 ensures exists n :: n in w'.table && PathTo(w'.t, n) == p {
      if p == path {
        assert leaf in w'.table;
      } else {
        assert Count(steps, p) > 0;
        var n :| n in w.table && PathTo(w.t, n) == p;
        assert n in w'.table;
      }
    }
  }

  lemma LeafOfPath(t: Tree, path: seq<Frame>)
    requires WellFormed(t)
    ensures 0 < |t|
    ensures var (t', leaf) := AddFrames(t, 0, path);
            WellFormed(t') && Grows(t, t') && leaf < |t'| && PathTo(t', leaf) == path && (leaf == 0 <==> path == [])
  {
    AddFramesReadsBack(t, 0, path);
    var (t', leaf) := AddFrames(t, 0, path);
    PathsKept(t, t', 0);
    assert [] + path == path;
  }

  /** No sample is charged twice: what a context has been charged is the sampling period times the
      samples caught up, which never exceed the samples the run took in this context. */
  lemma {:induction false} NoSampleChargedTwice(tool: Tool, inst: bool, steps: seq<Step>)
    ensures var w := Run(tool, inst, steps);
            && Tallied(w, steps)
            && forall n :: n in w.table ==>
                 && n in w.charged && w.charged[n] == THRESHOLD * w.table[n].catchup
                 && w.table[n].catchup <= Count(steps, PathTo(w.t, n))
    decreases |steps|
  {
    hide Inv, Apply, Tallied;
    var w := Run(tool, inst, steps);
    if steps == [] {
      EmptyTally();
    } else {
      var before, st := steps[..|steps| - 1], steps[|steps| - 1];
      assert steps == before + [st];
      NoSampleChargedTwice(tool, inst, before);
      InvParts(tool, Run(tool, inst, before));
      StepKeepsTally(tool, inst, Run(tool, inst, before), st, before);
    }
    FromInv(tool, w, steps);
  }

  lemma EmptyTally()
    ensures Mapped(START) && Tallied(START, [])
  {
    StartInv(RedSpy);
  }

  lemma FromInv(tool: Tool, w: Witch, steps: seq<Step>)
    requires Inv(tool, w) && Mapped(w) && Tallied(w, steps)
    ensures forall n :: n in w.table ==>
              && n in w.charged && w.charged[n] == THRESHOLD * w.table[n].catchup
              && w.table[n].catchup <= Count(steps, PathTo(w.t, n))
  {
    hide WellFormed, Whole, PathTo;
  }

  lemma StepKeepsTally(tool: Tool, inst: bool, w: Witch, st: Step, steps: seq<Step>)
    requires Inv(tool, w) && Mapped(w) && Tallied(w, steps)
    ensures Mapped(Apply(tool, inst, w, st)) && Tallied(Apply(tool, inst, w, st), steps + [st])
  {
    hide WellFormed, Tallied, OnTrap, OnSample, Framed;
    ApplyKeepsInv(tool, inst, w, st);
    InvParts(tool, Apply(tool, inst, w, st));
    match st
    case Sampled(ev) => SampleKeepsTally(w, ev, steps);
    case Trapped(tr) =>
      TrapFrames(tool, inst, w, tr);
      TrapKeepsTally(w, OnTrap(tool, inst, w, tr).0, steps, st);
  }

  /** The bytes a trap on this context stands for: the samples not yet charged, times the period, times
      the sampled access's length. */
  function Owed(w: Witch, leaf: nat, len: nat): int {
    if leaf in w.table then (w.table[leaf].cur - w.table[leaf].catchup) * THRESHOLD * len else 0
  }

  /** RedSpy and LoadSpy, end to end: a trap on a sampled context whose access meets the watch, compared
      byte by byte, adds all bytes owed to the redundant total if every shared address holds the same byte
      in both snapshots, and to the used total otherwise, and nothing stays owed; one that starts more than
      16 bytes below the watch charges nothing. Either way the event's record is gone. */
  lemma IntegerTrapIsJudgedByBytes(tool: Tool, inst: bool, w: Witch, tr: Trap)
    requires Mapped(w) && tool != DeadStore && Wants(tool, tr.cur.access) && tr.sample.id in w.leafOf
    requires inst ==> tr.sample.fixedIP == tr.cur.fixedIP
    requires Meets(tr.cur, tr.sample, tr.watchLen) && IsWatchLength(tr.watchLen) && tr.cur.len <= LONGEST_ACCESS
    requires !ComparedAsFloat(tr.cur, tr.sample, tr.va, tr.watchLen)
    ensures var leaf, w' := w.leafOf[tr.sample.id], OnTrap(tool, inst, w, tr).0;
            && tr.sample.id !in w'.leafOf
            && (if tr.sample.addr - tr.cur.addr > 16 then w' == Forget(w, tr.sample.id)
                else w'.totals == w.totals.Plus(if SameBytes(tr.cur, tr.sample, tr.watchLen) then RED else USED, Owed(w, leaf, tr.sample.len))
                     && Owed(w', leaf, tr.sample.len) == 0)
  {
    hide WellFormed, Meets, SameBytes, Judge, Owed, ComparedAsFloat, CatchUp, Settle;
    var leaf := w.leafOf[tr.sample.id];
    RedundantIffSameBytes(tr.cur, tr.sample, tr.va, tr.watchLen, tr.close);
    if tr.sample.addr - tr.cur.addr <= 16 {
      JudgedTrapCharges(w, tr, leaf);
      OwedAfterForget(OnSpyTrap(w, tr, leaf), tr.sample.id, leaf, tr.sample.len);
    }
  }

  lemma OwedAfterForget(w: Witch, id: int, leaf: nat, len: nat)
    ensures Owed(Forget(w, id), leaf, len) == Owed(w, leaf, len)
  {
  }

  lemma JudgedTrapCharges(w: Witch, tr: Trap, leaf: nat)
    requires Mapped(w) && leaf < |w.t| && Judge(tr.cur, tr.sample, tr.va, tr.watchLen, tr.close) in {Red, Used}
    ensures var kind := if Judge(tr.cur, tr.sample, tr.va, tr.watchLen, tr.close) == Red then RED else USED;
            OnSpyTrap(w, tr, leaf).totals == w.totals.Plus(kind, Owed(w, leaf, tr.sample.len))
            && Owed(OnSpyTrap(w, tr, leaf), leaf, tr.sample.len) == 0
  {
    hide WellFormed, Judge, ChargePair, ChargeUsed;
    var (w1, diff) := CatchUp(w, leaf);
    var inc := diff * tr.sample.len;
    PlusNothing(w.totals);
    ChargesAddToTotal(w1.(bytes := w1.bytes + inc), leaf, tr.cur.chain, inc);
  }

  lemma ChargesAddToTotal(w: Witch, leaf: nat, chain: seq<Frame>, inc: int)
    requires WellFormed(w.t) && leaf < |w.t|
    ensures var w' := ChargePair(w, leaf, chain, RED, inc); w'.totals == w.totals.Plus(RED, inc) && w'.table == w.table
    ensures var w' := ChargeUsed(w, leaf, inc); w'.totals == w.totals.Plus(USED, inc) && w'.table == w.table
  {
    hide WellFormed, AddFrames, Bump;
  }

  lemma PlusNothing(m: Metrics)
    ensures forall k: Kind :: m.Plus(k, 0) == m
  {
  }

  /** DeadStore, end to end: a trap whose access meets the sample's adds all bytes owed to the dead total
      for a store, and to the used total for any access that loads. */
  lemma StoreTrapIsDead(inst: bool, w: Witch, tr: Trap)
    requires Mapped(w) && tr.cur.access != UNKNOWN && tr.sample.id in w.leafOf
    requires inst ==> tr.sample.fixedIP == tr.cur.fixedIP
    requires Meets(tr.cur, tr.sample, tr.watchLen) && IsWatchLength(tr.watchLen)
    ensures var leaf, w' := w.leafOf[tr.sample.id], OnTrap(DeadStore, inst, w, tr).0;
            && w'.totals == w.totals.Plus(if tr.cur.access == STORE then DEAD else USED, Owed(w, leaf, tr.sample.len))
            && w'.lost == w.lost && tr.sample.id !in w'.leafOf
  {
    hide WellFormed, Meets, WatchOverlap, ToInt, AddFrames, Bump, Shared;
    OverlapFits(tr.cur, tr.sample, tr.va, tr.watchLen);
  }
}
