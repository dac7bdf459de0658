/** What a sample or a trap answers, what it does to the record of events, to the watch it came from, and
    which nodes of the context tree it charges. */
module TrapLaws {
  import opened Common
  import opened Overlap
  import opened ContextTrie
  import opened Attribution
  import opened WitchRuns
  import WP = Watchpoints

  /** An access the tool is not interested in and does not expect to trap on. */
  predicate Ignored(tool: Tool, a: Access) {
    (tool == RedSpy && a in {LOAD, UNKNOWN}) || (tool == LoadSpy && a in {STORE, UNKNOWN})
  }

  /** The trap is one the tool acts upon: its event is forgotten, and maybe charged. */
  predicate Handled(tool: Tool, inst: bool, tr: Trap) {
    || (tool == DeadStore && tr.cur.access == UNKNOWN)
    || (!Ignored(tool, tr.cur.access) && tr.cur.access != UNKNOWN && (inst ==> tr.sample.fixedIP == tr.cur.fixedIP))
  }

  /** A trap is retained exactly when it is an ignored access, and then nothing changes; all others disable the
      watch. Of the recorded events exactly the trap's own is forgotten when the tool acts upon it. */
  lemma TrapAnswers(tool: Tool, inst: bool, w: Witch, tr: Trap)
    requires Mapped(w)
    ensures OnTrap(tool, inst, w, tr).1 == if Ignored(tool, tr.cur.access) then Retain else Disable
    ensures !Handled(tool, inst, tr) ==> OnTrap(tool, inst, w, tr).0 == w
    ensures Handled(tool, inst, tr) ==> OnTrap(tool, inst, w, tr).0.leafOf == w.leafOf - {tr.sample.id}
  {
    hide WellFormed, OnSpyTrap, OnDeadTrap;
    var id := tr.sample.id;
    if id in w.leafOf {
      TrapsKeepRecord(w, tr, w.leafOf[id]);
    } else {
      assert w.leafOf - {id} == w.leafOf;
    }
  }

  lemma TrapsKeepRecord(w: Witch, tr: Trap, leaf: nat)
    requires Mapped(w) && leaf < |w.t|
    ensures OnSpyTrap(w, tr, leaf).leafOf == OnDeadTrap(w, tr, leaf).leafOf == w.leafOf
  {
    hide WellFormed, Judge, WatchOverlap, ToInt, ChargePair, ChargeUsed, CatchUp, Settle;
    var (w1, diff) := CatchUp(w, leaf);
    var inc := diff * tr.sample.len;
    CatchUpKeepsRecord(w, leaf);
    SettleKeepsRecord(w1.(bytes := w1.bytes + inc), leaf, tr.cur.chain, Judge(tr.cur, tr.sample, tr.va, tr.watchLen, tr.close), DEAD, inc);
  }

  lemma CatchUpKeepsRecord(w: Witch, leaf: nat)
    requires Mapped(w) && leaf < |w.t|
    ensures CatchUp(w, leaf).0.leafOf == w.leafOf && CatchUp(w, leaf).0.t == w.t
  {
    hide WellFormed;
  }

  lemma SettleKeepsRecord(w: Witch, leaf: nat, chain: seq<Frame>, v: Verdict, k: Kind, inc: int)
    requires WellFormed(w.t) && leaf < |w.t|
    ensures Settle(w, leaf, chain, v, inc).leafOf == ChargePair(w, leaf, chain, k, inc).leafOf == ChargeUsed(w, leaf, inc).leafOf == w.leafOf
  {
    hide WellFormed, AddFrames, Bump;
  }

  function ActionOf(a: Action): WP.Action {
    match a
    case Disable => WP.Disable
    case Retain => WP.Retain
  }

  /** The trap seen from the watchpoint table: after any trap but an ignored one the slot it came from is
      inactive, unless its device was to be modified in place and was not found; no other slot changes. */
  lemma TrapStopsWatch(tool: Tool, inst: bool, w: Witch, tr: Trap, s: WP.State, loc: nat, found: seq<bool>)
    requires Mapped(w) && loc < |s.slots| && s.slots[loc].active && |found| == |s.slots|
    ensures var st := WP.Trap(loc, ActionOf(OnTrap(tool, inst, w, tr).1), found);
            WP.Enabled(s, st)
            && if Ignored(tool, tr.cur.access) then WP.Apply(s, st) == s
               else (WP.Apply(s, st).slots[loc].active <==> s.fast && !found[loc])
                    && forall i :: 0 <= i < |s.slots| && i != loc ==> WP.Apply(s, st).slots[i] == s.slots[i]
  {
    hide OnTrap, WellFormed;
    TrapAnswers(tool, inst, w, tr);
    var st := WP.Trap(loc, ActionOf(OnTrap(tool, inst, w, tr).1), found);
    if !Ignored(tool, tr.cur.access) {
      WP.DisableStops(s, loc, found);
    }
  }

  /** A sample is recorded exactly when its call chain is not empty; then its event leads to the node the chain
      spells, and no other event's record changes. */
  lemma SampleAnswers(w: Witch, ev: Event)
    requires Mapped(w)
    ensures var (w', ok) := OnSample(w, ev);
            && (ok <==> ev.chain != []) && WellFormed(w'.t)
            && w'.leafOf - {ev.id} == w.leafOf - {ev.id} && w'.ipOf - {ev.id} == w.ipOf - {ev.id}
            && (ok ==> ev.id in w'.leafOf && w'.leafOf[ev.id] < |w'.t| && PathTo(w'.t, w'.leafOf[ev.id]) == Reverse(ev.chain)
                       && ev.id in w'.ipOf && w'.ipOf[ev.id] == ev.fixedIP)
            && (!ok ==> w'.leafOf == w.leafOf && w'.table == w.table && w'.ipOf == w.ipOf)
  {
    hide WellFormed, PathTo, AddFrames, Grows;
    LeafOfPath(w.t, Reverse(ev.chain));
  }

  // ---------- which nodes are charged ----------

  /** The node of a path, once for the node itself and once for the one the path below it leads to. */
  ghost function Places(t: Tree, n: nat, leaf: nat, path: seq<Frame>): nat
    requires WellFormed(t) && n < |t|
  {
    (if n == leaf then 1 else 0) + if PathTo(t, n) == path then 1 else 0
  }

  function MetricOf(t: Tree, n: nat, k: Kind): int {
    if n < |t| then t[n].metrics.Get(k) else 0
  }

  lemma BumpPlaces(t: Tree, m: nat, k: Kind, d: int, n: nat, j: Kind)
    requires m < |t|
    ensures MetricOf(Bump(t, m, k, d), n, j) == MetricOf(t, n, j) + if n == m && j == k then d else 0
  {
  }

  /** A pair is charged to the sampled leaf and to the node that the trap's chain leads to below it, each once,
      in the one metric, and to no other node. */
  lemma ChargePairPlaces(w: Witch, leaf: nat, chain: seq<Frame>, k: Kind, inc: int, n: nat, j: Kind)
    requires WellFormed(w.t) && leaf < |w.t|
    ensures var t' := ChargePair(w, leaf, chain, k, inc).t;
            WellFormed(t')
            && (n < |t'| ==> MetricOf(t', n, j) == MetricOf(w.t, n, j)
                             + if j == k then inc * Places(t', n, leaf, PathTo(w.t, leaf) + chain) else 0)
  {
    hide WellFormed, PathTo, AddFrames, Bump, MetricOf;
    AddFramesReadsBack(w.t, leaf, chain);
    var (t1, watchLeaf) := AddFrames(w.t, leaf, chain);
    BumpKeepsWellFormed(t1, watchLeaf, k, inc);
    var t2 := Bump(t1, watchLeaf, k, inc);
    BumpKeepsWellFormed(t2, leaf, k, inc);
    var t' := Bump(t2, leaf, k, inc);
    if n < |t'| {
      BumpPlaces(t1, watchLeaf, k, inc, n, j);
      BumpPlaces(t2, leaf, k, inc, n, j);
      NewNodesEmpty(w.t, t1, n, j);
      PathsKept(t1, t2, n);
      PathsKept(t2, t', n);
      if PathTo(t1, n) == PathTo(w.t, leaf) + chain {
        PathsIdentify(t1, n, watchLeaf);
      }
    }
  }

  lemma NewNodesEmpty(t: Tree, t': Tree, n: nat, j: Kind)
    requires Extends(t, t')
    ensures MetricOf(t', n, j) == MetricOf(t, n, j)
  {
  }

  /** What a handled trap on a recorded event charges, if anything. */
  ghost function ChargedKind(tool: Tool, tr: Trap): Option<Kind> {
    if tool == DeadStore then
      if ToInt(WatchOverlap(tr.cur, tr.sample, tr.va, tr.watchLen)) <= 0 then None
      else if tr.cur.access == STORE then Some(DEAD) else Some(USED)
    else
      match Judge(tr.cur, tr.sample, tr.va, tr.watchLen, tr.close)
      case Red => Some(RED)
      case Approx => Some(APPROX)
      case Used => Some(USED)
      case _ => None
  }

  /** The rise of a node's metric: used bytes on the sampled leaf alone, the others on both ends of the pair. */
  ghost function Rise(tool: Tool, tr: Trap, t': Tree, n: nat, leaf: nat, path: seq<Frame>, owed: int, j: Kind): int
    requires WellFormed(t') && n < |t'|
  {
    if ChargedKind(tool, tr) != Some(j) then 0
    else if j == USED then (if n == leaf then owed else 0)
    else owed * Places(t', n, leaf, path)
  }

  lemma SettledPlaces(tool: Tool, w: Witch, tr: Trap, leaf: nat, inc: int, n: nat, j: Kind)
    requires WellFormed(w.t) && leaf < |w.t|
    ensures var k := ChargedKind(tool, tr);
            var t' := (if k.None? || (inc == 0 && tool != DeadStore) then w
                       else if k.value == USED then ChargeUsed(w, leaf, inc) else ChargePair(w, leaf, tr.cur.chain, k.value, inc)).t;
            WellFormed(t')
            && (n < |t'| ==>
                  MetricOf(t', n, j) == MetricOf(w.t, n, j)
                                        + Rise(tool, tr, t', n, leaf, PathTo(w.t, leaf) + tr.cur.chain, inc, j))
  {
    hide WellFormed, PathTo, AddFrames, MetricOf, ChargedKind;
    var k := ChargedKind(tool, tr);
    if k.Some? && k.value != USED {
      ChargePairPlaces(w, leaf, tr.cur.chain, k.value, inc, n, j);
    } else if k.Some? {
      BumpKeepsWellFormed(w.t, leaf, USED, inc);
      BumpPlaces(w.t, leaf, USED, inc, n, j);
    }
  }

  lemma SpyIsSettled(tool: Tool, w: Witch, tr: Trap, leaf: nat)
    requires Mapped(w) && leaf in w.table && tool != DeadStore
    ensures var k, inc := ChargedKind(tool, tr), Owed(w, leaf, tr.sample.len);
            OnSpyTrap(w, tr, leaf).t ==
              (if k.None? || inc == 0 then w
               else if k.value == USED then ChargeUsed(w, leaf, inc) else ChargePair(w, leaf, tr.cur.chain, k.value, inc)).t
  {
    hide WellFormed, Judge, AddFrames, Bump;
  }

  lemma DeadIsSettled(w: Witch, tr: Trap, leaf: nat)
    requires Mapped(w) && leaf in w.table
    ensures var k, inc := ChargedKind(DeadStore, tr), Owed(w, leaf, tr.sample.len);
            OnDeadTrap(w, tr, leaf).t ==
              (if k.None? then w
               else if k.value == USED then ChargeUsed(w, leaf, inc) else ChargePair(w, leaf, tr.cur.chain, k.value, inc)).t
  {
    hide WellFormed, WatchOverlap, ToInt, AddFrames, Bump;
  }

  /** End to end: a handled trap on a recorded event charges the bytes its context owes, in the one metric its
      verdict names, to the event's leaf and, unless they are used bytes, to the node its own chain leads to
      below it; no other node's metric changes. */
  lemma TrapPlaces(tool: Tool, inst: bool, w: Witch, tr: Trap, n: nat, j: Kind)
    requires Mapped(w) && tr.sample.id in w.leafOf
    requires Wants(tool, tr.cur.access) && (inst ==> tr.sample.fixedIP == tr.cur.fixedIP)
    ensures var leaf, t' := w.leafOf[tr.sample.id], OnTrap(tool, inst, w, tr).0.t;
            WellFormed(t')
            && (n < |t'| ==>
                  MetricOf(t', n, j) == MetricOf(w.t, n, j)
                    + Rise(tool, tr, t', n, leaf, PathTo(w.t, leaf) + tr.cur.chain, Owed(w, leaf, tr.sample.len), j))
  {
    hide WellFormed, PathTo, ChargedKind, Owed, OnSpyTrap, OnDeadTrap, MetricOf, Rise, ChargePair, ChargeUsed;
    var leaf := w.leafOf[tr.sample.id];
    SettledPlaces(tool, w, tr, leaf, Owed(w, leaf, tr.sample.len), n, j);
    if tool == DeadStore {
      DeadIsSettled(w, tr, leaf);
    } else {
      SpyIsSettled(tool, w, tr, leaf);
    }
  }
}
