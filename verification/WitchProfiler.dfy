/** A Witch tool's object and the methods that update it, each proved to take the step that Attribution
    and RollUp define. */
module WitchProfiler {
  import opened Common
  import opened Overlap
  import opened ContextTrie
  import opened Attribution
  import opened RollUp

  class Profiler {
    var t: Tree
    var leafOf: map<int, nat>
    var table: map<nat, SampleNum>
    var totals: Metrics
    ghost var charged: map<nat, int>
    ghost var bytes: int
    ghost var lost: int
    ghost var ipOf: map<int, int>
    const tool: Tool
    const inst: bool

    ghost function View(): Witch
      reads this
    {
      Witch(t, leafOf, table, totals, charged, bytes, lost, ipOf)
    }

    constructor (tool: Tool, inst: bool)
      ensures View() == START && this.tool == tool && this.inst == inst
    {
      t, leafOf, table, totals := EMPTY, map[], map[], ZERO;
      charged, bytes, lost, ipOf := map[], 0, 0, map[];
      this.tool, this.inst := tool, inst;
    }

    /** addFramesToContextTree: the list is read from its end when it runs from child to parent. */
    method AddFramesToContextTree(fs: seq<Frame>, root: nat, parentToChild: bool) returns (current: nat)
      requires WellFormed(t) && root < |t|
      modifies this`t
      ensures (t, current) == AddFrames(old(t), root, InOrderOf(fs, parentToChild))
    {
      current := root;
      var i, iter := 0, if parentToChild then |fs| - 1 else 0;
      ghost var t0, order := t, InOrderOf(fs, parentToChild);
      while i < |fs|
        invariant 0 <= i <= |fs| && iter == if parentToChild then |fs| - 1 - i else i
        invariant WellFormed(t) && current < |t|
        invariant AddFrames(t, current, order[i..]) == AddFrames(t0, root, order)
      {
        AddFrameKeepsWellFormed(t, current, fs[iter]);
        AddFrameExtends(t, current, fs[iter]);
        assert order[i] == fs[iter] && order[i..][1..] == order[i + 1..];
        assert NodeOk(t, current);
        var found := FindAmong(t, t[current].children, fs[iter]);
        if found.Some? {
          current := found.value;
        } else {
          t, current := t[current := t[current].(children := t[current].children + [|t|])] + [Node(fs[iter], current, [], ZERO)], |t|;
        }
        i, iter := i + 1, if parentToChild then iter - 1 else iter + 1;
      }
    }

    /** Witch_OnSample_Callback. */
    method OnSampleCallback(ev: Event) returns (ok: bool)
      requires Mapped(View())
      modifies this
      ensures (View(), ok) == OnSample(old(View()), ev)
    {
      var leaf := AddFramesToContextTree(ev.chain, 0, true);
      if leaf == 0 {
        return false;
      }
      leafOf := leafOf[ev.id := leaf];
      if leaf in table {
        table := table[leaf := table[leaf].(cur := table[leaf].cur + 1)];
      } else {
        table := table[leaf := SampleNum(0, 1)];
      }
      charged := if leaf in charged then charged else charged[leaf := 0];
      ipOf := ipOf[ev.id := ev.fixedIP];
      return true;
    }

    method GetNumDiffSamplesAndReset(leaf: nat, threshold: int) returns (diffWithPeriod: int)
      requires threshold == THRESHOLD
      modifies this`table, this`charged
      ensures (View(), diffWithPeriod) == CatchUp(old(View()), leaf)
    {
      if leaf !in table {
        return 0;
      }
      diffWithPeriod := (table[leaf].cur - table[leaf].catchup) * threshold;
      table := table[leaf := table[leaf].(catchup := table[leaf].cur)];
      charged := charged[leaf := (if leaf in charged then charged[leaf] else 0) + diffWithPeriod];
    }

    method RemoveEventContextMapEntry(id: int)
      modifies this`leafOf
      ensures View() == Forget(old(View()), id)
    {
      leafOf := leafOf - {id};
    }

    method ChargeBoth(leaf: nat, chain: seq<Frame>, k: Kind, inc: int)
      requires WellFormed(t) && leaf < |t|
      modifies this`t, this`totals
      ensures View() == ChargePair(old(View()), leaf, chain, k, inc)
    {
      totals := totals.Plus(k, inc);
      AddFramesReadsBack(t, leaf, chain);
      var watchLeaf := AddFramesToContextTree(chain, leaf, false);
      t := Bump(t, watchLeaf, k, inc);
      t := Bump(t, leaf, k, inc);
    }

    method ChargeOne(leaf: nat, inc: int)
      requires leaf < |t|
      modifies this`t, this`totals
      ensures View() == ChargeUsed(old(View()), leaf, inc)
    {
      totals := totals.Plus(USED, inc);
      t := Bump(t, leaf, USED, inc);
    }

    method ChargeVerdict(leaf: nat, chain: seq<Frame>, v: Verdict, inc: int)
      requires WellFormed(t) && leaf < |t| && v != NoOverlap && v != BadOffset
      modifies this`t, this`totals
      ensures View() == Settle(old(View()), leaf, chain, v, inc)
    {
      match v {
        case Red => ChargeBoth(leaf, chain, RED, inc);
        case Approx => ChargeBoth(leaf, chain, APPROX, inc);
        case Used => ChargeOne(leaf, inc);
      }
    }

    /** Witch_OnWP_Callback of RedSpy and LoadSpy. */
    method SpyCallback(tr: Trap) returns (action: Action)
      requires tool != DeadStore && Mapped(View())
      modifies this
      ensures (View(), action) == OnTrap(tool, inst, old(View()), tr)
    {
      hide WellFormed, Settle, Judge, CatchUp;
      if !Wants(tool, tr.cur.access) {
        return Retain;
      }
      if inst && tr.sample.fixedIP != tr.cur.fixedIP {
        return Disable;
      }
      if tr.sample.id in leafOf {
        var leaf := leafOf[tr.sample.id];
        var v := Classify(tr.cur, tr.sample, tr.va, tr.watchLen, tr.close);
        if v == NoOverlap || v == BadOffset {
          RemoveEventContextMapEntry(tr.sample.id);
          return Disable;
        }
        var inc := CatchUpBytes(leaf, tr.sample.len);
        if inc == 0 {
          RemoveEventContextMapEntry(tr.sample.id);
          return Disable;
        }
        ChargeVerdict(leaf, tr.cur.chain, v, inc);
      } else {
        Absent(leafOf, tr.sample.id);
      }
      RemoveEventContextMapEntry(tr.sample.id);
      return Disable;
    }

    /** The catch-up and the bytes it stands for. */
    method CatchUpBytes(leaf: nat, len: nat) returns (inc: int)
      modifies this`table, this`charged, this`bytes
      ensures var (w1, diff) := CatchUp(old(View()), leaf);
              inc == diff * len && View() == w1.(bytes := w1.bytes + inc)
    {
      var diff := GetNumDiffSamplesAndReset(leaf, THRESHOLD);
      inc := diff * len;
      bytes := bytes + inc;
    }

    /** Witch_OnWP_Callback of DeadStore. */
    method DeadStoreCallback(tr: Trap) returns (action: Action)
      requires tool == DeadStore && Mapped(View())
      modifies this
      ensures (View(), action) == OnTrap(tool, inst, old(View()), tr)
    {
      hide WellFormed, CatchUp, ChargePair, ChargeUsed, WatchOverlap, ToInt;
      if tr.cur.access == UNKNOWN {
        RemoveEventContextMapEntry(tr.sample.id);
        return Disable;
      }
      if inst && tr.sample.fixedIP != tr.cur.fixedIP {
        return Disable;
      }
      if tr.sample.id in leafOf {
        var leaf := leafOf[tr.sample.id];
        var inc := CatchUpBytes(leaf, tr.sample.len);
        var overlapBytes := ToInt(WatchOverlap(tr.cur, tr.sample, tr.va, tr.watchLen));
        if overlapBytes <= 0 {
          lost := lost + inc;
          RemoveEventContextMapEntry(tr.sample.id);
          return Disable;
        }
        if tr.cur.access == LOAD || tr.cur.access == LOAD_AND_STORE {
          ChargeOne(leaf, inc);
        } else {
          ChargeBoth(leaf, tr.cur.chain, DEAD, inc);
        }
      } else {
        Absent(leafOf, tr.sample.id);
      }
      RemoveEventContextMapEntry(tr.sample.id);
      return Disable;
    }

    /** calculateForAllContext: every node not cut off by a pruned one ends up with the redundant and used
        bytes of all such nodes at or below it; nothing else changes. */
    method CalculateForAllContext(n: nat) returns (red: int, used: int)
      requires WellFormed(t) && n < |t|
      modifies this`t
      ensures WellFormed(t)
      ensures Rolled(old(t), t, if Pruned(old(t), n) then {} else Under(old(t), n))
      ensures Pruned(old(t), n) ==> red == used == 0
      ensures !Pruned(old(t), n) ==> (red == Sum(old(t), RED, Under(old(t), n), |old(t)|)
                                   && used == Sum(old(t), USED, Under(old(t), n), |old(t)|))
      decreases |t| - n
    {
      hide WellFormed, Sum, Under, SumFirst, BelowFirst, Rolled, Pruned;
      red, used := 0, 0;
      RollStart(t, n);
      if Pruned(t, n) {
        return;
      }
      ghost var t0 := t;
      var children := t[n].children;
      var j := 0;
      while j < |children|
        invariant 0 <= j <= |children| && WellFormed(t) && Rolled(t0, t, BelowFirst(t0, n, j))
        invariant red == SumFirst(t0, RED, n, j) && used == SumFirst(t0, USED, n, j)
      {
        ghost var t1 := t;
        ChildVisited(t0, t1, n, j);
        var childRed, childUsed := CalculateForAllContext(children[j]);
        if Pruned(t0, children[j]) {
          PrunedChild(t0, t1, t, n, j);
        } else {
          ChildRolled(t0, t1, t, n, j);
        }
        SumFirstNext(t0, RED, n, j);
        SumFirstNext(t0, USED, n, j);
        red, used := red + childRed, used + childUsed;
        j := j + 1;
      }
      RolledKeepsWellFormed(t0, t, BelowFirst(t0, n, j));
      NodeRolled(t0, t, n);
      var m := t[n].metrics;
      red, used := m.red + red, m.used + used;
      t := t[n := t[n].(metrics := m.(red := red, used := used))];
      RolledKeepsWellFormed(t0, t, Under(t0, n));
    }
  }

  lemma Absent(m: map<int, nat>, id: int)
    requires id !in m
    ensures m - {id} == m
  {
  }
}
