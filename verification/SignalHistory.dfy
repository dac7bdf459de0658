/** The signal table explained by its history: the flags, the signal the filter fixes and the signal picked
    at exit, in terms of the registrations made and the masks let through. */
module SignalHistory {
  import opened SignalMask

  ghost predicate Registers(step: Step, sig: int) {
    step.Client? && step.sig == sig
  }

  ghost predicate Installs(step: Step, sig: int) {
    step.Appl? && step.sig == sig && step.act && step.caught
  }

  ghost predicate IsLast(steps: seq<Step>, sig: int, k: int) {
    0 <= k < |steps| && Registers(steps[k], sig) && forall j :: k < j < |steps| ==> !Registers(steps[j], sig)
  }

  /** The client's last registration for the signal installed a handler; before the first, as at the start. */
  ghost predicate ClientCatches(start: seq<Entry>, steps: seq<Step>, sig: int)
    requires Valid(start, sig)
  {
    if exists k :: IsLast(steps, sig, k)
    then exists k :: IsLast(steps, sig, k) && steps[k].handler
    else start[sig].client
  }

  /** The application has installed a handler for the signal at some time. */
  ghost predicate ApplCatches(start: seq<Entry>, steps: seq<Step>, sig: int)
    requires Valid(start, sig)
  {
    start[sig].appl || exists k :: 0 <= k < |steps| && Installs(steps[k], sig)
  }

  lemma ClientCatchesNext(start: seq<Entry>, steps: seq<Step>, step: Step, sig: int)
    requires Valid(start, sig)
    ensures ClientCatches(start, steps + [step], sig)
            <==> if Registers(step, sig) then step.handler else ClientCatches(start, steps, sig)
  {
    var n, next := |steps|, steps + [step];
    assert next[n] == step && forall j :: 0 <= j < n ==> next[j] == steps[j];
    if Registers(step, sig) {
      assert IsLast(next, sig, n);
    } else {
      assert forall k :: IsLast(next, sig, k) <==> IsLast(steps, sig, k);
    }
  }

  lemma ApplCatchesNext(start: seq<Entry>, steps: seq<Step>, step: Step, sig: int)
    requires Valid(start, sig)
    ensures ApplCatches(start, steps + [step], sig) <==> Installs(step, sig) || ApplCatches(start, steps, sig)
  {
    var n, next := |steps|, steps + [step];
    assert next[n] == step && forall j :: 0 <= j < n ==> next[j] == steps[j];
  }

  /** In no mask let through so far. */
  ghost predicate NeverPassed(t: Table, sig: int) {
    AbsentBefore(t.passed, sig, |t.passed|)
  }

  /** One usable entry after another: `client` and `appl` as given, blocked if let through in between. */
  ghost predicate EntryStep(t: Table, t': Table, sig: int, client: bool, appl: bool)
    requires Valid(t.entries, sig)
  {
    && t'.list == t.list && Valid(t'.entries, sig) && t.passed <= t'.passed
    && t'.entries[sig].client == client && t'.entries[sig].appl == appl
    && (t'.entries[sig].blocked <==> t.entries[sig].blocked || exists k :: |t.passed| <= k < |t'.passed| && sig in t'.passed[k])
  }

  lemma FilterEntry(t: Table, mask: set<int>, sig: int)
    requires ListValid(t) && Valid(t.entries, sig)
    ensures EntryStep(t, Filter(t, mask).0, sig, t.entries[sig].client, t.entries[sig].appl)
  {
    var f := FixIfCovered(t, mask);
    var (t', out) := Filter(t, mask);
    assert t'.passed[|t.passed|] == out;
    assert Valid(f.entries, sig) && f.entries[sig].blocked == t.entries[sig].blocked;
  }

  lemma StepEntry(t: Table, step: Step, sig: int)
    requires Inv(t) && Valid(t.entries, sig)
    ensures EntryStep(t, Apply(t, step), sig,
                      if Registers(step, sig) then step.handler else t.entries[sig].client,
                      t.entries[sig].appl || Installs(step, sig))
  {
    hide Filter;
    match step
    case Mask(mask) => FilterEntry(t, mask, sig);
    case Client(s, handler, act, mask) =>
      if Valid(t.entries, s) {
        var e := t.entries[s].(keepOpen := true, client := handler);
        RegisterKeepsInv(t, s, e);
        FilterEntry(t.(entries := t.entries[s := e]), mask, sig);
      }
    case Appl(s, caught, act, mask) =>
      if Valid(t.entries, s) {
        var e := t.entries[s].(appl := true);
        RegisterKeepsInv(t, s, e);
        FilterEntry(t.(entries := t.entries[s := e]), mask, sig);
        FilterEntry(t, mask, sig);
      }
    case Shootdown(_) =>
  }

  /** What the flags of a usable signal say after a run from `t`. */
  ghost predicate FlagsTell(t: Table, steps: seq<Step>, t': Table, sig: int)
    requires Valid(t.entries, sig)
  {
    && t'.list == t.list && Valid(t'.entries, sig)
    && (t'.entries[sig].client <==> ClientCatches(t.entries, steps, sig))
    && (t'.entries[sig].appl <==> ApplCatches(t.entries, steps, sig))
    && (t'.entries[sig].blocked <==> !NeverPassed(t', sig))
  }

  lemma StepTells(t: Table, steps: seq<Step>, step: Step, was: Table, sig: int)
    requires Valid(t.entries, sig) && Inv(was) && FlagsTell(t, steps, was, sig)
    ensures FlagsTell(t, steps + [step], Apply(was, step), sig)
  {
    hide Inv, Apply, ClientCatches, ApplCatches;
    InvLists(was);
    StepEntry(was, step, sig);
    ClientCatchesNext(t.entries, steps, step, sig);
    ApplCatchesNext(t.entries, steps, step, sig);
    var now := Apply(was, step);
    assert forall k :: 0 <= k < |was.passed| ==> now.passed[k] == was.passed[k];
  }

  /** The flags after any run are what the run's history says: the last registration decides `client`, any
      handler of the application sets `appl` for good, and `blocked` means let through in some mask. */
  lemma {:induction false} FlagsTellHistory(t: Table, steps: seq<Step>, sig: int)
    requires Inv(t) && t.passed == [] && Valid(t.entries, sig) && !t.entries[sig].blocked
    ensures FlagsTell(t, steps, Run(t, steps), sig)
    decreases |steps|
  {
    hide Inv, Apply;
    if steps == [] {
    } else {
      var n := |steps| - 1;
      FlagsTellHistory(t, steps[..n], sig);
      StepTells(t, steps[..n], steps[n], Run(t, steps[..n]), sig);
      RunNext(t, steps);
      assert steps[..n] + [steps[n]] == steps;
    }
  }

  lemma RunNext(t: Table, steps: seq<Step>)
    requires Inv(t) && steps != []
    ensures var n := |steps| - 1; var was := Run(t, steps[..n]);
            ListValid(was) && Run(t, steps) == Apply(was, steps[n])
  {
  }

  // ---------- the signal picked at exit ----------

  /** How late the choice at exit comes to a signal. */
  ghost function Rank(start: seq<Entry>, steps: seq<Step>, sig: int): int
    requires Valid(start, sig)
  {
    if ClientCatches(start, steps, sig) then 3 else if ApplCatches(start, steps, sig) then 2 else 1
  }

  ghost predicate Better(start: seq<Entry>, steps: seq<Step>, list: seq<int>, i: nat, j: nat)
    requires i < |list| && j < |list| && Valid(start, list[i]) && Valid(start, list[j])
  {
    Rank(start, steps, list[i]) < Rank(start, steps, list[j])
    || (Rank(start, steps, list[i]) == Rank(start, steps, list[j]) && i <= j)
  }

  /** Of the listed signals never let through, the i-th is of the lowest rank, and the first of that rank. */
  ghost predicate IsPreferred(start: seq<Entry>, steps: seq<Step>, t: Table, i: nat) {
    && i < |t.list| && Valid(start, t.list[i]) && NeverPassed(t, t.list[i])
    && forall j: nat :: j < |t.list| && Valid(start, t.list[j]) && NeverPassed(t, t.list[j]) ==> Better(start, steps, t.list, i, j)
  }

  lemma LevelIsRank(t: Table, steps: seq<Step>, t': Table, sig: int, level: int)
    requires Valid(t.entries, sig) && FlagsTell(t, steps, t', sig) && 1 <= level <= 3
    ensures Level(t'.entries[sig], level) <==> NeverPassed(t', sig) && Rank(t.entries, steps, sig) <= level
  {
    hide ClientCatches, ApplCatches, NeverPassed;
  }

  lemma BestIsPreferred(t: Table, steps: seq<Step>, t': Table, best: int, i: nat)
    requires AllValid(t.entries, t'.list) && AllValid(t'.entries, t'.list)
    requires forall s :: s in t'.list ==> FlagsTell(t, steps, t', s)
    requires 1 <= best <= 3 && Earliest(t'.entries, t'.list, best, i)
    requires best > 1 ==> forall x :: x in t'.list ==> !Level(t'.entries[x], best - 1)
    ensures IsPreferred(t.entries, steps, t', i)
  {
    hide FlagsTell, Rank, NeverPassed, Level;
    var list := t'.list;
    LevelIsRank(t, steps, t', list[i], best);
    assert list[i] in list && Valid(t.entries, list[i]);
    RankBounds(t.entries, steps, list[i]);
    if best > 1 { LevelIsRank(t, steps, t', list[i], best - 1); }
    forall j: nat | j < |list| && Valid(t.entries, list[j]) && NeverPassed(t', list[j]) ensures Better(t.entries, steps, list, i, j) {
      assert list[j] in list;
      RankBounds(t.entries, steps, list[j]);
      LevelIsRank(t, steps, t', list[j], best);
      if best > 1 { LevelIsRank(t, steps, t', list[j], best - 1); }
    }
  }

  lemma RankBounds(start: seq<Entry>, steps: seq<Step>, sig: int)
    requires Valid(start, sig)
    ensures 1 <= Rank(start, steps, sig) <= 3
  {
  }

  lemma PickIsPreferred(t: Table, steps: seq<Step>) returns (i: nat)
    requires Inv(t) && t.passed == [] && Run(t, steps).shootdown == -1
    requires forall s :: s in t.list ==> !t.entries[s].blocked
    ensures var t' := Run(t, steps); IsPreferred(t.entries, steps, t', i) && t'.list == t.list && Pick(t'.entries, t'.list) == t'.list[i]
  {
    hide FlagsTell, Run, IsPreferred, Pick, Level, Earliest;
    var t' := Run(t, steps);
    InvLists(t);
    InvLists(t');
    assert t.list[0] in t.list;
    FlagsTellHistory(t, steps, t.list[0]);
    ListKept(t, steps, t', t.list[0]);
    forall s | s in t'.list ensures FlagsTell(t, steps, t', s) { FlagsTellHistory(t, steps, s); }
    var s := OpenOne(t');
    var best;
    best, i := PickPrefers(t'.entries, t'.list, 3, s);
    BestIsPreferred(t, steps, t', best, i);
  }

  lemma ListKept(t: Table, steps: seq<Step>, t': Table, sig: int)
    requires Valid(t.entries, sig) && FlagsTell(t, steps, t', sig)
    ensures t'.list == t.list
  {
  }

  lemma OpenOne(t: Table) returns (s: int)
    requires Inv(t) && t.shootdown == -1
    ensures s in t.list && Level(t.entries[s], 3)
  {
    s :| s in t.list && !t.entries[s].blocked;
  }

  /** When no signal has been fixed by the time of exit, the one picked is the first of the lowest rank among
      the candidates never let through in a mask: it is one the client's last registration caught only if
      that is so of all of them, and one the application or the client catches only if that is so of all. */
  lemma ExitPickSparesHandlers(entries: seq<Entry>, realtime: seq<int>, extra: seq<int>, lastResort: int, env: int, steps: seq<Step>)
    returns (i: nat)
    requires Boot(entries, lastResort)
    ensures var t := Run(Init(entries, realtime, extra, lastResort, env), steps);
            t.shootdown == -1 ==>
              && t.list == Listed(entries, realtime) + Listed(entries, extra) + [lastResort]
              && IsPreferred(entries, steps, t, i) && ShootdownSignal(t, lastResort).shootdown == t.list[i]
              && forall s :: s in t.list && NeverPassed(t, s) ==>
                   && Valid(entries, s)
                   && (ClientCatches(entries, steps, t.list[i]) ==> ClientCatches(entries, steps, s))
                   && (ApplCatches(entries, steps, t.list[i]) ==> ClientCatches(entries, steps, s) || ApplCatches(entries, steps, s))
  {
    hide Run, Listed, ClientCatches, ApplCatches, NeverPassed, Inv, Pick;
    var t0 := Init(entries, realtime, extra, lastResort, env);
    var t := Run(t0, steps);
    if t.shootdown == -1 {
      EnvironmentDecides(entries, realtime, extra, lastResort, env, steps);
      InvLists(t0);
      i := PickIsPreferred(t0, steps);
      ShootdownKeepsInv(t, lastResort);
      forall s | s in t.list && NeverPassed(t, s)
        ensures Valid(entries, s)
        ensures ClientCatches(entries, steps, t.list[i]) ==> ClientCatches(entries, steps, s)
        ensures ApplCatches(entries, steps, t.list[i]) ==> ClientCatches(entries, steps, s) || ApplCatches(entries, steps, s)
      {
        var j :| 0 <= j < |t.list| && t.list[j] == s;
        assert Better(entries, steps, t.list, i, j);
      }
    } else {
      i := 0;
    }
  }

  // ---------- the signal fixed before ----------

  lemma {:induction false} FixedStays(t: Table, steps: seq<Step>)
    requires Inv(t) && t.choice == Kept
    ensures Run(t, steps).shootdown == t.shootdown && Run(t, steps).choice == Kept
    decreases |steps|
  {
    hide Inv, Apply;
    if steps == [] {
    } else {
      var n := |steps| - 1;
      FixedStays(t, steps[..n]);
      KeptIsFixed(Run(t, steps[..n]));
      StepKeepsInv(Run(t, steps[..n]), steps[n]);
      RunNext(t, steps);
    }
  }

  lemma KeptIsFixed(t: Table)
    requires Inv(t) && t.choice == Kept
    ensures t.shootdown > 0
  {
  }

  /** A usable signal asked for in the environment is the shootdown signal whatever happens, and no mask
      with it is ever let through. */
  lemma EnvironmentDecides(entries: seq<Entry>, realtime: seq<int>, extra: seq<int>, lastResort: int, env: int, steps: seq<Step>)
    requires Boot(entries, lastResort)
    ensures var t := Run(Init(entries, realtime, extra, lastResort, env), steps);
            Valid(entries, env) && !entries[env].stop ==>
              t.shootdown == env && ShootdownSignal(t, lastResort).shootdown == env && NeverPassed(t, env)
  {
    hide Run;
    if Valid(entries, env) && !entries[env].stop {
      FixedStays(Init(entries, realtime, extra, lastResort, env), steps);
    }
  }

  /** `FirstUnblocked` is the earliest listed signal not blocked. */
  lemma {:induction false} FirstUnblockedIsFirst(entries: seq<Entry>, list: seq<int>) returns (i: nat)
    requires AllValid(entries, list) && FirstUnblocked(entries, list) != -1
    ensures i < |list| && list[i] == FirstUnblocked(entries, list)
    ensures forall j :: 0 <= j < i ==> list[j] in list && entries[list[j]].blocked
  {
    assert list == [list[0]] + list[1..];
    assert list[0] in list;
    if !entries[list[0]].blocked {
      i := 0;
    } else {
      var k := FirstUnblockedIsFirst(entries, list[1..]);
      i := k + 1;
      forall j | 0 <= j < i ensures list[j] in list && entries[list[j]].blocked {
        assert j > 0 ==> list[j] == list[1..][j - 1];
      }
    }
  }

  /** While no signal is fixed, a mask fixes one exactly when it names every candidate never let through,
      and then the earliest of them. */
  lemma MaskFixesEarliest(entries: seq<Entry>, realtime: seq<int>, extra: seq<int>, lastResort: int, env: int, steps: seq<Step>, mask: set<int>)
    returns (i: nat)
    requires Boot(entries, lastResort)
    ensures var t := Run(Init(entries, realtime, extra, lastResort, env), steps);
            t.shootdown == -1 ==>
              var fixed := Filter(t, mask).0.shootdown;
              && (fixed == -1 <==> exists s :: s in t.list && NeverPassed(t, s) && s !in mask)
              && (fixed != -1 ==> i < |t.list| && fixed == t.list[i] && NeverPassed(t, fixed)
                                  && forall j :: 0 <= j < i ==> !NeverPassed(t, t.list[j]))
  {
    hide Run, Listed, NeverPassed, FlagsTell;
    var t0 := Init(entries, realtime, extra, lastResort, env);
    var t := Run(t0, steps);
    i := 0;
    if t.shootdown == -1 {
      BlockedIsPassed(entries, realtime, extra, lastResort, env, steps);
      var s := OpenOne(t);
      i := FirstUnblockedIsFirst(t.entries, t.list);
      assert FirstUnblocked(t.entries, t.list) > 0;
    }
  }

  lemma BlockedIsPassed(entries: seq<Entry>, realtime: seq<int>, extra: seq<int>, lastResort: int, env: int, steps: seq<Step>)
    requires Boot(entries, lastResort)
    ensures var t := Run(Init(entries, realtime, extra, lastResort, env), steps);
            forall s :: s in t.list ==> Valid(t.entries, s) && (t.entries[s].blocked <==> !NeverPassed(t, s))
  {
    hide Run, Listed, NeverPassed, ClientCatches, ApplCatches;
    var t0 := Init(entries, realtime, extra, lastResort, env);
    var t := Run(t0, steps);
    InvLists(t0);
    assert t0.list[0] in t0.list;
    FlagsTellHistory(t0, steps, t0.list[0]);
    forall s | s in t.list ensures Valid(t.entries, s) && (t.entries[s].blocked <==> !NeverPassed(t, s)) {
      FlagsTellHistory(t0, steps, s);
    }
  }

  // ---------- the client's signals ----------

  ghost predicate OpenSince(t: Table, sig: int, from: nat) {
    && Valid(t.entries, sig) && t.entries[sig].keepOpen && from <= |t.passed|
    && forall k :: from <= k < |t.passed| ==> sig !in t.passed[k]
  }

  lemma FilterLeavesOpen(t: Table, mask: set<int>, sig: int, from: nat)
    requires ListValid(t) && OpenSince(t, sig, from)
    ensures OpenSince(Filter(t, mask).0, sig, from)
  {
    var f := FixIfCovered(t, mask);
    assert Valid(f.entries, sig) && f.entries[sig].keepOpen;
  }

  lemma StepLeavesOpen(t: Table, step: Step, sig: int, from: nat)
    requires Inv(t) && (OpenSince(t, sig, from) || (Registers(step, sig) && Valid(t.entries, sig) && from == |t.passed|))
    ensures OpenSince(Apply(t, step), sig, from)
  {
    hide Filter;
    match step
    case Mask(mask) => FilterLeavesOpen(t, mask, sig, from);
    case Client(s, handler, act, mask) =>
      if Valid(t.entries, s) {
        var e := t.entries[s].(keepOpen := true, client := handler);
        RegisterKeepsInv(t, s, e);
        FilterLeavesOpen(t.(entries := t.entries[s := e]), mask, sig, from);
      }
    case Appl(s, caught, act, mask) =>
      if Valid(t.entries, s) {
        var e := t.entries[s].(appl := true);
        RegisterKeepsInv(t, s, e);
        FilterLeavesOpen(t.(entries := t.entries[s := e]), mask, sig, from);
        FilterLeavesOpen(t, mask, sig, from);
      }
    case Shootdown(_) =>
  }

  /** A usable signal the client registers is in no mask let through from then on. */
  lemma {:induction false} ClientSignalsStayOpen(t: Table, steps: seq<Step>, k: nat, sig: int)
    requires Inv(t) && k < |steps| && Registers(steps[k], sig) && Valid(Run(t, steps[..k]).entries, sig)
    ensures OpenSince(Run(t, steps), sig, |Run(t, steps[..k]).passed|)
    decreases |steps|
  {
    hide Inv, Apply, OpenSince;
    var n := |steps| - 1;
    RunNext(t, steps);
    if k < n {
      assert steps[..n][..k] == steps[..k];
      ClientSignalsStayOpen(t, steps[..n], k, sig);
    }
    StepLeavesOpen(Run(t, steps[..n]), steps[n], sig, |Run(t, steps[..k]).passed|);
  }

  // ---------- what a mask loses ----------

  ghost predicate Registered(steps: seq<Step>, sig: int) {
    exists k :: 0 <= k < |steps| && Registers(steps[k], sig)
  }

  /** Kept open from the start, or by a registration of the client, or as the signal fixed before exit. */
  ghost predicate KeptOpen(start: seq<Entry>, steps: seq<Step>, t: Table, sig: int)
    requires Valid(start, sig)
  {
    start[sig].keepOpen || Registered(steps, sig) || (t.choice == Kept && t.shootdown == sig)
  }

  ghost predicate OpenTells(start: seq<Entry>, steps: seq<Step>, t: Table, sig: int)
    requires Valid(start, sig)
  {
    Valid(t.entries, sig) && (t.entries[sig].keepOpen <==> KeptOpen(start, steps, t, sig))
  }

  lemma RegisteredNext(steps: seq<Step>, step: Step, sig: int)
    ensures Registered(steps + [step], sig) <==> Registered(steps, sig) || Registers(step, sig)
  {
    var n, next := |steps|, steps + [step];
    assert next[n] == step && forall j :: 0 <= j < n ==> next[j] == steps[j];
  }

  /** One step: the registration or the fixing of the signal, and nothing else, keeps it open. */
  ghost predicate OpenStep(t: Table, t': Table, sig: int, registered: bool)
    requires Valid(t.entries, sig)
  {
    && Valid(t'.entries, sig) && (t.choice == Kept ==> t'.choice == Kept && t'.shootdown == t.shootdown)
    && (t'.entries[sig].keepOpen <==>
          t.entries[sig].keepOpen || registered || (t'.choice == Kept && t.choice != Kept && t'.shootdown == sig))
  }

  lemma FilterOpens(t: Table, mask: set<int>, sig: int)
    requires Inv(t) && Valid(t.entries, sig)
    ensures OpenStep(t, Filter(t, mask).0, sig, false)
  {
    var f := FixIfCovered(t, mask);
    assert Valid(f.entries, sig);
  }

  lemma StepOpens(t: Table, step: Step, sig: int)
    requires Inv(t) && Valid(t.entries, sig)
    ensures OpenStep(t, Apply(t, step), sig, Registers(step, sig))
  {
    hide Filter;
    match step
    case Mask(mask) => FilterOpens(t, mask, sig);
    case Client(s, handler, act, mask) =>
      if Valid(t.entries, s) {
        var e := t.entries[s].(keepOpen := true, client := handler);
        RegisterKeepsInv(t, s, e);
        FilterOpens(t.(entries := t.entries[s := e]), mask, sig);
      }
    case Appl(s, caught, act, mask) =>
      if Valid(t.entries, s) {
        var e := t.entries[s].(appl := true);
        RegisterKeepsInv(t, s, e);
        FilterOpens(t.(entries := t.entries[s := e]), mask, sig);
        FilterOpens(t, mask, sig);
      }
    case Shootdown(_) =>
  }

  lemma {:induction false} OpenTellsHistory(start: seq<Entry>, t: Table, steps: seq<Step>, sig: int)
    requires Inv(t) && Valid(start, sig) && OpenTells(start, [], t, sig)
    ensures OpenTells(start, steps, Run(t, steps), sig)
    decreases |steps|
  {
    hide Inv, Apply;
    if steps == [] {
    } else {
      var n := |steps| - 1;
      OpenTellsHistory(start, t, steps[..n], sig);
      StepOpens(Run(t, steps[..n]), steps[n], sig);
      RegisteredNext(steps[..n], steps[n], sig);
      RunNext(t, steps);
      assert steps[..n] + [steps[n]] == steps;
    }
  }

  /** The step asks for a mask: a mask request itself, or a registration of a usable signal with an act. */
  predicate Asks(start: seq<Entry>, step: Step) {
    step.Mask? || ((step.Client? || step.Appl?) && step.act && Valid(start, step.sig))
  }

  lemma FilterLets(t: Table, mask: set<int>)
    requires ListValid(t)
    ensures var t' := Filter(t, mask).0;
            |t'.passed| == |t.passed| + 1 && t'.passed[..|t.passed|] == t.passed
            && forall x :: x in t'.passed[|t.passed|] <==> x in mask && !(Valid(t'.entries, x) && t'.entries[x].keepOpen)
  {
    var f := FixIfCovered(t, mask);
  }

  lemma StepLets(t: Table, step: Step)
    requires Inv(t)
    ensures var t' := Apply(t, step);
            if Asks(t.entries, step) then
              |t'.passed| == |t.passed| + 1 && t'.passed[..|t.passed|] == t.passed
              && forall x :: x in t'.passed[|t.passed|] <==> x in step.mask && !(Valid(t'.entries, x) && t'.entries[x].keepOpen)
            else t'.passed == t.passed
  {
    hide Filter;
    match step
    case Mask(mask) => FilterLets(t, mask);
    case Client(s, handler, act, mask) =>
      if Valid(t.entries, s) {
        var e := t.entries[s].(keepOpen := true, client := handler);
        RegisterKeepsInv(t, s, e);
        FilterLets(t.(entries := t.entries[s := e]), mask);
      }
    case Appl(s, caught, act, mask) =>
      if Valid(t.entries, s) {
        var e := t.entries[s].(appl := true);
        RegisterKeepsInv(t, s, e);
        FilterLets(t.(entries := t.entries[s := e]), mask);
        FilterLets(t, mask);
      }
    case Shootdown(_) =>
  }

  /** In every run exactly the steps that ask for a mask let one through, and what is taken out of it are the
      usable signals kept open from the start, those the client has registered, and the one fixed. */
  lemma MasksLetThrough(entries: seq<Entry>, realtime: seq<int>, extra: seq<int>, lastResort: int, env: int, steps: seq<Step>, x: int)
    requires Boot(entries, lastResort) && steps != []
    ensures var t0 := Init(entries, realtime, extra, lastResort, env);
            var n := |steps| - 1;
            var t, t' := Run(t0, steps[..n]), Run(t0, steps);
            if Asks(entries, steps[n]) then
              |t'.passed| == |t.passed| + 1 && t'.passed[..|t.passed|] == t.passed
              && (x in t'.passed[|t.passed|] <==> x in steps[n].mask && !(Valid(entries, x) && KeptOpen(entries, steps, t', x)))
            else t'.passed == t.passed
  {
    hide Inv, Apply, KeptOpen, Valid;
    var t0 := Init(entries, realtime, extra, lastResort, env);
    var n := |steps| - 1;
    SameUsable(t0, []);
    SameUsable(t0, steps[..n]);
    SameUsable(t0, steps);
    SameUsableAtStart(entries, realtime, extra, lastResort, env);
    RunNext(t0, steps);
    StepLets(Run(t0, steps[..n]), steps[n]);
    if Valid(entries, x) {
      InitOpens(entries, realtime, extra, lastResort, env, x);
      OpenTellsHistory(entries, t0, steps, x);
    }
  }

  lemma SameUsableAtStart(entries: seq<Entry>, realtime: seq<int>, extra: seq<int>, lastResort: int, env: int)
    requires Boot(entries, lastResort)
    ensures forall s :: Valid(Init(entries, realtime, extra, lastResort, env).entries, s) <==> Valid(entries, s)
  {
    hide Listed;
  }

  lemma InitOpens(entries: seq<Entry>, realtime: seq<int>, extra: seq<int>, lastResort: int, env: int, sig: int)
    requires Boot(entries, lastResort) && Valid(entries, sig)
    ensures OpenTells(entries, [], Init(entries, realtime, extra, lastResort, env), sig)
  {
    hide Listed;
  }

  lemma {:induction false} SameUsable(t: Table, steps: seq<Step>)
    requires Inv(t)
    ensures forall s :: Valid(Run(t, steps).entries, s) <==> Valid(t.entries, s)
    decreases |steps|
  {
    hide Inv, Apply, Valid;
    if steps == [] {
    } else {
      var n := |steps| - 1;
      SameUsable(t, steps[..n]);
      StepUsable(Run(t, steps[..n]), steps[n]);
      RunNext(t, steps);
    }
  }

  lemma StepUsable(t: Table, step: Step)
    requires Inv(t)
    ensures forall s :: ListValid(t) && (Valid(Apply(t, step).entries, s) <==> Valid(t.entries, s))
  {
    match step
    case Mask(mask) => FilterUsable(t, mask);
    case Client(s, handler, act, mask) =>
      if Valid(t.entries, s) {
        var e := t.entries[s].(keepOpen := true, client := handler);
        RegisterKeepsInv(t, s, e);
        FilterUsable(t.(entries := t.entries[s := e]), mask);
      }
    case Appl(s, caught, act, mask) =>
      if Valid(t.entries, s) {
        var e := t.entries[s].(appl := true);
        RegisterKeepsInv(t, s, e);
        FilterUsable(t.(entries := t.entries[s := e]), mask);
        FilterUsable(t, mask);
      }
    case Shootdown(_) =>
  }

  lemma FilterUsable(t: Table, mask: set<int>)
    requires ListValid(t)
    ensures forall s :: Valid(Filter(t, mask).0.entries, s) <==> Valid(t.entries, s)
  {
    var f := FixIfCovered(t, mask);
    assert forall s :: Valid(f.entries, s) <==> Valid(t.entries, s);
  }

  // ---------- the candidates ----------

  lemma ListedFirst(entries: seq<Entry>, sigs: seq<int>)
    requires sigs != []
    ensures Listed(entries, sigs) == (if Listable(entries, sigs[0]) then [sigs[0]] else []) + Listed(entries, sigs[1..])
  {
  }

  /** The candidates are the last resort and those offered signals that are usable, do not stop the process
      by default and were not kept open from the start; no step changes them. */
  lemma CandidatesAre(entries: seq<Entry>, realtime: seq<int>, extra: seq<int>, lastResort: int, env: int, steps: seq<Step>, s: int)
    requires Boot(entries, lastResort)
    ensures var t := Run(Init(entries, realtime, extra, lastResort, env), steps);
            s in t.list <==> s == lastResort || ((s in realtime || s in extra) && Valid(entries, s)
                                                 && !entries[s].stop && !entries[s].keepOpen)
  {
    hide Run, Inv;
    var t0 := Init(entries, realtime, extra, lastResort, env);
    InvLists(t0);
    assert t0.list[0] in t0.list;
    FlagsTellHistory(t0, steps, t0.list[0]);
    ListKept(t0, steps, Run(t0, steps), t0.list[0]);
  }

  ghost predicate NoStop(entries: seq<Entry>, t: Table, lastResort: int) {
    t.shootdown == -1 || (1 <= t.shootdown < |entries| && (t.shootdown == lastResort || !entries[t.shootdown].stop))
  }

  lemma {:induction false} FixedNoStop(entries: seq<Entry>, realtime: seq<int>, extra: seq<int>, lastResort: int, env: int, steps: seq<Step>)
    requires Boot(entries, lastResort) && forall i :: 0 <= i < |steps| && steps[i].Shootdown? ==> steps[i].lastResort == lastResort
    ensures NoStop(entries, Run(Init(entries, realtime, extra, lastResort, env), steps), lastResort)
    decreases |steps|
  {
    hide Apply, Listed, Inv;
    var t0 := Init(entries, realtime, extra, lastResort, env);
    if steps != [] {
      var n := |steps| - 1;
      FixedNoStop(entries, realtime, extra, lastResort, env, steps[..n]);
      RunNext(t0, steps);
      StepFixesListed(Run(t0, steps[..n]), steps[n]);
      CandidatesAre(entries, realtime, extra, lastResort, env, steps[..n], Run(t0, steps).shootdown);
    }
  }

  lemma StepFixesListed(t: Table, step: Step)
    requires Inv(t)
    ensures var t' := Apply(t, step);
            t'.shootdown == t.shootdown || t'.shootdown in t.list
  {
    match step
    case Shootdown(lastResort) => ShootdownKeepsInv(t, lastResort);
    case Client(s, handler, act, mask) =>
      if Valid(t.entries, s) { RegisterKeepsInv(t, s, t.entries[s].(keepOpen := true, client := handler)); }
    case Appl(s, caught, act, mask) =>
      if Valid(t.entries, s) { RegisterKeepsInv(t, s, t.entries[s].(appl := true)); }
    case _ =>
  }

  /** In every run the shootdown signal, whichever way it was chosen, is not one that stops the process by
      default, unless it is the last resort. */
  lemma ShootdownNeverStops(entries: seq<Entry>, realtime: seq<int>, extra: seq<int>, lastResort: int, env: int, steps: seq<Step>)
    requires Boot(entries, lastResort) && forall i :: 0 <= i < |steps| && steps[i].Shootdown? ==> steps[i].lastResort == lastResort
    ensures var sig := ShootdownSignal(Run(Init(entries, realtime, extra, lastResort, env), steps), lastResort).shootdown;
            1 <= sig < |entries| && (sig == lastResort || !entries[sig].stop)
  {
    hide Apply, Listed, Init, Run;
    var t := Run(Init(entries, realtime, extra, lastResort, env), steps);
    FixedNoStop(entries, realtime, extra, lastResort, env, steps);
    ShootdownKeepsInv(t, lastResort);
    if t.shootdown == -1 {
      CandidatesAre(entries, realtime, extra, lastResort, env, steps, Pick(t.entries, t.list));
    }
  }

  /** The candidates come in the order of the source's list. */
  lemma {:induction false} ListedInOrder(entries: seq<Entry>, a: seq<int>, b: seq<int>)
    ensures Listed(entries, a + b) == Listed(entries, a) + Listed(entries, b)
  {
    hide Listed, Listable;
    if a == [] {
      NoneListed(entries, a, []);
      assert a + b == b;
    } else {
      ListedFirst(entries, a);
      ListedFirst(entries, a + b);
      ListedInOrder(entries, a[1..], b);
      assert (a + b)[0] == a[0] && (a + b)[1..] == a[1..] + b;
    }
  }
}
