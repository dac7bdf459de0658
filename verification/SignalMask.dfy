/** The signal table of libmonitor: every signal mask is filtered so that some signal stays usable for
    thread shootdown, and at exit one such signal is chosen. */
module SignalMask {

  datatype Entry = Entry(
    avoid: bool,      // hands off: SIGKILL, SIGSTOP
    invalid: bool,    // sigaction refused it
    stop: bool,       // stops the process by default
    keepOpen: bool,   // never to be blocked
    blocked: bool,    // let through in some mask
    client: bool,     // the client has a handler
    appl: bool)       // the application has a handler

  /** How the shootdown signal came to be fixed. */
  datatype Choice =
    | Unchosen
    | Kept            // from the environment or by the filter, and kept open since
    | AtExit(at: nat) // by monitor_shootdown_signal, after `at` masks had been let through

  /** `shootdown` is -1 while no signal is fixed; `passed` and `choice` record the history. */
  datatype Table = Table(entries: seq<Entry>, list: seq<int>, shootdown: int, passed: seq<set<int>>, choice: Choice)

  predicate Valid(entries: seq<Entry>, sig: int) {
    1 <= sig < |entries| && !entries[sig].avoid && !entries[sig].invalid
  }

  predicate AllValid(entries: seq<Entry>, list: seq<int>) {
    forall s :: s in list ==> Valid(entries, s)
  }

  predicate Listable(entries: seq<Entry>, sig: int) {
    Valid(entries, sig) && !entries[sig].stop && !entries[sig].keepOpen
  }

  function Listed(entries: seq<Entry>, sigs: seq<int>): (r: seq<int>)
    ensures forall s :: s in r <==> s in sigs && Listable(entries, s)
  {
    if sigs == [] then []
    else (if Listable(entries, sigs[0]) then [sigs[0]] else []) + Listed(entries, sigs[1..])
  }

  lemma NoneListed(entries: seq<Entry>, sigs: seq<int>, list: seq<int>)
    requires sigs == []
    ensures list + Listed(entries, sigs) == list
  {
  }

  lemma ListedNext(entries: seq<Entry>, sigs: seq<int>, i: nat, list: seq<int>)
    requires i < |sigs|
    ensures list + Listed(entries, sigs[i..])
            == (if Listable(entries, sigs[i]) then list + [sigs[i]] else list) + Listed(entries, sigs[i + 1..])
  {
    assert sigs[i..][0] == sigs[i] && sigs[i..][1..] == sigs[i + 1..];
  }

  /** The initial entries monitor_signal_init can meet: nothing blocked yet, the last resort usable. */
  ghost predicate Boot(entries: seq<Entry>, lastResort: int) {
    Valid(entries, lastResort) && forall s :: 0 <= s < |entries| ==> !entries[s].blocked
  }

  /** The table monitor_signal_init leaves: the real-time candidates, the extra candidates and the last
      resort, and the signal the environment asks for, if it is usable. */
  ghost function Init(entries: seq<Entry>, realtime: seq<int>, extra: seq<int>, lastResort: int, env: int): (t: Table)
    requires Boot(entries, lastResort)
    ensures Inv(t)
  {
    var list := Listed(entries, realtime) + Listed(entries, extra) + [lastResort];
    assert list[|list| - 1] == lastResort;
    if Valid(entries, env) && !entries[env].stop
    then Table(entries[env := entries[env].(keepOpen := true)], list, env, [], Kept)
    else Table(entries, list, -1, [], Unchosen)
  }

  // ---------- the mask filter ----------

  /** The first listed signal not blocked so far, or -1. */
  function FirstUnblocked(entries: seq<Entry>, list: seq<int>): (r: int)
    requires AllValid(entries, list)
    ensures r == -1 ==> forall s :: s in list ==> entries[s].blocked
    ensures r != -1 ==> r in list && !entries[r].blocked
  {
    if list == [] then -1
    else assert list[0] in list; if !entries[list[0]].blocked then list[0]
    else FirstUnblocked(entries, list[1..])
  }

  lemma FirstUnblockedNext(entries: seq<Entry>, list: seq<int>, i: nat)
    requires AllValid(entries, list) && i < |list|
    ensures list[i] in list && FirstUnblocked(entries, list[i..]) == if !entries[list[i]].blocked then list[i] else FirstUnblocked(entries, list[i + 1..])
  {
    assert list[i..][0] == list[i] && list[i..][1..] == list[i + 1..];
  }

  /** The mask leaves some listed, unblocked signal open. */
  ghost predicate LeavesOne(t: Table, mask: set<int>)
    requires ListValid(t)
  {
    exists s :: s in t.list && !t.entries[s].blocked && s !in mask
  }

  ghost predicate ListValid(t: Table) {
    t.list != [] && AllValid(t.entries, t.list)
  }

  /** When the mask would cover every signal still available, the first of them is fixed and kept open. */
  ghost function FixIfCovered(t: Table, mask: set<int>): Table
    requires ListValid(t)
  {
    var avail := FirstUnblocked(t.entries, t.list);
    if t.shootdown < 0 && avail > 0 && !LeavesOne(t, mask)
    then t.(shootdown := avail, choice := Kept, entries := t.entries[avail := t.entries[avail].(keepOpen := true)])
    else t
  }

  function Open(entries: seq<Entry>, mask: set<int>): (r: set<int>)
    ensures forall s :: s in r <==> s in mask && !(Valid(entries, s) && entries[s].keepOpen)
  {
    set s | s in mask && !(Valid(entries, s) && entries[s].keepOpen)
  }

  function MarkBlocked(entries: seq<Entry>, mask: set<int>): (r: seq<Entry>)
    ensures |r| == |entries|
    ensures forall s :: 0 <= s < |r| ==>
              r[s] == if Valid(entries, s) && !entries[s].keepOpen && s in mask then entries[s].(blocked := true) else entries[s]
  {
    seq(|entries|, s requires 0 <= s < |entries| =>
      if Valid(entries, s) && !entries[s].keepOpen && s in mask then entries[s].(blocked := true) else entries[s])
  }

  /** `monitor_remove_client_signals`: the new table and the mask let through. */
  ghost function Filter(t: Table, mask: set<int>): (Table, set<int>)
    requires ListValid(t)
  {
    var f := FixIfCovered(t, mask);
    var out := Open(f.entries, mask);
    (f.(entries := MarkBlocked(f.entries, mask), passed := t.passed + [out]), out)
  }

  // ---------- the other operations ----------

  /** `monitor_sigaction`, the client's registration; `handler` when it is not null, `mask` the act's mask
      when there is an act. */
  ghost function ClientSigaction(t: Table, sig: int, handler: bool, act: bool, mask: set<int>): Table
    requires ListValid(t)
  {
    if !Valid(t.entries, sig) then t
    else
      var t' := t.(entries := t.entries[sig := t.entries[sig].(keepOpen := true, client := handler)]);
      if act then Filter(t', mask).0 else t'
  }

  /** `monitor_appl_sigaction`; `caught` when the act installs a handler. */
  ghost function ApplSigaction(t: Table, sig: int, caught: bool, act: bool, mask: set<int>): Table
    requires ListValid(t)
  {
    if !Valid(t.entries, sig) then t
    else
      var t' := if act && caught then t.(entries := t.entries[sig := t.entries[sig].(appl := true)]) else t;
      if act then Filter(t', mask).0 else t'
  }

  /** The signal fits preference level 1, 2 or 3 of monitor_shootdown_signal. */
  predicate Level(e: Entry, level: int) {
    !e.blocked && (level <= 2 ==> !e.client) && (level <= 1 ==> !e.appl)
  }

  function FirstAtLevel(entries: seq<Entry>, list: seq<int>, level: int): (r: int)
    requires AllValid(entries, list)
    ensures r == -1 ==> forall s :: s in list ==> !Level(entries[s], level)
    ensures r != -1 ==> r in list && Level(entries[r], level)
  {
    if list == [] then -1
    else assert list[0] in list; if Level(entries[list[0]], level) then list[0]
    else FirstAtLevel(entries, list[1..], level)
  }

  /** The i-th listed signal fits the level and none before it does. */
  ghost predicate Earliest(entries: seq<Entry>, list: seq<int>, level: int, i: nat)
    requires AllValid(entries, list)
  {
    && i < |list| && list[i] in list && Level(entries[list[i]], level)
    && forall j :: 0 <= j < i ==> list[j] in list && !Level(entries[list[j]], level)
  }

  lemma {:induction false} FirstIsEarliest(entries: seq<Entry>, list: seq<int>, level: int) returns (i: nat)
    requires AllValid(entries, list) && FirstAtLevel(entries, list, level) != -1
    ensures Earliest(entries, list, level, i) && list[i] == FirstAtLevel(entries, list, level)
  {
    assert list == [list[0]] + list[1..];
    assert list[0] in list;
    if Level(entries[list[0]], level) {
      i := 0;
    } else {
      var k := FirstIsEarliest(entries, list[1..], level);
      i := k + 1;
      forall j | 0 <= j < i ensures list[j] in list && !Level(entries[list[j]], level) {
        assert j > 0 ==> list[j] == list[1..][j - 1];
      }
    }
  }

  /** The signal `monitor_shootdown_signal` picks when none is fixed, -1 standing for its fallback. */
  function Pick(entries: seq<Entry>, list: seq<int>): (r: int)
    requires AllValid(entries, list)
  {
    var a1, a2, a3 := FirstAtLevel(entries, list, 1), FirstAtLevel(entries, list, 2), FirstAtLevel(entries, list, 3);
    if a1 > 0 then a1 else if a2 > 0 then a2 else a3
  }

  ghost function ShootdownSignal(t: Table, lastResort: int): Table
    requires ListValid(t)
  {
    if t.shootdown > 0 then t
    else
      var s := Pick(t.entries, t.list);
      t.(shootdown := if s > 0 then s else lastResort, choice := AtExit(|t.passed|))
  }

  datatype Step =
    | Mask(mask: set<int>)
    | Client(sig: int, handler: bool, act: bool, mask: set<int>)
    | Appl(sig: int, caught: bool, act: bool, mask: set<int>)
    | Shootdown(lastResort: int)

  ghost function Apply(t: Table, step: Step): Table
    requires ListValid(t)
  {
    match step
    case Mask(mask) => Filter(t, mask).0
    case Client(sig, handler, act, mask) => ClientSigaction(t, sig, handler, act, mask)
    case Appl(sig, caught, act, mask) => ApplSigaction(t, sig, caught, act, mask)
    case Shootdown(lastResort) => ShootdownSignal(t, lastResort)
  }

  // ---------- what every run keeps ----------

  /** A valid signal that was let through in some mask is marked blocked. */
  ghost predicate PassedAreBlocked(t: Table) {
    forall k, s :: 0 <= k < |t.passed| && s in t.passed[k] && Valid(t.entries, s) ==> t.entries[s].blocked
  }

  ghost predicate AbsentBefore(passed: seq<set<int>>, s: int, n: int) {
    forall k :: 0 <= k < n && k < |passed| ==> s !in passed[k]
  }

  ghost predicate Inv(t: Table) {
    && ListValid(t) && PassedAreBlocked(t)
    && (t.shootdown > 0 || t.shootdown == -1)
    && match t.choice
       case Unchosen => t.shootdown == -1 && exists s :: s in t.list && !t.entries[s].blocked
       case Kept =>
         && Valid(t.entries, t.shootdown) && t.entries[t.shootdown].keepOpen
         && AbsentBefore(t.passed, t.shootdown, |t.passed|)
       case AtExit(at) => t.shootdown in t.list && at <= |t.passed| && AbsentBefore(t.passed, t.shootdown, at)
  }

  lemma FilterKeepsInv(t: Table, mask: set<int>)
    requires Inv(t)
    ensures Inv(Filter(t, mask).0)
    ensures t.shootdown > 0 ==> Filter(t, mask).0.shootdown == t.shootdown && Filter(t, mask).0.choice == t.choice
  {
    var f := FixIfCovered(t, mask);
    var (t', out) := Filter(t, mask);
    assert t'.passed[|t.passed|] == out;
    assert PassedAreBlocked(f);
    forall k, s | 0 <= k < |t'.passed| && s in t'.passed[k] && Valid(t'.entries, s) ensures t'.entries[s].blocked {
      if k < |t.passed| { assert s in f.passed[k]; }
    }
    if t.choice.Unchosen? {
      if f.choice.Unchosen? {
        var s :| s in t.list && !t.entries[s].blocked && s !in mask;
        assert !t'.entries[s].blocked;
      } else {
        assert AbsentBefore(t'.passed, t'.shootdown, |t'.passed|);
      }
    }
  }

  /** Every mask let through leaves a usable signal open, and it is the fixed one if one is fixed. */
  lemma FilterLeavesOneOpen(t: Table, mask: set<int>)
    requires Inv(t) && !t.choice.AtExit?
    ensures var (t', out) := Filter(t, mask);
            exists s :: Valid(t'.entries, s) && s !in out && (t'.shootdown > 0 ==> s == t'.shootdown)
  {
    FilterKeepsInv(t, mask);
    var (t', out) := Filter(t, mask);
    assert t'.passed[|t.passed|] == out;
    if t'.choice.Unchosen? {
      var s :| s in t.list && !t.entries[s].blocked && s !in mask;
      assert Valid(t'.entries, s);
    } else {
      assert Valid(t'.entries, t'.shootdown);
    }
  }

  lemma RegisterKeepsInv(t: Table, sig: int, e: Entry)
    requires Inv(t) && 1 <= sig < |t.entries|
    requires var o := t.entries[sig];
             e.avoid == o.avoid && e.invalid == o.invalid && e.blocked == o.blocked && (o.keepOpen ==> e.keepOpen)
    ensures Inv(t.(entries := t.entries[sig := e]))
  {
    var t' := t.(entries := t.entries[sig := e]);
    assert forall s :: Valid(t'.entries, s) <==> Valid(t.entries, s);
    if t.choice.Unchosen? {
      var s :| s in t.list && !t.entries[s].blocked;
      assert !t'.entries[s].blocked;
    }
  }

  /** While no signal is fixed, some listed signal has never been let through in a mask, so the fallback
      is never reached, and the signal picked was in no mask let through so far. */
  lemma ShootdownKeepsInv(t: Table, lastResort: int)
    requires Inv(t)
    ensures Inv(ShootdownSignal(t, lastResort))
    ensures t.shootdown <= 0 ==> Pick(t.entries, t.list) > 0 && ShootdownSignal(t, lastResort).shootdown == Pick(t.entries, t.list)
    ensures AbsentBefore(t.passed, ShootdownSignal(t, lastResort).shootdown, |t.passed|) || t.choice.AtExit?
  {
    if t.shootdown <= 0 {
      var s :| s in t.list && !t.entries[s].blocked;
      assert Level(t.entries[s], 3);
      var p := Pick(t.entries, t.list);
      assert p in t.list && !t.entries[p].blocked;
    }
  }

  lemma StepKeepsInv(t: Table, step: Step)
    requires Inv(t)
    ensures Inv(Apply(t, step))
    ensures t.shootdown > 0 ==> Apply(t, step).shootdown == t.shootdown && Apply(t, step).choice == t.choice
    ensures t.passed <= Apply(t, step).passed
  {
    match step
    case Mask(mask) => FilterKeepsInv(t, mask);
    case Client(sig, handler, act, mask) =>
      if Valid(t.entries, sig) {
        var e := t.entries[sig].(keepOpen := true, client := handler);
        RegisterKeepsInv(t, sig, e);
        FilterKeepsInv(t.(entries := t.entries[sig := e]), mask);
      }
    case Appl(sig, caught, act, mask) =>
      if Valid(t.entries, sig) {
        var e := t.entries[sig].(appl := true);
        RegisterKeepsInv(t, sig, e);
        FilterKeepsInv(t.(entries := t.entries[sig := e]), mask);
        FilterKeepsInv(t, mask);
      }
    case Shootdown(lastResort) => ShootdownKeepsInv(t, lastResort);
  }

  /** The state after a run of steps. */
  ghost function Run(t: Table, steps: seq<Step>): (r: Table)
    requires Inv(t)
    ensures Inv(r)
    decreases |steps|
  {
    if steps == [] then t
    else
      var n := |steps| - 1;
      StepKeepsInv(Run(t, steps[..n]), steps[n]);
      Apply(Run(t, steps[..n]), steps[n])
  }

  /** After every run of mask requests and registrations, asking for the shootdown signal yields a valid
      signal without the fallback, and it was in no mask let through before it was fixed; one fixed by
      the environment or by the filter is in no mask let through at all. */
  lemma ShootdownSignalAlwaysUsable(entries: seq<Entry>, realtime: seq<int>, extra: seq<int>, lastResort: int, env: int, steps: seq<Step>)
    requires Boot(entries, lastResort)
    ensures var t := Run(Init(entries, realtime, extra, lastResort, env), steps);
            var t' := ShootdownSignal(t, lastResort);
            && Valid(t'.entries, t'.shootdown)
            && (t.shootdown == -1 ==> t'.shootdown == Pick(t.entries, t.list) && AbsentBefore(t.passed, t'.shootdown, |t.passed|))
            && (t.choice == Kept ==> AbsentBefore(t.passed, t.shootdown, |t.passed|))
            && (t.choice.AtExit? ==> AbsentBefore(t.passed, t.shootdown, t.choice.at))
  {
    var t := Run(Init(entries, realtime, extra, lastResort, env), steps);
    ShootdownKeepsInv(t, lastResort);
  }

  /** A signal picked at exit is not kept open: a later mask that names it is let through with it. */
  lemma ExitChoiceMayBeBlockedLater(t: Table, lastResort: int, mask: set<int>)
    requires Inv(t) && t.shootdown == -1
    ensures var t' := ShootdownSignal(t, lastResort);
            t'.shootdown in Filter(t', mask).1 <==> t'.shootdown in mask && !t.entries[t'.shootdown].keepOpen
  {
    ShootdownKeepsInv(t, lastResort);
  }

  /** Once the last resort, the only candidate, is picked at exit, a mask that names it is let through whole. */
  lemma ExitChoiceBlocked() returns (entries: seq<Entry>, t: Table)
    ensures Boot(entries, 1) && t == Run(Init(entries, [], [], 1, 0), [Shootdown(1)])
    ensures t.shootdown == 1 && 1 in Filter(t, {1}).1
  {
    var usable := Entry(false, false, false, false, false, false, false);
    entries := [usable, usable];
    var t0 := Init(entries, [], [], 1, 0);
    assert t0 == Table(entries, [1], -1, [], Unchosen);
    assert [Shootdown(1)][..0] == [];
    assert Run(t0, [Shootdown(1)][..0]) == t0;
    t := Run(t0, [Shootdown(1)]);
    ShootdownKeepsInv(t0, 1);
  }

  /** The pick honours the order of preference: no application or client handler, then no client handler,
      then any open signal; within the best level any listed signal reaches, the earliest in the list. */
  lemma PickPrefers(entries: seq<Entry>, list: seq<int>, level: int, s: int) returns (best: int, i: nat)
    requires AllValid(entries, list)
    requires 1 <= level <= 3 && s in list && Level(entries[s], level)
    ensures 1 <= best <= level && Earliest(entries, list, best, i) && Pick(entries, list) == list[i]
    ensures best > 1 ==> forall x :: x in list ==> !Level(entries[x], best - 1)
  {
    assert Level(entries[s], 3);
    best := if FirstAtLevel(entries, list, 1) != -1 then 1 else if FirstAtLevel(entries, list, 2) != -1 then 2 else 3;
    i := FirstIsEarliest(entries, list, best);
  }

  /** monitor_signal_array and the shootdown state, updated in place under the signal lock. */
  class SignalTable {
    const array_: array<Entry>
    var list: seq<int>
    var shootdown: int
    ghost var passed: seq<set<int>>
    ghost var choice: Choice

    ghost function View(): Table
      reads this, array_
    {
      Table(array_[..], list, shootdown, passed, choice)
    }

    /** One of the two loops that build the list. */
    static method AppendListable(entries: array<Entry>, list0: seq<int>, sigs: seq<int>) returns (list: seq<int>)
      ensures list == list0 + Listed(entries[..], sigs)
    {
      hide Listed;
      list := list0;
      assert sigs[0..] == sigs;
      for i := 0 to |sigs|
        invariant list + Listed(entries[..], sigs[i..]) == list0 + Listed(entries[..], sigs)
      {
        var sig := sigs[i];
        ListedNext(entries[..], sigs, i, list);
        if 1 <= sig < entries.Length && !entries[sig].avoid && !entries[sig].invalid
           && !entries[sig].stop && !entries[sig].keepOpen {
          list := list + [sig];
        }
      }
      NoneListed(entries[..], sigs[|sigs|..], list);
    }

    /** The end of `monitor_signal_init`. */
    constructor (entries: array<Entry>, realtime: seq<int>, extra: seq<int>, lastResort: int, env: int)
      requires Boot(entries[..], lastResort)
      modifies entries
      ensures array_ == entries
      ensures View() == Init(old(entries[..]), realtime, extra, lastResort, env) && Inv(View())
    {
      hide Listed, Listable, Inv, Boot;
      array_, shootdown, passed, choice := entries, -1, [], Unchosen;
      new;
      ghost var was := entries[..];
      var candidates := AppendListable(entries, [], realtime);
      candidates := AppendListable(entries, candidates, extra);
      list := candidates + [lastResort];
      if 0 < env < entries.Length && !entries[env].avoid && !entries[env].invalid && !entries[env].stop {
        shootdown, choice := env, Kept;
        entries[env] := entries[env].(keepOpen := true);
        assert entries[..] == was[env := was[env].(keepOpen := true)];
      }
    }

    /** The search for an available signal the new mask leaves open. */
    method FindAvailable(mask: set<int>) returns (oldAvail: int, newAvail: int)
      requires ListValid(View())
      ensures newAvail < 0 <==> !LeavesOne(View(), mask)
      ensures newAvail < 0 ==> oldAvail == FirstUnblocked(array_[..], list)
    {
      hide FirstUnblocked;
      oldAvail, newAvail := -1, -1;
      var i := 0;
      assert list[0..] == list;
      while i < |list|
        invariant 0 <= i <= |list| && newAvail == -1
        invariant if oldAvail < 0 then FirstUnblocked(array_[..], list) == FirstUnblocked(array_[..], list[i..]) && oldAvail == -1
                  else oldAvail == FirstUnblocked(array_[..], list)
        invariant forall j :: 0 <= j < i ==> Valid(array_[..], list[j]) && (array_[list[j]].blocked || list[j] in mask)
      {
        var sig := list[i];
        FirstUnblockedNext(array_[..], list, i);
        if !array_[sig].blocked {
          if oldAvail < 0 {
            oldAvail := sig;
          }
          if sig !in mask {
            newAvail := sig;
            return;
          }
        }
        i := i + 1;
      }
    }

    /** The loop that removes the keep-open signals from the set and updates the blocked flags. */
    method DropAndMark(mask: set<int>) returns (out: set<int>)
      requires array_.Length > 0
      modifies array_
      ensures array_[..] == MarkBlocked(old(array_[..]), mask)
      ensures out == Open(old(array_[..]), mask)
    {
      out := mask;
      ghost var e := array_[..];
      for sig := 1 to array_.Length
        invariant forall s :: 0 <= s < |e| ==> array_[s] == if s < sig then MarkBlocked(e, mask)[s] else e[s]
        invariant forall s :: s in out <==> s in mask && !(s < sig && Valid(e, s) && e[s].keepOpen)
      {
        if !array_[sig].avoid && !array_[sig].invalid {
          if array_[sig].keepOpen {
            out := out - {sig};
          } else if sig in out {
            array_[sig] := array_[sig].(blocked := true);
          }
        }
      }
      assert forall s :: s in out <==> s in Open(e, mask);
    }

    /** `monitor_remove_client_signals`. */
    method RemoveClientSignals(mask: set<int>) returns (out: set<int>)
      requires ListValid(View())
      modifies this, array_
      ensures (View(), out) == Filter(old(View()), mask)
    {
      hide LeavesOne, FirstUnblocked, MarkBlocked, Open;
      assert array_.Length > 0 by { ListedIsValid(View()); }
      if shootdown < 0 {
        var oldAvail, newAvail := FindAvailable(mask);
        if oldAvail > 0 && newAvail < 0 {
          shootdown, choice := oldAvail, Kept;
          array_[oldAvail] := array_[oldAvail].(keepOpen := true);
        }
      }
      assert View() == FixIfCovered(old(View()), mask);
      out := DropAndMark(mask);
      passed := passed + [out];
    }

    /** `monitor_sigaction`. */
    method Sigaction(sig: int, handler: bool, act: bool, mask: set<int>) returns (r: int)
      requires Inv(View())
      modifies this, array_
      ensures View() == ClientSigaction(old(View()), sig, handler, act, mask) && Inv(View())
      ensures r == if Valid(old(array_[..]), sig) then 0 else -1
    {
      hide LeavesOne, FirstUnblocked, MarkBlocked, Open, Inv, Filter;
      InvLists(View());
      StepKeepsInv(View(), Client(sig, handler, act, mask));
      if sig <= 0 || sig >= array_.Length || array_[sig].avoid || array_[sig].invalid {
        return -1;
      }
      ghost var e := array_[..];
      array_[sig] := array_[sig].(keepOpen := true, client := handler);
      assert array_[..] == e[sig := e[sig].(keepOpen := true, client := handler)];
      if act {
        RegisterKeepsList(old(View()), sig, array_[sig]);
        var out := RemoveClientSignals(mask);
      }
      return 0;
    }

    /** `monitor_appl_sigaction`; `system` is what the system's sigaction answers for a signal to avoid. */
    method ApplicationSigaction(sig: int, caught: bool, act: bool, mask: set<int>, system: int) returns (r: int)
      requires Inv(View())
      modifies this, array_
      ensures View() == ApplSigaction(old(View()), sig, caught, act, mask) && Inv(View())
      ensures r == if Valid(old(array_[..]), sig) then 0
                   else if 1 <= sig < array_.Length && !old(array_[sig]).invalid then system else -1
    {
      hide LeavesOne, FirstUnblocked, MarkBlocked, Open, Inv, Filter;
      InvLists(View());
      StepKeepsInv(View(), Appl(sig, caught, act, mask));
      if sig <= 0 || sig >= array_.Length || array_[sig].invalid {
        return -1;
      }
      if array_[sig].avoid {
        return system;
      }
      ghost var e := array_[..];
      if act && caught {
        array_[sig] := array_[sig].(appl := true);
        assert array_[..] == e[sig := e[sig].(appl := true)];
        RegisterKeepsList(old(View()), sig, array_[sig]);
      }
      if act {
        var out := RemoveClientSignals(mask);
      }
      return 0;
    }

    /** `monitor_shootdown_signal`. */
    method GetShootdownSignal(lastResort: int) returns (r: int)
      requires Inv(View())
      modifies this
      ensures View() == ShootdownSignal(old(View()), lastResort) && r == shootdown
    {
      if shootdown > 0 {
        return shootdown;
      }
      var ans := Best(array_[..], list);
      shootdown := if ans > 0 then ans else lastResort;
      choice := AtExit(|passed|);
      return shootdown;
    }
  }

  lemma InvLists(t: Table)
    requires Inv(t)
    ensures ListValid(t)
  {
  }

  lemma RegisterKeepsList(t: Table, sig: int, e: Entry)
    requires ListValid(t) && 1 <= sig < |t.entries| && e.avoid == t.entries[sig].avoid && e.invalid == t.entries[sig].invalid
    ensures ListValid(t.(entries := t.entries[sig := e]))
  {
    assert forall s :: Valid(t.entries[sig := e], s) <==> Valid(t.entries, s);
  }

  lemma ListedIsValid(t: Table)
    requires ListValid(t)
    ensures Valid(t.entries, t.list[0])
  {
    assert t.list[0] in t.list;
  }

  /** The search by order of preference. */
  method Best(entries: seq<Entry>, list: seq<int>) returns (r: int)
    requires AllValid(entries, list)
    ensures r == Pick(entries, list)
  {
    var ans1, ans2, ans3 := -1, -1, -1;
    var i := 0;
    while i < |list|
      invariant 0 <= i <= |list| && ans1 == -1
      invariant FirstAtLevel(entries, list, 1) == FirstAtLevel(entries, list[i..], 1)
      invariant ans2 == -1 || ans2 > 0
      invariant ans2 < 0 ==> FirstAtLevel(entries, list, 2) == FirstAtLevel(entries, list[i..], 2)
      invariant ans2 > 0 ==> ans2 == FirstAtLevel(entries, list, 2)
      invariant ans3 == -1 || ans3 > 0
      invariant ans3 < 0 ==> FirstAtLevel(entries, list, 3) == FirstAtLevel(entries, list[i..], 3)
      invariant ans3 > 0 ==> ans3 == FirstAtLevel(entries, list, 3)
    {
      var sig := list[i];
      assert sig in list && list[i..][1..] == list[i + 1..];
      if !entries[sig].blocked {
        if ans3 < 0 {
          ans3 := sig;
        }
        if !entries[sig].client {
          if ans2 < 0 {
            ans2 := sig;
          }
          if !entries[sig].appl {
            ans1 := sig;
            break;
          }
        }
      }
      i := i + 1;
    }
    return if ans1 > 0 then ans1 else if ans2 > 0 then ans2 else ans3;
  }
}
