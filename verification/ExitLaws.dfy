/** The exit protocol seen from one thread: which steps change its flags, that its callbacks neither overlap
    nor stay unfinished unnoticed, and who waits for whom. */
module ExitLaws {
  import opened Common
  import opened ExitProtocol

  predicate StartedAt(s: State, t: Tid) {
    t in s.nodes && s.nodes[t].applStarted
  }

  predicate BlockedAt(s: State, t: Tid) {
    t in s.nodes && s.nodes[t].blockShootdown
  }

  /** Only the thread itself starts the application in it, and only it sets or clears its block, at any time. */
  lemma FlagsAreTheThreadsOwn(s: State, step: Step, t: Tid)
    requires PhaseOk(s) && Enabled(s, step)
    ensures StartedAt(Apply(s, step), t) <==> StartedAt(s, t) || step == Do(t, StartAppl)
    ensures BlockedAt(Apply(s, step), t) <==> if step.Do? && step.t == t && step.act.SetBlock? then step.act.on else BlockedAt(s, t)
  {
    hide Apply, Enabled;
    match step
    case Link(u) => LinkFlags(s, u, t);
    case Do(u, act) => DoFlags(s, u, act, t);
    case Unlink(u) => UnlinkFlags(s, u, t);
    case OwnBegin => OwnFlags(s, step, t);
    case OwnEnd => OwnFlags(s, step, t);
    case _ => OthersKeepNodes(s, step);
  }

  lemma LinkFlags(s: State, u: Tid, t: Tid)
    requires Enabled(s, Link(u))
    ensures var s' := Apply(s, Link(u)); (StartedAt(s', t) <==> StartedAt(s, t)) && (BlockedAt(s', t) <==> BlockedAt(s, t))
  {
  }

  lemma UnlinkFlags(s: State, u: Tid, t: Tid)
    requires Enabled(s, Unlink(u))
    ensures var s' := Apply(s, Unlink(u)); (StartedAt(s', t) <==> StartedAt(s, t)) && (BlockedAt(s', t) <==> BlockedAt(s, t))
  {
    hide Without;
  }

  lemma OwnFlags(s: State, step: Step, t: Tid)
    requires Enabled(s, step) && (step.OwnBegin? || step.OwnEnd?)
    ensures (StartedAt(Apply(s, step), t) <==> StartedAt(s, t)) && (BlockedAt(Apply(s, step), t) <==> BlockedAt(s, t))
  {
  }

  lemma FlagsMayBeSet(s: State, t: Tid, on: bool)
    requires Has(s, t)
    ensures Enabled(s, Do(t, StartAppl)) && StartedAt(Apply(s, Do(t, StartAppl)), t)
    ensures Enabled(s, Do(t, SetBlock(on))) && (BlockedAt(Apply(s, Do(t, SetBlock(on))), t) <==> on)
  {
  }

  lemma DoFlags(s: State, u: Tid, act: Act, t: Tid)
    requires Enabled(s, Do(u, act))
    ensures StartedAt(Apply(s, Do(u, act)), t) <==> StartedAt(s, t) || (u == t && act == StartAppl)
    ensures BlockedAt(Apply(s, Do(u, act)), t) <==> if u == t && act.SetBlock? then act.on else BlockedAt(s, t)
  {
    hide CanDo;
  }

  // ---------- one callback at a time ----------

  /** From one state of a thread to the next: a callback begins only while none runs; a path found in favour
      leads to its callback before another is found; only the cleanup path leads to the cleanup's end. */
  ghost predicate OneByOne(n: Node, n': Node) {
    && (n'.callbacks > n.callbacks ==> n'.callbacks == n.callbacks + 1 && n.activity == Idle)
    && (n.base.Some? && n'.base != n.base ==> n'.base.None? && n'.callbacks == n.callbacks + 1)
    && (n'.activity == InCleanup && n.activity != InCleanup ==> n.base == Some(ByCleanup))
    && (n.linked && !n'.linked ==> n.activity == BeforeUnlink)
  }

  lemma ActOneByOne(n: Node, act: Act, inExitCleanup: bool, finiThreadDone: bool)
    requires NodeOk(n) && CanDo(n, act, inExitCleanup, finiThreadDone)
    ensures OneByOne(n, Did(n, act))
  {
  }

  lemma LinkOneByOne(s: State, u: Tid, t: Tid)
    requires Enabled(s, Link(u)) && t in s.nodes
    ensures t in Apply(s, Link(u)).nodes && Apply(s, Link(u)).nodes[t] == s.nodes[t]
  {
  }

  lemma DoOneByOne(s: State, u: Tid, act: Act, t: Tid)
    requires Enabled(s, Do(u, act)) && t in s.nodes && NodeOk(s.nodes[t])
    ensures var s' := Apply(s, Do(u, act)); t in s'.nodes && OneByOne(s.nodes[t], s'.nodes[t])
  {
    hide CanDo, Did, NodeOk, OneByOne;
    SameOneByOne(s.nodes[t]);
    if u == t { ActOneByOne(s.nodes[t], act, s.inExitCleanup, s.finiThreadDone); }
  }

  lemma UnlinkOneByOne(s: State, u: Tid, t: Tid)
    requires Enabled(s, Unlink(u)) && t in s.nodes && NodeOk(s.nodes[t])
    ensures var s' := Apply(s, Unlink(u)); t in s'.nodes && OneByOne(s.nodes[t], s'.nodes[t])
  {
    hide NodeOk, OneByOne, Without;
    SameOneByOne(s.nodes[t]);
  }

  lemma OwnOneByOne(s: State, step: Step, t: Tid)
    requires Enabled(s, step) && (step.OwnBegin? || step.OwnEnd?) && t in s.nodes && NodeOk(s.nodes[t])
    ensures t in Apply(s, step).nodes && OneByOne(s.nodes[t], Apply(s, step).nodes[t])
  {
    hide NodeOk, OneByOne, OwnBegun;
    SameOneByOne(s.nodes[t]);
  }

  lemma CallbacksOneByOne(s: State, step: Step, t: Tid)
    requires Inv(s) && Enabled(s, step) && t in s.nodes
    ensures t in Apply(s, step).nodes && OneByOne(s.nodes[t], Apply(s, step).nodes[t])
  {
    hide Inv, Enabled, Apply, NodeOk, OneByOne;
    InvParts(s);
    NodesAreOk(s, t);
    SameOneByOne(s.nodes[t]);
    match step
    case Link(u) => LinkOneByOne(s, u, t);
    case Do(u, act) => DoOneByOne(s, u, act, t);
    case Unlink(u) => UnlinkOneByOne(s, u, t);
    case OwnBegin => OwnOneByOne(s, step, t);
    case OwnEnd => OwnOneByOne(s, step, t);
    case _ => OthersKeepNodes(s, step);
  }

  lemma SameOneByOne(n: Node)
    requires NodeOk(n)
    ensures OneByOne(n, n) && OneByOne(n, n.(finiDone := true)) && (!n.finiStarted ==> OneByOne(n, OwnBegun(n)))
    ensures n.activity == BeforeUnlink ==>
              OneByOne(n, n.(finiStarted := true, finiDone := true, activity := Idle)) && OneByOne(n, n.(linked := false, activity := Idle))
  {
  }

  lemma NodesAreOk(s: State, t: Tid)
    requires Inv(s) && t in s.nodes
    ensures NodeOk(s.nodes[t])
  {
  }

  /** In every run the callbacks of a thread begin one at a time, each path before another is found. */
  lemma RunsGoOneByOne(run: seq<State>, n: nat, t: Tid)
    requires IsRun(run) && n + 1 < |run| && t in run[n].nodes
    ensures t in run[n + 1].nodes && OneByOne(run[n].nodes[t], run[n + 1].nodes[t])
  {
    hide Inv, Init, Enabled, Apply;
    RunsKeepInv(run, n);
    var step := StepTaken(run, n);
    CallbacksOneByOne(run[n], step, t);
  }

  // ---------- done means ended ----------

  /** Outside the cleanup path callbacks come only in exit; one begun and no longer running is marked done,
      but for the winner's own; the first one is not marked done while it runs. */
  ghost predicate NodeOrderly(n: Node, inExit: bool, ownFini: bool) {
    && (n.handler || n.base == Some(BySigwait) || n.activity == InHandler ==> inExit)
    && (n.finiStarted && (n.activity == Idle || n.activity == BeforeUnlink) ==> n.finiDone || ownFini)
    && (n.activity == InCleanup || n.activity == InHandler ==> if ownFini then n.callbacks > 1 else n.callbacks == 1 ==> !n.finiDone)
  }

  predicate InOwnFini(s: State, t: Tid) {
    At(s.phase, OwnFini) && s.winner == Some(t)
  }

  ghost predicate Orderly(s: State) {
    forall t :: t in s.nodes ==> NodeOrderly(s.nodes[t], s.inExitCleanup, InOwnFini(s, t))
  }

  lemma ActKeepsOrder(n: Node, act: Act, inExit: bool, finiThreadDone: bool, ownFini: bool)
    requires NodeOk(n) && CanDo(n, act, inExit, finiThreadDone) && NodeOrderly(n, inExit, ownFini) && (ownFini ==> n.finiStarted)
    ensures NodeOrderly(Did(n, act), inExit, ownFini)
  {
    match act
    case StartAppl =>
    case SetBlock(_) =>
    case Pass(_) =>
    case Begin => assert n.base.value == BySigwait || n.base.value == ByCleanup;
    case Interrupt =>
    case HandlerBegin =>
    case HandlerEnd =>
    case CleanupEnd =>
  }

  lemma UnlinkKeepsOrder(n: Node, inExit: bool, ownFini: bool)
    requires NodeOrderly(n, inExit, ownFini) && n.activity == BeforeUnlink
    ensures NodeOrderly(n.(finiStarted := true, finiDone := true, activity := Idle), inExit, ownFini)
    ensures NodeOrderly(n.(linked := false, activity := Idle), inExit, ownFini)
  {
  }

  lemma OwnKeepsOrder(n: Node, inExit: bool)
    requires NodeOk(n)
    ensures NodeOrderly(n, inExit, false) && !n.finiStarted ==> NodeOrderly(OwnBegun(n), inExit, true)
    ensures NodeOrderly(n, inExit, true) ==> NodeOrderly(n.(finiDone := true), inExit, false)
  {
  }

  lemma ThreadStepKeepsOrder(s: State, step: Step)
    requires Inv(s) && Orderly(s) && Enabled(s, step) && (step.Link? || step.Do? || step.Unlink?)
    ensures Orderly(Apply(s, step))
  {
    hide Inv, CanDo, Did, NodeOk, NodeOrderly, Without;
    InvParts(s);
    var s' := Apply(s, step);
    forall t | t in s'.nodes ensures NodeOrderly(s'.nodes[t], s'.inExitCleanup, InOwnFini(s', t)) {
      match step
      case Link(u) => if t == u && u !in s.nodes { NewNodeOrderly(s.inExitCleanup, InOwnFini(s', t)); }
      case Do(u, act) =>
        if t == u {
          NodesAreOk(s, t);
          ActKeepsOrder(s.nodes[t], act, s.inExitCleanup, s.finiThreadDone, InOwnFini(s, t));
        }
      case Unlink(u) => if t == u { UnlinkKeepsOrder(s.nodes[t], s.inExitCleanup, InOwnFini(s, t)); }
    }
  }

  lemma NewNodeOrderly(inExit: bool, ownFini: bool)
    ensures NodeOrderly(Node(true, false, false, false, false, Idle, None, false, 0), inExit, ownFini)
  {
  }

  lemma OwnStepKeepsOrder(s: State, step: Step)
    requires Inv(s) && Orderly(s) && Enabled(s, step) && (step.OwnBegin? || step.OwnEnd?)
    ensures Orderly(Apply(s, step))
  {
    hide Inv, NodeOk, NodeOrderly, OwnBegun;
    InvParts(s);
    var s' := Apply(s, step);
    forall t | t in s'.nodes ensures NodeOrderly(s'.nodes[t], s'.inExitCleanup, InOwnFini(s', t)) {
      NodesAreOk(s, t);
      OwnKeepsOrder(s.nodes[t], s.inExitCleanup);
    }
  }

  lemma MoreExitKeepsOrder(n: Node, inExit: bool, ownFini: bool)
    requires NodeOrderly(n, inExit, ownFini)
    ensures NodeOrderly(n, true, ownFini)
  {
  }

  lemma OtherStepKeepsOrder(s: State, step: Step)
    requires Inv(s) && Orderly(s) && Enabled(s, step)
    requires !(step.Link? || step.Do? || step.Unlink? || step.OwnBegin? || step.OwnEnd?)
    ensures Orderly(Apply(s, step))
  {
    hide Inv, NodeOrderly, AfterVisit, StartedOthers;
    InvParts(s);
    var s' := Apply(s, step);
    OthersKeepNodes(s, step);
    forall t | t in s'.nodes ensures NodeOrderly(s'.nodes[t], s'.inExitCleanup, InOwnFini(s', t)) {
      MoreExitKeepsOrder(s.nodes[t], s.inExitCleanup, InOwnFini(s, t));
    }
  }

  /** Threads, and whose own callback runs, stay as they are. */
  ghost predicate SameThreads(s: State, s': State) {
    && s'.nodes == s.nodes && (s.inExitCleanup ==> s'.inExitCleanup)
    && forall t :: InOwnFini(s', t) <==> InOwnFini(s, t)
  }

  lemma EntryKeepsNodes(s: State, step: Step)
    requires PhaseOk(s) && Enabled(s, step) && (step.FirstThread? || step.Enter? || step.LoserReturns? || step.Freeze?)
    ensures SameThreads(s, Apply(s, step))
  {
    match step
    case Enter(_, _) =>
    case Freeze =>
    case _ =>
  }

  lemma WalkKeepsNodes(s: State, step: Step)
    requires Enabled(s, step) && (step.BeginWalk? || step.Visit? || step.EndWalk?)
    ensures SameThreads(s, Apply(s, step))
  {
    hide StartedOthers, AfterVisit;
    match step
    case EndWalk(_) =>
    case _ =>
  }

  lemma StageKeepsNodes(s: State, step: Step)
    requires Enabled(s, step) && (step.SetThreadsDone? || step.FiniProcessBegin? || step.FiniProcessEnd?)
    ensures SameThreads(s, Apply(s, step))
  {
  }

  lemma OthersKeepNodes(s: State, step: Step)
    requires PhaseOk(s) && Enabled(s, step)
    requires !(step.Link? || step.Do? || step.Unlink? || step.OwnBegin? || step.OwnEnd?)
    ensures SameThreads(s, Apply(s, step))
  {
    hide PhaseOk, Enabled, Apply, SameThreads;
    if step.BeginWalk? || step.Visit? || step.EndWalk? {
      WalkKeepsNodes(s, step);
    } else if step.SetThreadsDone? || step.FiniProcessBegin? || step.FiniProcessEnd? {
      StageKeepsNodes(s, step);
    } else {
      EntryKeepsNodes(s, step);
    }
  }

  lemma {:induction false} RunsAreOrderly(run: seq<State>, n: nat)
    requires IsRun(run) && n < |run|
    ensures Orderly(run[n])
  {
    hide Inv, Enabled, Apply, NodeOrderly;
    if n > 0 {
      RunsAreOrderly(run, n - 1);
      RunsKeepInv(run, n - 1);
      var step := StepTaken(run, n - 1);
      if step.Link? || step.Do? || step.Unlink? {
        ThreadStepKeepsOrder(run[n - 1], step);
      } else if step.OwnBegin? || step.OwnEnd? {
        OwnStepKeepsOrder(run[n - 1], step);
      } else {
        OtherStepKeepsOrder(run[n - 1], step);
      }
    }
  }

  /** In every run, a callback begun outside the cleanup comes only once exit cleanup is set; a thread whose
      callback has begun and which runs none is marked done, unless it is the winner in its own; and a thread is
      not marked done while its first callback runs. */
  lemma DoneMeansEnded(run: seq<State>, n: nat, t: Tid)
    requires IsRun(run) && n < |run| && t in run[n].nodes
    ensures var s, node := run[n], run[n].nodes[t];
            && (node.handler || node.activity == InHandler ==> s.inExitCleanup)
            && (node.finiStarted && node.activity == Idle && !InOwnFini(s, t) ==> node.finiDone)
            && (node.callbacks == 1 && (node.activity == InCleanup || node.activity == InHandler) ==> !node.finiDone)
  {
    hide IsRun;
    RunsAreOrderly(run, n);
    assert NodeOrderly(run[n].nodes[t], run[n].inExitCleanup, InOwnFini(run[n], t));
  }

  // ---------- the losers ----------

  /** The winner's end is recorded; nobody waits before there is a winner, and the winner not at all. */
  ghost predicate WaitingOk(s: State) {
    && (s.processDone <==> At(s.phase, Finished) || s.reentered)
    && (s.winner.None? ==> s.waiting == {})
    && (s.winner.Some? && s.exitWin ==> s.winner.value !in s.waiting)
  }

  /** Nothing the losers depend on changes. */
  ghost predicate SameWaits(s: State, s': State) {
    && s'.waiting == s.waiting && s'.resumed == s.resumed && s'.winner == s.winner && s'.exitWin == s.exitWin
    && s'.processDone == s.processDone && s'.reentered == s.reentered
    && (At(s'.phase, Finished) <==> At(s.phase, Finished))
  }

  lemma ThreadStepWaits(s: State, step: Step)
    requires Enabled(s, step) && (step.FirstThread? || step.Link? || step.Do?)
    ensures SameWaits(s, Apply(s, step))
  {
    hide Has, CanDo, Did;
    if step.Link? {
    } else if step.Do? {
    }
  }

  lemma UnlinkWaits(s: State, t: Tid)
    requires Enabled(s, Unlink(t))
    ensures SameWaits(s, Apply(s, Unlink(t)))
  {
    hide Has, Without;
  }

  lemma WalkStepWaits(s: State, step: Step)
    requires Enabled(s, step) && (step.BeginWalk? || step.Visit?)
    ensures SameWaits(s, Apply(s, step))
  {
    hide StartedOthers, AfterVisit;
    if step.BeginWalk? {
    }
  }

  lemma EndWalkWaits(s: State, timeout: bool)
    requires Enabled(s, EndWalk(timeout))
    ensures SameWaits(s, Apply(s, EndWalk(timeout)))
  {
  }

  lemma OwnStepWaits(s: State, step: Step)
    requires Enabled(s, step) && (step.OwnBegin? || step.OwnEnd?)
    ensures SameWaits(s, Apply(s, step))
  {
    hide OwnNodes, OwnBegun;
    if step.OwnBegin? {
    }
  }

  lemma StageStepWaits(s: State, step: Step)
    requires Enabled(s, step) && (step.Freeze? || step.SetThreadsDone? || step.FiniProcessBegin?)
    ensures SameWaits(s, Apply(s, step))
  {
    if step.Freeze? {
    } else if step.SetThreadsDone? {
    }
  }

  lemma OtherStepWaits(s: State, step: Step)
    requires Enabled(s, step) && !(step.Enter? || step.LoserReturns? || step.FiniProcessEnd?)
    ensures SameWaits(s, Apply(s, step))
  {
    hide Enabled, Apply, SameWaits;
    match step
    case Unlink(t) => UnlinkWaits(s, t);
    case Freeze => StageStepWaits(s, step);
    case BeginWalk => WalkStepWaits(s, step);
    case Visit => WalkStepWaits(s, step);
    case EndWalk(timeout) => EndWalkWaits(s, timeout);
    case SetThreadsDone => StageStepWaits(s, step);
    case OwnBegin => OwnStepWaits(s, step);
    case OwnEnd => OwnStepWaits(s, step);
    case FiniProcessBegin => StageStepWaits(s, step);
    case _ => ThreadStepWaits(s, step);
  }

  lemma EntryKeepsWaiting(s: State, step: Step)
    requires PhaseOk(s) && WaitingOk(s) && Enabled(s, step) && (step.Enter? || step.LoserReturns? || step.FiniProcessEnd?)
    ensures WaitingOk(Apply(s, step))
  {
    match step
    case Enter(_, _) =>
    case _ =>
  }

  lemma StepKeepsWaiting(s: State, step: Step)
    requires PhaseOk(s) && WaitingOk(s) && Enabled(s, step)
    ensures WaitingOk(Apply(s, step))
  {
    hide Enabled, Apply, PhaseOk;
    if step.Enter? || step.LoserReturns? || step.FiniProcessEnd? {
      EntryKeepsWaiting(s, step);
    } else {
      OtherStepWaits(s, step);
    }
  }

  lemma {:induction false} RunsKeepWaiting(run: seq<State>, n: nat)
    requires IsRun(run) && n < |run|
    ensures WaitingOk(run[n])
  {
    hide Inv, Enabled, Apply;
    if n > 0 {
      RunsKeepWaiting(run, n - 1);
      RunsKeepInv(run, n - 1);
      InvParts(run[n - 1]);
      var step := StepTaken(run, n - 1);
      StepKeepsWaiting(run[n - 1], step);
    }
  }

  /** In every run a loser may go on exactly when it waits and the winner has finished its callbacks or has
      entered exit again; the winner itself never waits, so no exit waits for itself. */
  lemma LosersGoWhenWinnerEnds(run: seq<State>, n: nat, t: Tid)
    requires IsRun(run) && n < |run|
    ensures Enabled(run[n], LoserReturns(t)) <==> t in run[n].waiting && (At(run[n].phase, Finished) || run[n].reentered)
    ensures Enabled(run[n], LoserReturns(t)) ==> t !in Apply(run[n], LoserReturns(t)).waiting && t in Apply(run[n], LoserReturns(t)).resumed
    ensures run[n].exitWin && run[n].winner == Some(t) ==> t !in run[n].waiting
  {
    hide IsRun;
    RunsKeepWaiting(run, n);
  }

  /** Whoever enters exit after the winner waits, or is the winner again; neither changes the winner or its
      progress. */
  lemma LaterEntrantsWait(s: State, t: Tid, hasNode: bool)
    requires PhaseOk(s) && s.winner.Some?
    ensures var s' := Apply(s, Enter(t, hasNode));
            && s'.winner == s.winner && s'.phase == s.phase && s'.nodes == s.nodes
            && (t in s'.waiting || (t == s.winner.value && s.exitWin && s'.reentered))
  {
  }

  lemma EntryKeepsLosers(s: State, step: Step, t: Tid)
    requires Enabled(s, step) && (t in s.waiting || t in s.resumed) && (step.Enter? || step.LoserReturns? || step.FiniProcessEnd?)
    ensures t in Apply(s, step).waiting || t in Apply(s, step).resumed
  {
    match step
    case Enter(_, _) =>
    case _ =>
  }

  lemma StepKeepsLosers(s: State, step: Step, t: Tid)
    requires Enabled(s, step) && (t in s.waiting || t in s.resumed)
    ensures t in Apply(s, step).waiting || t in Apply(s, step).resumed
  {
    hide Enabled, Apply;
    if step.Enter? || step.LoserReturns? || step.FiniProcessEnd? {
      EntryKeepsLosers(s, step, t);
    } else {
      OtherStepWaits(s, step);
    }
  }

  /** In every run a loser keeps waiting until it is let go. */
  lemma {:induction false} LosersStay(run: seq<State>, m: nat, n: nat, t: Tid)
    requires IsRun(run) && m <= n < |run| && (t in run[m].waiting || t in run[m].resumed)
    ensures t in run[n].waiting || t in run[n].resumed
    decreases n
  {
    hide Init, Enabled, Apply;
    if m < n {
      LosersStay(run, m, n - 1, t);
      var step := StepTaken(run, n - 1);
      StepKeepsLosers(run[n - 1], step, t);
    }
  }

  // ---------- the winner goes on ----------

  function Distance(p: Phase): nat {
    match p
    case NoWinner => 10
    case Won => 9
    case BetweenWalks => 8
    case Walking(_, _, _, _, _) => 7
    case Over(stage, _, _, _) =>
      match stage
      case WalksOver => 6
      case ThreadsDone => 5
      case OwnFini => 4
      case ShootdownOver => 3
      case InFiniProcess => 2
      case Finished => 1
  }

  /** Nearer to the end, or one thread further in the walk, or to walk again as a thread is unfinished. */
  predicate Nearer(p: Phase, p': Phase) {
    || Distance(p') < Distance(p)
    || (p.Walking? && p'.Walking? && |p'.rest| < |p.rest|)
    || (p.Walking? && p.rest == [] && p.unfinished > 0 && p' == BetweenWalks)
  }

  /** The winner's next step. */
  function NextStep(p: Phase): Step {
    match p
    case NoWinner => Freeze
    case Won => Freeze
    case BetweenWalks => BeginWalk
    case Walking(rest, _, _, _, _) => if rest == [] then EndWalk(false) else Visit
    case Over(stage, _, _, _) =>
      match stage
      case WalksOver => SetThreadsDone
      case ThreadsDone => OwnBegin
      case OwnFini => OwnEnd
      case ShootdownOver => FiniProcessBegin
      case InFiniProcess => FiniProcessEnd
      case Finished => FiniProcessEnd
  }

  lemma NextIsListed(s: State)
    requires ListOk(s) && WalkOk(s) && s.phase.Walking? && s.phase.rest != []
    ensures s.phase.rest[0] in s.nodes
  {
    var k := |s.list| - |s.phase.rest|;
    assert s.phase.rest[0] == s.list[k] && s.list[k] in s.list;
    HasNode(s, s.phase.rest[0]);
  }

  lemma VisitGoesOn(s: State)
    requires s.phase.Walking? && s.phase.rest != [] && s.phase.rest[0] in s.nodes
    ensures Enabled(s, Visit) && Nearer(s.phase, Apply(s, Visit).phase)
  {
  }

  lemma EndWalkGoesOn(s: State)
    requires s.phase.Walking? && s.phase.rest == []
    ensures Enabled(s, EndWalk(false)) && Nearer(s.phase, Apply(s, EndWalk(false)).phase)
  {
  }

  lemma WalkGoesOn(s: State)
    requires ListOk(s) && WalkOk(s) && s.phase.Walking?
    ensures Enabled(s, NextStep(s.phase)) && Nearer(s.phase, Apply(s, NextStep(s.phase)).phase)
  {
    hide ListOk, WalkOk, Enabled, Apply, Nearer;
    if s.phase.rest == [] {
      EndWalkGoesOn(s);
    } else {
      NextIsListed(s);
      VisitGoesOn(s);
    }
  }

  lemma HasNode(s: State, t: Tid)
    requires Has(s, t)
    ensures t in s.nodes
  {
  }

  lemma EntryGoesOn(s: State)
    requires s.phase == Won || s.phase == BetweenWalks
    ensures Enabled(s, NextStep(s.phase)) && Nearer(s.phase, Apply(s, NextStep(s.phase)).phase)
  {
    hide StartedOthers;
  }

  lemma StageGoesOn(s: State)
    requires PhaseOk(s) && s.phase.Over? && !At(s.phase, Finished)
    requires At(s.phase, ThreadsDone) && s.winner.Some? && s.winner.value in s.nodes ==> !s.nodes[s.winner.value].handler
    ensures Enabled(s, NextStep(s.phase)) && Nearer(s.phase, Apply(s, NextStep(s.phase)).phase)
  {
    hide OwnNodes, OwnDue;
    match s.phase.stage
    case WalksOver =>
    case ThreadsDone =>
    case OwnFini =>
    case ShootdownOver =>
    case InFiniProcess =>
  }

  /** In every run, once there is a winner and until it has finished, its next step is possible, if no handler
      is about to run on top of it, and brings it nearer to the end; the walk alone is repeated, and only when it
      counted an unfinished thread. */
  lemma WinnerGoesOn(run: seq<State>, n: nat)
    requires IsRun(run) && n < |run| && run[n].winner.Some? && !At(run[n].phase, Finished)
    requires run[n].winner.value in run[n].nodes ==> !run[n].nodes[run[n].winner.value].handler
    ensures Enabled(run[n], NextStep(run[n].phase)) && Nearer(run[n].phase, Apply(run[n], NextStep(run[n].phase)).phase)
  {
    hide IsRun, ListOk, WalkOk, NodeOk, Enabled, Apply, Nearer, NextStep;
    RunsKeepInv(run, n);
    var s := run[n];
    if s.phase.Walking? {
      WalkGoesOn(s);
    } else if s.phase.Over? {
      StageGoesOn(s);
    } else {
      EntryGoesOn(s);
    }
  }

  // ---------- why the walk is repeated ----------

  /** The walk is at a thread that has started the application and not finished its callback. */
  ghost predicate AtUnfinished(s: State, t: Tid) {
    && s.phase.Walking? && s.phase.rest != [] && s.phase.rest[0] == t && s.winner != Some(t)
    && t in s.nodes && s.nodes[t].applStarted && !s.nodes[t].finiDone
  }

  lemma WalkingKept(s: State, step: Step)
    requires Enabled(s, step) && !step.Visit? && Apply(s, step).phase.Walking? && Apply(s, step).phase.unfinished > 0
    ensures s.phase == Apply(s, step).phase
  {
    hide Apply, Enabled;
    match step
    case Link(_) => ThreadsKeepPhase(s, step);
    case Do(_, _) => ThreadsKeepPhase(s, step);
    case Unlink(_) => ThreadsKeepPhase(s, step);
    case FirstThread => ThreadsKeepPhase(s, step);
    case LoserReturns(_) => ThreadsKeepPhase(s, step);
    case Enter(_, _) => EntryStartsWalk(s, step);
    case Freeze => EntryStartsWalk(s, step);
    case BeginWalk => EntryStartsWalk(s, step);
    case EndWalk(timeout) => EndWalkIsNoWalk(s, timeout);
    case _ => StageIsNoWalk(s, step);
  }

  lemma EntryStartsWalk(s: State, step: Step)
    requires Enabled(s, step) && (step.Enter? || step.Freeze? || step.BeginWalk?)
    ensures var p := Apply(s, step).phase; p.Walking? && p.unfinished > 0 ==> s.phase == p
  {
    hide StartedOthers;
    match step
    case Enter(_, _) =>
    case Freeze =>
    case _ =>
  }

  lemma StageIsNoWalk(s: State, step: Step)
    requires Enabled(s, step)
    requires step.SetThreadsDone? || step.OwnBegin? || step.OwnEnd? || step.FiniProcessBegin? || step.FiniProcessEnd?
    ensures Apply(s, step).phase.Over?
  {
    hide OwnNodes, OwnDue, OwnBegun;
    match step
    case SetThreadsDone =>
    case OwnBegin =>
    case OwnEnd =>
    case _ =>
  }

  lemma EndWalkIsNoWalk(s: State, timeout: bool)
    requires Enabled(s, EndWalk(timeout))
    ensures !Apply(s, EndWalk(timeout)).phase.Walking?
  {
  }

  lemma VisitCountsUnfinished(s: State)
    requires Enabled(s, Visit)
    ensures var p := Apply(s, Visit).phase;
            p.Walking? && (p.unfinished > s.phase.unfinished <==> AtUnfinished(s, s.phase.rest[0]))
            && s.phase.unfinished <= p.unfinished && s.phase.seen <= p.seen
            && (AtUnfinished(s, s.phase.rest[0]) ==> s.phase.rest[0] in p.seen)
  {
  }

  lemma VisitIsInWalk(s: State)
    requires Enabled(s, Visit)
    ensures s.phase.Walking? && s.phase.rest != []
  {
  }

  /** In every run, if a walk has counted a thread as unfinished, so that it will be repeated or time out, it
      met a thread of the application whose callback was not done. */
  lemma {:induction false} RepeatMeansUnfinished(run: seq<State>, n: nat) returns (m: nat, t: Tid)
    requires IsRun(run) && n < |run| && run[n].phase.Walking? && run[n].phase.unfinished > 0
    ensures m < n && AtUnfinished(run[m], t) && t in run[n].phase.seen
    decreases n
  {
    hide Inv, Enabled, Apply, AtUnfinished;
    if n > 0 {
      var step := StepTaken(run, n - 1);
      if step.Visit? {
        VisitIsInWalk(run[n - 1]);
        VisitCountsUnfinished(run[n - 1]);
      } else {
        WalkingKept(run[n - 1], step);
      }
      if step.Visit? && AtUnfinished(run[n - 1], run[n - 1].phase.rest[0]) {
        m, t := n - 1, run[n - 1].phase.rest[0];
      } else {
        m, t := RepeatMeansUnfinished(run, n - 1);
      }
    }
  }
}
