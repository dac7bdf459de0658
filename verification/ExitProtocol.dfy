/** Process exit in libmonitor: the race of threads into monitor_end_process_fcn, the shootdown that
    makes every other thread run its fini callback, and the four places such a callback is run from.
    A transition system over threads. A thread tests the flags in one step and sets `tn_fini_started`
    and begins its callback in a later one; in between anything may happen, and the shootdown handler
    may run on top of the thread's own code. Each visit of the shootdown walk and each write to a global
    flag is a step. */
module ExitProtocol {
  import opened Common

  type Tid = nat

  /** What the thread of a node is executing. */
  datatype Activity = Idle | InHandler | InCleanup | BeforeUnlink

  /** The two places in a thread's own code that run its fini callback; the shootdown handler is the third. */
  datatype Path = BySigwait | ByCleanup

  /** One incarnation of a thread. All flags have been found in favour of the callback, `tn_fini_started`
      among them, by its own code on the path `base`, and by the `handler` that interrupts it; what is
      found so begins without a further test. `callbacks` counts the monitor_fini_thread calls begun. */
  datatype Node = Node(
    linked: bool,
    applStarted: bool,
    finiStarted: bool,
    finiDone: bool,
    blockShootdown: bool,
    activity: Activity,
    base: Option<Path>,
    handler: bool,
    callbacks: nat)

  /** How far the race winner is. `started` is the set of other threads that had started the
      application when the walk began, `seen` those the walk saw as started. */
  datatype Phase =
    | NoWinner
    | Won
    | BetweenWalks
    | Walking(rest: seq<Tid>, unstarted: nat, unfinished: nat, started: set<Tid>, seen: set<Tid>)
    | Over(stage: Stage, timedOut: bool, started: set<Tid>, seen: set<Tid>)

  datatype Stage = WalksOver | ThreadsDone | OwnFini | ShootdownOver | InFiniProcess | Finished

  predicate At(p: Phase, stage: Stage) {
    p.Over? && p.stage == stage
  }

  datatype State = State(
    threaded: bool,               // monitor_has_used_threads
    nodes: map<Tid, Node>,
    list: seq<Tid>,               // monitor_thread_list
    inExitCleanup: bool,          // monitor_in_exit_cleanup
    finiThreadDone: bool,         // monitor_fini_thread_done
    cookie: bool,                 // monitor_end_process_cookie
    processDone: bool,            // monitor_fini_process_done
    winner: Option<Tid>,
    exitWin: bool,                // tn_exit_win of the winner, unset when it has no thread node
    reentered: bool,              // the winner has entered exit again
    phase: Phase,
    waiting: set<Tid>,            // losers in their delay loop
    resumed: set<Tid>,            // losers that have returned
    finiProcessCalls: nat)

  /** What a thread does for itself. */
  datatype Act =
    | StartAppl
    | SetBlock(on: bool)
    | Pass(path: Path)   // the thread's own code finds the flags in favour
    | Begin              // it sets `tn_fini_started` and begins the callback
    | Interrupt          // the handler finds the flags in favour
    | HandlerBegin       // it sets `tn_fini_started` and begins the callback
    | HandlerEnd
    | CleanupEnd

  datatype Step =
    | FirstThread        // the first pthread_create
    | Link(t: Tid)
    | Do(t: Tid, act: Act)
    | Unlink(t: Tid)
    | Enter(t: Tid, hasNode: bool)
    | LoserReturns(t: Tid)
    | Freeze
    | BeginWalk
    | Visit
    | EndWalk(timeout: bool)
    | SetThreadsDone
    | OwnBegin
    | OwnEnd
    | FiniProcessBegin
    | FiniProcessEnd

  ghost predicate Has(s: State, t: Tid) {
    t in s.nodes && s.nodes[t].linked
  }

  /** The thread's flags are in favour of a callback, and no handler is about to run one. */
  predicate MayRun(n: Node) {
    n.applStarted && !n.finiStarted && !n.blockShootdown && !n.handler
  }

  predicate CanDo(n: Node, act: Act, inExitCleanup: bool, finiThreadDone: bool) {
    match act
    case StartAppl => true
    case SetBlock(_) => true
    case Pass(path) => MayRun(n) && !finiThreadDone && n.base.None? && (path == BySigwait ==> inExitCleanup)
    case Begin => n.base.Some? && !n.handler && n.activity == Idle
    case Interrupt => MayRun(n) && !finiThreadDone && inExitCleanup
    case HandlerBegin => n.handler
    case HandlerEnd => n.activity == InHandler
    case CleanupEnd => n.activity == InCleanup
  }

  function Did(n: Node, act: Act): Node {
    match act
    case StartAppl => n.(applStarted := true)
    case SetBlock(on) => n.(blockShootdown := on)
    case Pass(path) => n.(base := Some(path))
    case Begin =>
      n.(finiStarted := true, activity := if n.base == Some(ByCleanup) then InCleanup else InHandler,
         base := None, callbacks := n.callbacks + 1)
    case Interrupt => n.(handler := true)
    case HandlerBegin => n.(finiStarted := true, activity := InHandler, handler := false, callbacks := n.callbacks + 1)
    case HandlerEnd => n.(finiDone := true, activity := Idle)
    case CleanupEnd => n.(finiDone := true, activity := BeforeUnlink)
  }

  /** The callbacks begun, and those that begin when the thread gets back to its own code or its handler. */
  function Claims(n: Node): nat {
    n.callbacks + (if n.base.Some? then 1 else 0) + if n.handler then 1 else 0
  }

  ghost predicate Enabled(s: State, step: Step) {
    match step
    case FirstThread => true
    case Link(t) => s.threaded && t !in s.nodes
    case Do(t, act) => Has(s, t) && CanDo(s.nodes[t], act, s.inExitCleanup, s.finiThreadDone)
    case Unlink(t) => Has(s, t) && s.nodes[t].activity == BeforeUnlink
    case Enter(t, hasNode) => true
    case LoserReturns(t) => t in s.waiting && s.processDone
    case Freeze => s.phase == Won
    case BeginWalk => s.phase == BetweenWalks
    case Visit => s.phase.Walking? && s.phase.rest != [] && s.phase.rest[0] in s.nodes
    case EndWalk(timeout) =>
      s.phase.Walking? && s.phase.rest == [] && (timeout ==> s.phase.unfinished > 0 && s.phase.unstarted > 0)
    case SetThreadsDone => At(s.phase, WalksOver)
    case OwnBegin => At(s.phase, ThreadsDone) && (s.winner.Some? && s.winner.value in s.nodes ==> !s.nodes[s.winner.value].handler)
    case OwnEnd => At(s.phase, OwnFini) && s.winner.Some? && s.winner.value in s.nodes
    case FiniProcessBegin => At(s.phase, ShootdownOver)
    case FiniProcessEnd => At(s.phase, InFiniProcess)
  }

  function With(s: State, t: Tid, n: Node): State {
    s.(nodes := s.nodes[t := n])
  }

  function StartedOthers(s: State): set<Tid> {
    set t | t in s.list && t in s.nodes && s.nodes[t].applStarted && s.winner != Some(t)
  }

  function Without(list: seq<Tid>, t: Tid): seq<Tid> {
    if list == [] then [] else if list[0] == t then list[1..] else [list[0]] + Without(list[1..], t)
  }

  /** One round of the walk over the thread list. */
  function AfterVisit(p: Phase, nodes: map<Tid, Node>, winner: Option<Tid>): (r: Phase)
    requires p.Walking? && p.rest != [] && p.rest[0] in nodes
    ensures r.Walking?
  {
    var t := p.rest[0];
    var n := nodes[t];
    if winner == Some(t) || !n.applStarted then p.(rest := p.rest[1..])
    else Walking(p.rest[1..], p.unstarted + (if n.finiStarted then 0 else 1),
                 p.unfinished + (if n.finiDone then 0 else 1), p.started, p.seen + {t})
  }

  /** The winner met itself in the walk and has yet to run its own callback. */
  predicate OwnDue(s: State) {
    s.winner.Some? && s.winner.value in s.list && s.winner.value in s.nodes && !s.nodes[s.winner.value].finiStarted
  }

  function OwnBegun(n: Node): Node {
    n.(finiStarted := true, callbacks := n.callbacks + 1)
  }

  function OwnNodes(s: State): map<Tid, Node> {
    if OwnDue(s) then s.nodes[s.winner.value := OwnBegun(s.nodes[s.winner.value])] else s.nodes
  }

  function OwnStep(s: State): State
    requires s.phase.Over?
  {
    s.(nodes := OwnNodes(s), phase := s.phase.(stage := if OwnDue(s) then OwnFini else ShootdownOver))
  }

  ghost function Apply(s: State, step: Step): State
    requires Enabled(s, step)
  {
    match step
    case FirstThread => s.(threaded := true)
    case Link(t) =>
      if s.inExitCleanup then s
      else With(s, t, Node(true, false, false, false, false, Idle, None, false, 0)).(list := [t] + s.list)
    case Do(t, act) => With(s, t, Did(s.nodes[t], act))
    case Unlink(t) =>
      if s.inExitCleanup then With(s, t, s.nodes[t].(finiStarted := true, finiDone := true, activity := Idle))
      else With(s, t, s.nodes[t].(linked := false, activity := Idle)).(list := Without(s.list, t))
    case Enter(t, hasNode) =>
      if !s.cookie then s.(cookie := true, winner := Some(t), exitWin := hasNode, phase := Won)
      else if s.winner == Some(t) && s.exitWin then s.(reentered := true, processDone := true)
      else s.(waiting := s.waiting + {t})
    case LoserReturns(t) => s.(waiting := s.waiting - {t}, resumed := s.resumed + {t}, processDone := true)
    case Freeze =>
      if s.threaded then s.(inExitCleanup := true, phase := BetweenWalks)
      else s.(phase := Over(ShootdownOver, false, {}, {}))
    case BeginWalk => s.(phase := Walking(s.list, 0, 0, StartedOthers(s), {}))
    case Visit => s.(phase := AfterVisit(s.phase, s.nodes, s.winner))
    case EndWalk(timeout) =>
      var p := s.phase;
      if p.unfinished == 0 then s.(phase := Over(WalksOver, false, p.started, p.seen))
      else if timeout then s.(phase := Over(WalksOver, true, p.started, p.seen))
      else s.(phase := BetweenWalks)
    case SetThreadsDone =>
      var p := s.phase;
      s.(finiThreadDone := true, phase := p.(stage := ThreadsDone))
    case OwnBegin => OwnStep(s)
    case OwnEnd =>
      var p, t := s.phase, s.winner.value;
      With(s, t, s.nodes[t].(finiDone := true)).(phase := p.(stage := ShootdownOver))
    case FiniProcessBegin =>
      var p := s.phase;
      s.(finiProcessCalls := s.finiProcessCalls + 1, phase := p.(stage := InFiniProcess))
    case FiniProcessEnd =>
      var p := s.phase;
      s.(processDone := true, phase := p.(stage := Finished))
  }

  // ---------- invariant ----------

  ghost predicate Init(s: State) {
    && !s.threaded && s.nodes == map[] && s.list == [] && !s.inExitCleanup && !s.finiThreadDone && !s.cookie && !s.processDone
    && s.winner.None? && !s.exitWin && !s.reentered && s.phase == NoWinner && s.waiting == {} && s.resumed == {}
    && s.finiProcessCalls == 0
  }

  /** The shootdown has decided how the walks ended. */
  predicate Decided(p: Phase) {
    p.Over?
  }

  ghost predicate NodeOk(n: Node) {
    && (n.finiStarted <==> n.callbacks > 0)
    && (n.activity != Idle ==> n.finiStarted)
    && (n.finiDone ==> n.finiStarted)
    && (n.handler ==> !n.finiStarted)
    && Claims(n) <= 2
  }

  ghost predicate Distinct(list: seq<Tid>) {
    forall i, j :: 0 <= i < j < |list| ==> list[i] != list[j]
  }

  /** The list holds each linked node once. */
  ghost predicate ListOk(s: State) {
    Distinct(s.list) && forall t :: t in s.list <==> Has(s, t)
  }

  /** All threads of the set have finished their fini callback. */
  ghost predicate AllDone(nodes: map<Tid, Node>, ts: set<Tid>) {
    forall t :: t in ts ==> t in nodes && nodes[t].applStarted && nodes[t].finiDone
  }

  /** The walk has a tail of the list before it; every thread that had started when the walk began is
      ahead or has been seen; without an unfinished one all those seen are done. */
  ghost predicate WalkingOk(p: Phase, nodes: map<Tid, Node>, list: seq<Tid>, winner: Option<Tid>)
    requires p.Walking?
  {
    && |p.rest| <= |list| && p.rest == list[|list| - |p.rest|..]
    && (forall t :: t in p.started ==> t in list && t in nodes && nodes[t].applStarted && winner != Some(t))
    && (forall t :: t in p.started ==> t in p.rest || t in p.seen)
    && (p.unfinished == 0 ==> AllDone(nodes, p.seen))
  }

  ghost predicate WalkOk(s: State) {
    match s.phase
    case Walking(_, _, _, _, _) => WalkingOk(s.phase, s.nodes, s.list, s.winner)
    case _ =>
      Decided(s.phase) && !s.phase.timedOut ==> AllDone(s.nodes, s.phase.seen) && s.phase.started <= s.phase.seen
  }

  ghost predicate PhaseOk(s: State) {
    && (s.cookie <==> s.winner.Some?)
    && (s.cookie <==> s.phase != NoWinner)
    && (s.exitWin ==> s.cookie)
    && (s.reentered ==> s.exitWin)
    && (s.inExitCleanup ==> s.threaded && s.phase != NoWinner && s.phase != Won)
    && (s.finiThreadDone <==> s.inExitCleanup && (At(s.phase, ThreadsDone) || At(s.phase, OwnFini) || At(s.phase, ShootdownOver)
                                             || At(s.phase, InFiniProcess) || At(s.phase, Finished)))
    && (At(s.phase, OwnFini) ==> Has(s, s.winner.value) && s.nodes[s.winner.value].finiStarted)
    && (s.phase.BetweenWalks? || s.phase.Walking? || At(s.phase, WalksOver) || At(s.phase, ThreadsDone) || At(s.phase, OwnFini) ==>
          s.inExitCleanup)
    && s.finiProcessCalls == (if At(s.phase, InFiniProcess) || At(s.phase, Finished) then 1 else 0)
    && (s.processDone ==> At(s.phase, Finished) || s.reentered)
    && (s.resumed != {} ==> At(s.phase, Finished) || s.reentered)
  }

  ghost predicate Inv(s: State) {
    && (forall t :: t in s.nodes ==> NodeOk(s.nodes[t]))
    && ListOk(s) && PhaseOk(s) && WalkOk(s)
  }

  // ---------- preservation ----------

  /** A step that only advances one listed node's flags. */
  ghost predicate Advances(n: Node, n': Node) {
    && n'.linked == n.linked && (n.applStarted ==> n'.applStarted) && (n.finiStarted ==> n'.finiStarted)
    && (n.finiDone ==> n'.finiDone) && NodeOk(n')
  }

  lemma AdvanceKeepsInv(s: State, t: Tid, n': Node)
    requires Inv(s) && Has(s, t) && Advances(s.nodes[t], n')
    ensures Inv(With(s, t, n'))
  {
    var s' := With(s, t, n');
    assert forall x :: Has(s', x) <==> Has(s, x);
    assert PhaseOk(s');
    AdvanceKeepsWalk(s, t, n');
  }

  lemma AdvanceKeepsWalk(s: State, t: Tid, n': Node)
    requires WalkOk(s) && Has(s, t) && Advances(s.nodes[t], n')
    ensures WalkOk(With(s, t, n'))
  {
  }

  lemma LinkKeepsInv(s: State, t: Tid)
    requires Inv(s) && Enabled(s, Link(t))
    ensures Inv(Apply(s, Link(t)))
  {
    if !s.inExitCleanup {
      var s' := Apply(s, Link(t));
      assert forall x :: Has(s', x) <==> Has(s, x) || x == t;
      assert t !in s.list;
    }
  }

  lemma {:induction false} WithoutMembers(list: seq<Tid>, t: Tid)
    requires Distinct(list)
    ensures forall x :: x in Without(list, t) <==> x in list && x != t
    ensures Distinct(Without(list, t))
  {
    if list != [] {
      assert list == [list[0]] + list[1..];
      WithoutMembers(list[1..], t);
      assert list[0] !in list[1..];
    }
  }

  /** The node leaves the list and may be reused; no walk is in progress then. */
  ghost predicate Leaves(s: State, t: Tid) {
    Enabled(s, Unlink(t)) && !s.inExitCleanup
  }

  lemma LeavingKeepsList(s: State, t: Tid)
    requires Leaves(s, t) && ListOk(s)
    ensures ListOk(Apply(s, Unlink(t)))
  {
    var s' := Apply(s, Unlink(t));
    WithoutMembers(s.list, t);
    assert forall x :: Has(s', x) <==> Has(s, x) && x != t;
  }

  lemma LeavingKeepsWalk(s: State, t: Tid)
    requires Leaves(s, t) && WalkOk(s) && !s.phase.Walking?
    ensures WalkOk(Apply(s, Unlink(t)))
  {
    hide Without;
  }

  lemma UnlinkKeepsInv(s: State, t: Tid)
    requires Inv(s) && Enabled(s, Unlink(t))
    ensures Inv(Apply(s, Unlink(t)))
  {
    hide ListOk, WalkOk, Without;
    if s.inExitCleanup {
      AdvanceKeepsInv(s, t, s.nodes[t].(finiStarted := true, finiDone := true, activity := Idle));
    } else {
      LeavingKeepsList(s, t);
      LeavingKeepsWalk(s, t);
      assert PhaseOk(Apply(s, Unlink(t)));
    }
  }

  lemma DoKeepsInv(s: State, t: Tid, act: Act)
    requires Inv(s) && Enabled(s, Do(t, act))
    ensures Inv(Apply(s, Do(t, act)))
  {
    hide ListOk, PhaseOk, WalkOk;
    AdvanceKeepsInv(s, t, Did(s.nodes[t], act));
  }

  ghost predicate IsEntry(step: Step) {
    step.FirstThread? || step.Enter? || step.LoserReturns? || step.Freeze?
  }

  lemma EntryKeepsPhase(s: State, step: Step)
    requires PhaseOk(s) && Enabled(s, step) && IsEntry(step)
    ensures PhaseOk(Apply(s, step))
  {
    match step
    case FirstThread =>
    case Enter(_, _) =>
    case LoserReturns(_) =>
    case Freeze =>
    case _ =>
  }

  lemma EntryKeepsThreads(s: State, step: Step)
    requires PhaseOk(s) && Enabled(s, step) && IsEntry(step)
    ensures var s' := Apply(s, step);
            && s'.nodes == s.nodes && s'.list == s.list
            && ((s'.phase == s.phase && s'.winner == s.winner) || s'.phase.Won? || s'.phase.BetweenWalks?
                || s'.phase == Over(ShootdownOver, false, {}, {}))
  {
    hide Has;
    match step
    case FirstThread =>
    case Enter(_, _) =>
    case LoserReturns(_) =>
    case Freeze =>
    case _ =>
  }

  /** Nothing but the exit bookkeeping changes. */
  lemma EntryKeepsInv(s: State, step: Step)
    requires Inv(s) && Enabled(s, step) && IsEntry(step)
    ensures Inv(Apply(s, step))
  {
    hide ListOk, WalkOk, NodeOk, PhaseOk, Enabled, Apply;
    var s' := Apply(s, step);
    EntryKeepsPhase(s, step);
    EntryKeepsThreads(s, step);
    SameThreads(s, s');
    SameWalk(s, s');
  }

  lemma SameThreads(s: State, s': State)
    requires Inv(s) && s'.nodes == s.nodes && s'.list == s.list
    ensures (forall t :: t in s'.nodes ==> NodeOk(s'.nodes[t])) && ListOk(s')
  {
    assert forall x :: Has(s', x) <==> Has(s, x);
  }

  lemma SameWalk(s: State, s': State)
    requires WalkOk(s) && s'.nodes == s.nodes && s'.list == s.list
    requires || (s'.phase == s.phase && s'.winner == s.winner)
             || s'.phase.Won? || s'.phase.BetweenWalks? || s'.phase == Over(ShootdownOver, false, {}, {})
    ensures WalkOk(s')
  {
  }

  lemma VisitKeepsInv(s: State)
    requires Inv(s) && Enabled(s, Visit)
    ensures Inv(Apply(s, Visit))
  {
    var s', rest := Apply(s, Visit), s.phase.rest;
    SameThreads(s, s');
    VisitAdvances(s.phase, s.nodes, s.list, s.winner);
  }

  lemma VisitAdvances(p: Phase, nodes: map<Tid, Node>, list: seq<Tid>, winner: Option<Tid>)
    requires p.Walking? && p.rest != [] && p.rest[0] in nodes && WalkingOk(p, nodes, list, winner)
    ensures WalkingOk(AfterVisit(p, nodes, winner), nodes, list, winner)
  {
    var p' := AfterVisit(p, nodes, winner);
    assert p.rest == [p.rest[0]] + p'.rest;
    forall t | t in p.started ensures t in p'.rest || t in p'.seen {
      assert t == p.rest[0] ==> t in p'.seen;
    }
  }

  lemma WalkStepKeepsInv(s: State, step: Step)
    requires Inv(s) && Enabled(s, step) && (step.BeginWalk? || step.EndWalk? || step.SetThreadsDone?)
    ensures Inv(Apply(s, step))
  {
    if step.BeginWalk? {
      assert s.list == s.list[0..];
    }
  }

  /** The exit moves on to another stage; threads and walk results stay as they are. */
  ghost predicate MovesOn(s: State, s': State) {
    && s'.nodes == s.nodes && s'.list == s.list && s.phase.Over? && s'.phase.Over?
    && s'.phase == s.phase.(stage := s'.phase.stage)
  }

  lemma MovingOnKeepsInv(s: State, s': State)
    requires Inv(s) && MovesOn(s, s') && PhaseOk(s')
    ensures Inv(s')
  {
    hide PhaseOk;
    SameThreads(s, s');
  }

  lemma ListedIsLinked(s: State, t: Tid)
    requires ListOk(s) && t in s.list
    ensures Has(s, t)
  {
  }

  lemma OwnBeginKeepsPhase(s: State)
    requires PhaseOk(s) && Enabled(s, OwnBegin) && (OwnDue(s) ==> Has(s, s.winner.value))
    ensures PhaseOk(OwnStep(s)) && Apply(s, OwnBegin) == OwnStep(s)
  {
  }

  lemma OwnBegunAdvances(n: Node)
    requires NodeOk(n) && !n.finiStarted && !n.handler
    ensures Advances(n, OwnBegun(n))
  {
  }

  lemma OwnBeginKeepsInv(s: State)
    requires Inv(s) && Enabled(s, OwnBegin)
    ensures Inv(Apply(s, OwnBegin))
  {
    hide ListOk, PhaseOk, WalkOk, NodeOk, Advances, OwnBegun, Apply;
    if OwnDue(s) {
      var t := s.winner.value;
      ListedIsLinked(s, t);
      OwnBeginKeepsPhase(s);
      OwnBegunAdvances(s.nodes[t]);
      AdvanceKeepsInv(s, t, OwnBegun(s.nodes[t]));
      MovingOnKeepsInv(With(s, t, OwnBegun(s.nodes[t])), OwnStep(s));
    } else {
      OwnBeginKeepsPhase(s);
      MovingOnKeepsInv(s, OwnStep(s));
    }
  }

  lemma OwnEndKeepsInv(s: State)
    requires Inv(s) && Enabled(s, OwnEnd)
    ensures Inv(Apply(s, OwnEnd))
  {
    hide ListOk, WalkOk;
    var t := s.winner.value;
    AdvanceKeepsInv(s, t, s.nodes[t].(finiDone := true));
    MovingOnKeepsInv(With(s, t, s.nodes[t].(finiDone := true)), Apply(s, OwnEnd));
  }

  lemma FiniStepKeepsInv(s: State, step: Step)
    requires Inv(s) && Enabled(s, step) && (step.FiniProcessBegin? || step.FiniProcessEnd?)
    ensures Inv(Apply(s, step))
  {
    hide ListOk, WalkOk, NodeOk;
    assert PhaseOk(Apply(s, step));
    MovingOnKeepsInv(s, Apply(s, step));
  }

  lemma StepKeepsInv(s: State, step: Step)
    requires Inv(s) && Enabled(s, step)
    ensures Inv(Apply(s, step))
  {
    hide Inv, Apply;
    match step
    case FirstThread => EntryKeepsInv(s, step);
    case Link(t) => LinkKeepsInv(s, t);
    case Do(t, act) => DoKeepsInv(s, t, act);
    case Unlink(t) => UnlinkKeepsInv(s, t);
    case Visit => VisitKeepsInv(s);
    case Enter(_, _) => EntryKeepsInv(s, step);
    case LoserReturns(_) => EntryKeepsInv(s, step);
    case Freeze => EntryKeepsInv(s, step);
    case BeginWalk => WalkStepKeepsInv(s, step);
    case EndWalk(_) => WalkStepKeepsInv(s, step);
    case SetThreadsDone => WalkStepKeepsInv(s, step);
    case OwnBegin => OwnBeginKeepsInv(s);
    case OwnEnd => OwnEndKeepsInv(s);
    case FiniProcessBegin => FiniStepKeepsInv(s, step);
    case FiniProcessEnd => FiniStepKeepsInv(s, step);
  }

  // ---------- single steps late in the exit ----------

  lemma StepKeepsList(s: State, step: Step)
    requires Inv(s) && Enabled(s, step) && s.inExitCleanup
    ensures var s' := Apply(s, step);
            s'.inExitCleanup && s'.list == s.list && s'.winner == s.winner
  {
    hide ListOk, WalkOk, NodeOk, Has, Without, AfterVisit, StartedOthers;
    match step
    case Link(_) =>
    case Unlink(_) =>
    case Enter(_, _) =>
    case Freeze =>
    case OwnBegin =>
    case _ =>
  }

  /** Of a thread only callbacks that were due may begin. */
  ghost predicate OnlyDueBegin(n: Node, n': Node) {
    n.callbacks <= n'.callbacks <= Claims(n') <= Claims(n)
  }

  /** Once the shootdown is over no thread finds the flags in favour any more. */
  lemma StepBeginsOnlyDue(s: State, step: Step, t: Tid)
    requires Inv(s) && Enabled(s, step) && s.finiThreadDone && s.winner != Some(t)
    ensures var s' := Apply(s, step);
            && s'.finiThreadDone && s'.winner == s.winner && (t in s'.nodes <==> t in s.nodes)
            && (t in s.nodes ==> OnlyDueBegin(s.nodes[t], s'.nodes[t]))
  {
    hide ListOk, WalkOk, NodeOk, Without, AfterVisit, StartedOthers, Did, CanDo;
    match step
    case Link(_) =>
    case Do(x, act) =>
      DoOnlyDue(s.nodes[x], act, s.inExitCleanup);
      assert t in s.nodes ==> Apply(s, step).nodes[t] == if x == t then Did(s.nodes[t], act) else s.nodes[t];
    case Unlink(_) =>
    case Enter(_, _) =>
    case OwnBegin =>
    case OwnEnd =>
    case _ =>
  }

  lemma DoOnlyDue(n: Node, act: Act, inExitCleanup: bool)
    requires CanDo(n, act, inExitCleanup, true)
    ensures OnlyDueBegin(n, Did(n, act))
  {
  }

  /** The thread's own code has found the flags in favour and has yet to set `tn_fini_started`, and on top
      of it the handler finds them in favour as well, or the thread, which has entered exit from a signal
      handler and won, runs its own callback there. */
  ghost predicate InWindow(s: State, s': State, t: Tid) {
    && t in s.nodes && t in s'.nodes
    && s.nodes[t].base.Some? && s'.nodes[t].base.Some? && !s.nodes[t].handler
    && (s'.nodes[t].handler || s'.nodes[t].callbacks > s.nodes[t].callbacks)
  }

  function ClaimsOf(s: State, t: Tid): nat {
    if t in s.nodes then Claims(s.nodes[t]) else 0
  }

  predicate SameClaims(n: Node, n': Node) {
    n'.base == n.base && n'.handler == n.handler && n'.callbacks == n.callbacks
  }

  lemma DoClaims(n: Node, act: Act, inExitCleanup: bool, finiThreadDone: bool)
    requires NodeOk(n) && CanDo(n, act, inExitCleanup, finiThreadDone) && Claims(n) <= 1
    ensures var n' := Did(n, act);
            Claims(n') <= 1 <==> !(n.base.Some? && n'.base.Some? && !n.handler && (n'.handler || n'.callbacks > n.callbacks))
  {
  }

  predicate LeavesNodes(step: Step) {
    !(step.Link? || step.Do? || step.Unlink? || step.OwnBegin? || step.OwnEnd?)
  }

  lemma BeginWalkKeepsNodes(s: State)
    requires Enabled(s, BeginWalk)
    ensures Apply(s, BeginWalk).nodes == s.nodes
  {
    hide StartedOthers;
  }

  lemma VisitKeepsNodes(s: State)
    requires Enabled(s, Visit)
    ensures Apply(s, Visit).nodes == s.nodes
  {
    hide AfterVisit;
  }

  lemma EndWalkKeepsNodes(s: State, timeout: bool)
    requires Enabled(s, EndWalk(timeout))
    ensures Apply(s, EndWalk(timeout)).nodes == s.nodes
  {
  }

  lemma LateKeepsNodes(s: State, step: Step)
    requires Enabled(s, step) && (step.SetThreadsDone? || step.FiniProcessBegin? || step.FiniProcessEnd?)
    ensures Apply(s, step).nodes == s.nodes
  {
    match step
    case SetThreadsDone =>
    case FiniProcessBegin =>
    case FiniProcessEnd =>
    case _ =>
  }

  lemma NodesKept(s: State, step: Step)
    requires PhaseOk(s) && Enabled(s, step) && LeavesNodes(step)
    ensures Apply(s, step).nodes == s.nodes
  {
    hide Enabled, Apply;
    if IsEntry(step) {
      EntryKeepsThreads(s, step);
    } else {
      match step
      case BeginWalk => BeginWalkKeepsNodes(s);
      case Visit => VisitKeepsNodes(s);
      case EndWalk(timeout) => EndWalkKeepsNodes(s, timeout);
      case _ => LateKeepsNodes(s, step);
    }
  }

  lemma ListStepClaims(s: State, step: Step, t: Tid)
    requires Enabled(s, step) && (step.Link? || step.Unlink? || step.OwnEnd?)
    ensures ClaimsOf(Apply(s, step), t) == ClaimsOf(s, t) && !InWindow(s, Apply(s, step), t)
  {
    hide Without, InWindow, ClaimsOf;
    match step
    case Link(x) => SameNodes(s, Apply(s, step), t, x);
    case Unlink(x) => SameNodes(s, Apply(s, step), t, x);
    case OwnEnd => SameNodes(s, Apply(s, step), t, s.winner.value);
    case _ =>
  }

  lemma SameNodes(s: State, s': State, t: Tid, x: Tid)
    requires s'.nodes == s.nodes
             || (x in s'.nodes && s'.nodes == s.nodes[x := s'.nodes[x]]
                 && if x in s.nodes then SameClaims(s.nodes[x], s'.nodes[x]) else Claims(s'.nodes[x]) == 0 && !s'.nodes[x].handler)
    ensures ClaimsOf(s', t) == ClaimsOf(s, t) && !InWindow(s, s', t)
  {
  }

  lemma OwnStepClaims(s: State, t: Tid)
    requires s.phase.Over? && ClaimsOf(s, t) <= 1 && (t in s.nodes ==> NodeOk(s.nodes[t]))
    requires OwnDue(s) ==> !s.nodes[s.winner.value].handler
    ensures ClaimsOf(OwnStep(s), t) <= 1 <==> !InWindow(s, OwnStep(s), t)
  {
    var s' := OwnStep(s);
    assert t in s'.nodes <==> t in s.nodes;
    if OwnDue(s) && s.winner == Some(t) {
      assert s'.nodes[t] == OwnBegun(s.nodes[t]);
    } else if t in s.nodes {
      assert s'.nodes[t] == s.nodes[t];
    }
  }

  lemma OwnBeginClaims(s: State, t: Tid)
    requires Enabled(s, OwnBegin) && ClaimsOf(s, t) <= 1 && (t in s.nodes ==> NodeOk(s.nodes[t]))
    ensures ClaimsOf(Apply(s, OwnBegin), t) <= 1 <==> !InWindow(s, Apply(s, OwnBegin), t)
  {
    hide OwnStep, InWindow, ClaimsOf, NodeOk;
    OwnStepClaims(s, t);
  }

  lemma DoStepClaims(s: State, x: Tid, act: Act, t: Tid)
    requires Enabled(s, Do(x, act)) && ClaimsOf(s, t) <= 1 && (t in s.nodes ==> NodeOk(s.nodes[t]))
    ensures ClaimsOf(Apply(s, Do(x, act)), t) <= 1 <==> !InWindow(s, Apply(s, Do(x, act)), t)
  {
    hide Did, CanDo;
    var s' := Apply(s, Do(x, act));
    assert t in s'.nodes <==> t in s.nodes;
    if x == t {
      assert s'.nodes[t] == Did(s.nodes[t], act);
      DoClaims(s.nodes[t], act, s.inExitCleanup, s.finiThreadDone);
    } else if t in s.nodes {
      assert s'.nodes[t] == s.nodes[t];
    }
  }

  /** A second claim on a thread's callback arises in its window and nowhere else. */
  lemma StepClaims(s: State, step: Step, t: Tid)
    requires Inv(s) && Enabled(s, step) && ClaimsOf(s, t) <= 1
    ensures ClaimsOf(Apply(s, step), t) <= 1 <==> !InWindow(s, Apply(s, step), t)
  {
    hide ListOk, WalkOk, PhaseOk, NodeOk, Enabled, Apply, InWindow, ClaimsOf;
    InvNode(s, t);
    match step
    case OwnBegin => OwnBeginClaims(s, t);
    case Do(x, act) => DoStepClaims(s, x, act, t);
    case Link(_) => ListStepClaims(s, step, t);
    case Unlink(_) => ListStepClaims(s, step, t);
    case OwnEnd => ListStepClaims(s, step, t);
    case _ =>
      NodesKept(s, step);
      SameNodes(s, Apply(s, step), t, t);
  }

  lemma InvNode(s: State, t: Tid)
    requires Inv(s)
    ensures t in s.nodes ==> NodeOk(s.nodes[t])
  {
  }

  function StartedOf(p: Phase): set<Tid>
    requires p.Walking? || Decided(p)
  {
    p.started
  }

  lemma StepKeepsWalkStart(s: State, step: Step)
    requires Inv(s) && Enabled(s, step)
    ensures var s' := Apply(s, step);
            (s'.inExitCleanup && (s'.phase.Walking? || Decided(s'.phase)) ==>
                  if step.BeginWalk? then s.phase == BetweenWalks && StartedOf(s'.phase) == StartedOthers(s)
                  else s.inExitCleanup && (s.phase.Walking? || Decided(s.phase)) && StartedOf(s'.phase) == StartedOf(s.phase))
  {
    hide ListOk, WalkOk, NodeOk, Has, Without;
    match step
    case BeginWalk =>
    case Visit =>
    case EndWalk(_) =>
    case Freeze =>
    case _ =>
  }

  // ---------- runs ----------

  ghost predicate Follows(s: State, s': State) {
    exists step :: Enabled(s, step) && s' == Apply(s, step)
  }

  ghost predicate IsRun(run: seq<State>) {
    && run != [] && Init(run[0])
    && forall i :: 0 <= i < |run| - 1 ==> Follows(run[i], run[i + 1])
  }

  lemma InitIsInv(s: State)
    requires Init(s)
    ensures Inv(s)
  {
  }

  lemma {:induction false} RunsKeepInv(run: seq<State>, n: nat)
    requires IsRun(run) && n < |run|
    ensures Inv(run[n])
  {
    hide Inv, Init, Enabled, Apply;
    if n == 0 {
      InitIsInv(run[0]);
    } else {
      RunsKeepInv(run, n - 1);
      var step := StepTaken(run, n - 1);
      StepKeepsInv(run[n - 1], step);
    }
  }

  lemma StepTaken(run: seq<State>, n: nat) returns (step: Step)
    requires IsRun(run) && n + 1 < |run|
    ensures Enabled(run[n], step) && run[n + 1] == Apply(run[n], step)
  {
    hide Init, Enabled, Apply;
    assert Follows(run[n], run[n + 1]);
    step :| Enabled(run[n], step) && run[n + 1] == Apply(run[n], step);
  }

  /** In every run the fini-thread callback of each thread incarnation is begun at most twice, and one
      recorded as done was begun. */
  lemma FiniThreadAtMostTwice(run: seq<State>, n: nat, t: Tid)
    requires IsRun(run) && n < |run| && t in run[n].nodes
    ensures run[n].nodes[t].callbacks <= Claims(run[n].nodes[t]) <= 2
    ensures run[n].nodes[t].finiDone ==> run[n].nodes[t].callbacks >= 1
  {
    RunsKeepInv(run, n);
  }

  /** In every run the callbacks of a thread begun or still to begin are at most one all along, exactly when
      between the thread's own test of `tn_fini_started` and its setting the shootdown handler never found
      the flags in favour, and no signal handler took the thread into exit to run the winner's callback. */
  lemma {:induction false} FiniThreadAtMostOnceIff(run: seq<State>, n: nat, t: Tid)
    requires IsRun(run) && n < |run|
    ensures (forall k :: 0 <= k <= n ==> ClaimsOf(run[k], t) <= 1) <==> NeverInWindow(run, n, t)
    decreases n
  {
    hide Inv, Enabled, Apply, InWindow, ClaimsOf;
    if n == 0 {
      assert ClaimsOf(run[0], t) == 0 by { NothingClaimed(run[0], t); }
    } else {
      FiniThreadAtMostOnceIff(run, n - 1, t);
      RunsKeepInv(run, n - 1);
      var step := StepTaken(run, n - 1);
      if ClaimsOf(run[n - 1], t) <= 1 {
        StepClaims(run[n - 1], step, t);
        assert Outside(run, n - 1, t) <==> ClaimsOf(run[n], t) <= 1;
      }
    }
  }

  lemma NothingClaimed(s: State, t: Tid)
    requires Init(s)
    ensures ClaimsOf(s, t) == 0
  {
  }

  /** In its k-th step the run stays out of the thread's window. */
  ghost predicate Outside(run: seq<State>, k: int, t: Tid) {
    0 <= k && k + 1 < |run| && !InWindow(run[k], run[k + 1], t)
  }

  ghost predicate NeverInWindow(run: seq<State>, n: nat, t: Tid) {
    forall k :: 0 <= k < n ==> Outside(run, k, t)
  }

  /** Out of that window it is begun at most once, and exactly once when recorded as done. */
  lemma FiniThreadAtMostOnce(run: seq<State>, n: nat, t: Tid)
    requires IsRun(run) && n < |run| && t in run[n].nodes
    requires NeverInWindow(run, n, t)
    ensures run[n].nodes[t].callbacks <= 1
    ensures run[n].nodes[t].finiDone ==> run[n].nodes[t].callbacks == 1
  {
    FiniThreadAtMostOnceIff(run, n, t);
    assert ClaimsOf(run[n], t) <= 1;
    RunsKeepInv(run, n);
  }

  /** In every run the fini-process callback is begun at most once, and where the shootdown has taken
      place only after it has closed the door to threads that have yet to read the flags. */
  lemma FiniProcessAtMostOnce(run: seq<State>, n: nat)
    requires IsRun(run) && n < |run|
    ensures run[n].finiProcessCalls <= 1
    ensures run[n].finiProcessCalls == 1 && run[n].inExitCleanup ==> run[n].finiThreadDone
  {
    RunsKeepInv(run, n);
  }

  lemma StepKeepsUnfrozen(s: State, step: Step)
    requires Inv(s) && Enabled(s, step) && !Apply(s, step).inExitCleanup && Decided(Apply(s, step).phase)
    ensures !s.inExitCleanup && (Decided(s.phase) || (step.Freeze? && !s.threaded))
  {
    hide ListOk, WalkOk, NodeOk, Has, Without, AfterVisit, StartedOthers;
    match step
    case Freeze =>
    case EndWalk(_) =>
    case OwnBegin =>
    case OwnEnd =>
    case _ =>
  }

  /** Without the shootdown it is begun only where the winner found no thread ever created. */
  lemma {:induction false} NoShootdownWithoutThreads(run: seq<State>, n: nat) returns (m: nat)
    requires IsRun(run) && n < |run| && Decided(run[n].phase) && !run[n].inExitCleanup
    ensures m < n && run[m].phase == Won && !run[m].threaded && !run[m].inExitCleanup
    decreases n
  {
    hide Inv, Enabled, Apply;
    if n > 0 {
      var step := StepTaken(run, n - 1);
      RunsKeepInv(run, n - 1);
      StepKeepsUnfrozen(run[n - 1], step);
      if Decided(run[n - 1].phase) {
        m := NoShootdownWithoutThreads(run, n - 1);
      } else {
        m := n - 1;
        assert run[m].phase == Won by { FreezeIsOfWinner(run[m], step); }
      }
    }
  }

  lemma FreezeIsOfWinner(s: State, step: Step)
    requires Enabled(s, step) && step.Freeze?
    ensures s.phase == Won
  {
  }

  /** A losing thread comes back from the exit function only after the winner has finished or has itself
      entered exit again. */
  lemma LosersWaitForWinner(run: seq<State>, n: nat, t: Tid)
    requires IsRun(run) && n < |run| && t in run[n].resumed
    ensures At(run[n].phase, Finished) || (run[n].reentered && run[n].exitWin)
    ensures At(run[n].phase, Finished) ==> run[n].finiProcessCalls == 1
  {
    RunsKeepInv(run, n);
  }

  /** Once exit cleanup is set, the thread list never changes. */
  lemma {:induction false} ListFrozenAtExit(run: seq<State>, m: nat, n: nat)
    requires IsRun(run) && m <= n < |run| && run[m].inExitCleanup
    ensures run[n].inExitCleanup && run[n].list == run[m].list && run[n].winner == run[m].winner
    decreases n
  {
    hide Inv, Init, Enabled, Apply;
    if m < n {
      ListFrozenAtExit(run, m, n - 1);
      RunsKeepInv(run, n - 1);
      var step := StepTaken(run, n - 1);
      StepKeepsList(run[n - 1], step);
    }
  }

  /** Once the shootdown is over, the fini-thread callbacks of a thread other than the winner that still
      begin are those it had found the flags in favour of before; and if there was no timeout, every thread
      that had started when the last walk began, or that it saw as started, has begun its callback. */
  lemma {:induction false} LateCallbacksWereDue(run: seq<State>, m: nat, n: nat, t: Tid)
    requires IsRun(run) && m <= n < |run| && run[m].finiThreadDone && run[m].winner != Some(t)
    ensures run[n].finiThreadDone && run[n].winner == run[m].winner
    ensures (t in run[n].nodes <==> t in run[m].nodes)
    ensures t in run[n].nodes ==> OnlyDueBegin(run[m].nodes[t], run[n].nodes[t])
    ensures Decided(run[m].phase)
    ensures !run[m].phase.timedOut && t in run[m].phase.started + run[m].phase.seen ==>
              t in run[m].nodes && run[m].nodes[t].callbacks >= 1
    decreases n
  {
    hide Inv, Init, Enabled, Apply;
    if m < n {
      LateCallbacksWereDue(run, m, n - 1, t);
      RunsKeepInv(run, n - 1);
      var step := StepTaken(run, n - 1);
      StepBeginsOnlyDue(run[n - 1], step, t);
    }
    RunsKeepInv(run, m);
    InvAtEnd(run[m], t);
  }

  lemma InvAtEnd(s: State, t: Tid)
    requires Inv(s) && s.finiThreadDone
    ensures Decided(s.phase)
    ensures !s.phase.timedOut && t in s.phase.started + s.phase.seen ==> t in s.nodes && s.nodes[t].callbacks >= 1
  {
  }

  /** Without timeout and out of the window, no callback of such a thread begins any more. */
  lemma NoLateCallbacks(run: seq<State>, m: nat, n: nat, t: Tid)
    requires IsRun(run) && m <= n < |run| && run[m].finiThreadDone && run[m].winner != Some(t)
    requires Decided(run[m].phase) && !run[m].phase.timedOut && t in run[m].phase.started + run[m].phase.seen
    requires NeverInWindow(run, m, t)
    ensures t in run[m].nodes && t in run[n].nodes && run[n].nodes[t].callbacks == run[m].nodes[t].callbacks == 1
  {
    LateCallbacksWereDue(run, m, n, t);
    FiniThreadAtMostOnceIff(run, m, t);
    assert ClaimsOf(run[m], t) <= 1;
  }

  /** The set a walk in progress or a decided shootdown speaks of was read off when the last walk began. */
  lemma {:induction false} LastWalkBegan(run: seq<State>, n: nat) returns (m: nat)
    requires IsRun(run) && n < |run| && run[n].inExitCleanup && (run[n].phase.Walking? || Decided(run[n].phase))
    ensures m < n && run[m].phase == BetweenWalks && StartedOf(run[n].phase) == StartedOthers(run[m])
    decreases n
  {
    hide Inv, Enabled, Apply;
    if n > 0 {
      var step := StepTaken(run, n - 1);
      RunsKeepInv(run, n - 1);
      StepKeepsWalkStart(run[n - 1], step);
      if step.BeginWalk? {
        m := n - 1;
      } else {
        m := LastWalkBegan(run, n - 1);
      }
    }
  }

  /** If the shootdown ends without timeout, every other linked thread that had started the application
      when the last walk began, and every one the walk saw as started, has finished a fini callback, and
      its only one if the run stayed out of its window; and the walk that decided it went over the list that
      is still in place. */
  lemma ShootdownFinishesThreads(run: seq<State>, n: nat) returns (m: nat)
    requires IsRun(run) && n < |run| && run[n].inExitCleanup && Decided(run[n].phase) && !run[n].phase.timedOut
    ensures m < n && run[m].phase == BetweenWalks && run[m].list == run[n].list
    ensures forall t :: t in StartedOthers(run[m]) || t in run[n].phase.seen ==>
              t in run[n].nodes && run[n].nodes[t].finiDone && run[n].nodes[t].callbacks >= 1
              && (NeverInWindow(run, n, t) ==> run[n].nodes[t].callbacks == 1)
  {
    m := LastWalkBegan(run, n);
    RunsKeepInv(run, m);
    RunsKeepInv(run, n);
    ListFrozenAtExit(run, m, n);
    forall t | t in run[n].nodes && run[n].nodes[t].finiDone && NeverInWindow(run, n, t)
      ensures run[n].nodes[t].callbacks == 1
    {
      FiniThreadAtMostOnce(run, n, t);
    }
  }

  // ---------- three runs that go wrong ----------

  // ---------- the winner's own callback ----------

  /** The shootdown is over and the winner is in the list: it has begun its callback. */
  ghost predicate WinnerBegan(s: State) {
    PastOwn(s) && s.winner.Some? && s.winner.value in s.list ==>
      s.winner.value in s.nodes && s.nodes[s.winner.value].finiStarted
  }

  /** No step takes back what a node has begun or done. */
  ghost predicate Later(s: State, s': State, t: Tid) {
    t in s.nodes ==>
      t in s'.nodes && (s.nodes[t].finiStarted ==> s'.nodes[t].finiStarted) && (s.nodes[t].finiDone ==> s'.nodes[t].finiDone)
  }

  lemma DoIsLater(n: Node, act: Act)
    ensures (n.finiStarted ==> Did(n, act).finiStarted) && (n.finiDone ==> Did(n, act).finiDone)
  {
  }

  lemma ListStepIsLater(s: State, step: Step, t: Tid)
    requires Enabled(s, step) && (step.Link? || step.Unlink?)
    ensures Later(s, Apply(s, step), t)
  {
    hide Without;
  }

  lemma DoStepIsLater(s: State, x: Tid, act: Act, t: Tid)
    requires Enabled(s, Do(x, act))
    ensures Later(s, Apply(s, Do(x, act)), t)
  {
    hide Did, CanDo;
    DoIsLater(s.nodes[x], act);
  }

  lemma OwnStepIsLater(s: State, t: Tid)
    requires s.phase.Over?
    ensures Later(s, OwnStep(s), t)
  {
  }

  lemma OwnBeginIsLater(s: State, t: Tid)
    requires Enabled(s, OwnBegin)
    ensures Later(s, Apply(s, OwnBegin), t)
  {
    hide OwnStep, Later;
    OwnStepIsLater(s, t);
  }

  lemma OwnEndIsLater(s: State, t: Tid)
    requires Enabled(s, OwnEnd)
    ensures Later(s, Apply(s, OwnEnd), t)
  {
  }

  lemma StepIsLater(s: State, step: Step, t: Tid)
    requires PhaseOk(s) && Enabled(s, step)
    ensures Later(s, Apply(s, step), t)
  {
    hide PhaseOk, Enabled, Apply;
    match step
    case Link(_) => ListStepIsLater(s, step, t);
    case Do(x, act) => DoStepIsLater(s, x, act, t);
    case Unlink(_) => ListStepIsLater(s, step, t);
    case OwnBegin => OwnBeginIsLater(s, t);
    case OwnEnd => OwnEndIsLater(s, t);
    case _ => NodesKept(s, step);
  }

  /** The exit function is past the winner's own callback. */
  predicate PastOwn(s: State) {
    s.inExitCleanup && (At(s.phase, ShootdownOver) || At(s.phase, InFiniProcess) || At(s.phase, Finished))
  }

  lemma OwnStepIsPast(s: State)
    requires PhaseOk(s) && At(s.phase, ThreadsDone) && PastOwn(OwnStep(s))
    ensures !OwnDue(s) && s.inExitCleanup
  {
  }

  lemma StepIntoPast(s: State, step: Step)
    requires PhaseOk(s) && Enabled(s, step) && PastOwn(Apply(s, step))
    ensures s.inExitCleanup && (PastOwn(s) || (step.OwnBegin? && !OwnDue(s)) || (step.OwnEnd? && At(s.phase, OwnFini)))
  {
    hide Has, Did, CanDo, Without, AfterVisit, StartedOthers, OwnStep;
    match step
    case OwnBegin => OwnStepIsPast(s);
    case OwnEnd =>
    case EndWalk(_) =>
    case Freeze =>
    case _ =>
  }

  lemma StepKeepsWinnerBegan(s: State, step: Step)
    requires Inv(s) && Enabled(s, step) && WinnerBegan(s)
    ensures WinnerBegan(Apply(s, step))
  {
    hide Inv, PhaseOk, ListOk, Enabled, Apply, OwnStep, WalkOk;
    var s' := Apply(s, step);
    if PastOwn(s') && s'.winner.Some? && s'.winner.value in s'.list {
      InvParts(s);
      StepIntoPast(s, step);
      StepKeepsList(s, step);
      StepIsLater(s, step, s.winner.value);
      ListedIsLinked(s, s.winner.value);
      if At(s.phase, OwnFini) {
        OwnFiniHasBegun(s);
      }
    }
  }

  lemma OwnFiniHasBegun(s: State)
    requires PhaseOk(s) && At(s.phase, OwnFini) && s.winner.Some?
    ensures s.winner.value in s.nodes && s.nodes[s.winner.value].finiStarted
  {
  }

  lemma {:induction false} RunsKeepWinnerBegan(run: seq<State>, n: nat)
    requires IsRun(run) && n < |run|
    ensures WinnerBegan(run[n])
  {
    hide Inv, Enabled, Apply;
    if n > 0 {
      RunsKeepWinnerBegan(run, n - 1);
      RunsKeepInv(run, n - 1);
      var step := StepTaken(run, n - 1);
      StepKeepsWinnerBegan(run[n - 1], step);
    }
  }

  /** In every run with a shootdown a winner that is in the thread list has begun its own fini-thread callback
      before the fini-process callback begins. */
  lemma WinnerRunsItsOwn(run: seq<State>, n: nat)
    requires IsRun(run) && n < |run| && run[n].inExitCleanup && run[n].winner.Some? && run[n].winner.value in run[n].list
    requires At(run[n].phase, ShootdownOver) || run[n].finiProcessCalls > 0
    ensures run[n].winner.value in run[n].nodes
    ensures run[n].nodes[run[n].winner.value].finiStarted && run[n].nodes[run[n].winner.value].callbacks >= 1
  {
    RunsKeepInv(run, n);
    RunsKeepWinnerBegan(run, n);
  }

  lemma StepEndsOwnFini(s: State, step: Step)
    requires PhaseOk(s) && Enabled(s, step) && At(s.phase, OwnFini)
    ensures var s' := Apply(s, step);
            && s'.winner == s.winner && s.winner.Some?
            && (At(s'.phase, OwnFini) || (s.winner.value in s'.nodes && s'.nodes[s.winner.value].finiDone))
  {
    hide Has, Did, CanDo, Without, AfterVisit, StartedOthers;
    match step
    case Enter(_, _) =>
    case OwnEnd =>
    case _ =>
  }

  /** A callback begun by the exit function itself is over before anything follows it. */
  lemma {:induction false} OwnCallbackFinishes(run: seq<State>, m: nat, n: nat)
    requires IsRun(run) && m <= n < |run| && At(run[m].phase, OwnFini) && run[m].winner.Some?
    ensures run[n].winner == run[m].winner
    ensures At(run[n].phase, OwnFini)
            || (run[m].winner.value in run[n].nodes && run[n].nodes[run[m].winner.value].finiDone)
    decreases n
  {
    hide Inv, Init, Enabled, Apply;
    if m < n {
      OwnCallbackFinishes(run, m, n - 1);
      RunsKeepInv(run, n - 1);
      var step := StepTaken(run, n - 1);
      InvParts(run[n - 1]);
      StepKeepsWinner(run[n - 1], step);
      StepIsLater(run[n - 1], step, run[m].winner.value);
      if At(run[n - 1].phase, OwnFini) {
        StepEndsOwnFini(run[n - 1], step);
      }
    }
  }

  lemma InvParts(s: State)
    requires Inv(s)
    ensures PhaseOk(s) && ListOk(s)
  {
  }

  lemma StepKeepsWinner(s: State, step: Step)
    requires PhaseOk(s) && Enabled(s, step) && s.winner.Some?
    ensures Apply(s, step).winner == s.winner
  {
    hide Has, Did, CanDo, Without, AfterVisit, StartedOthers;
    match step
    case Link(_) =>
    case Unlink(_) =>
    case Enter(_, _) =>
    case Freeze =>
    case EndWalk(_) =>
    case OwnBegin =>
    case _ =>
  }

  // ---------- who may have a callback ----------

  lemma DoClaimsAllowed(n: Node, act: Act, inExitCleanup: bool, finiThreadDone: bool)
    requires CanDo(n, act, inExitCleanup, finiThreadDone) && Claims(Did(n, act)) > Claims(n)
    ensures n.applStarted && !n.finiStarted && !n.blockShootdown && !finiThreadDone
  {
  }

  lemma StepClaimsAllowed(s: State, step: Step, t: Tid)
    requires Inv(s) && Enabled(s, step) && s.winner != Some(t) && ClaimsOf(Apply(s, step), t) > ClaimsOf(s, t)
    ensures t in s.nodes
    ensures var n := s.nodes[t];
            n.applStarted && !n.finiStarted && !n.blockShootdown && !s.finiThreadDone
  {
    hide ListOk, WalkOk, NodeOk, Did, CanDo, Claims;
    match step
    case Do(x, act) =>
      assert x == t;
      assert Apply(s, step).nodes[t] == Did(s.nodes[t], act);
      DoClaimsAllowed(s.nodes[t], act, s.inExitCleanup, s.finiThreadDone);
    case Link(_) => ListStepClaims(s, step, t);
    case Unlink(_) => ListStepClaims(s, step, t);
    case OwnEnd => ListStepClaims(s, step, t);
    case OwnBegin =>
    case _ => NodesKept(s, step);
  }

  /** In every run a thread other than the winner comes by a callback only when the application has started
      in it, none has begun before, it is not blocked, and the shootdown is not over. */
  lemma OnlyStartedThreadsClaim(run: seq<State>, n: nat, t: Tid)
    requires IsRun(run) && n + 1 < |run| && run[n].winner != Some(t) && ClaimsOf(run[n + 1], t) > ClaimsOf(run[n], t)
    ensures t in run[n].nodes
    ensures var node := run[n].nodes[t];
            node.applStarted && !node.finiStarted && !node.blockShootdown && !run[n].finiThreadDone
  {
    hide IsRun, Inv, Enabled, Apply, ClaimsOf;
    RunsKeepInv(run, n);
    var step := StepTaken(run, n);
    StepClaimsAllowed(run[n], step, t);
  }

  // ---------- why the shootdown gives up ----------

  /** The walk is at a thread that has started the application and not begun its callback. */
  ghost predicate AtUnstarted(s: State, t: Tid) {
    && s.phase.Walking? && s.phase.rest != [] && s.phase.rest[0] == t && s.winner != Some(t)
    && t in s.nodes && s.nodes[t].applStarted && !s.nodes[t].finiStarted
  }

  lemma VisitCountsUnstarted(s: State)
    requires s.phase.Walking? && s.phase.rest != [] && s.phase.rest[0] in s.nodes
    requires AfterVisit(s.phase, s.nodes, s.winner).unstarted > 0
    ensures var p := AfterVisit(s.phase, s.nodes, s.winner);
            || (s.phase.unstarted > 0 && s.phase.seen <= p.seen)
            || (AtUnstarted(s, s.phase.rest[0]) && s.phase.rest[0] in p.seen)
  {
  }

  /** The phase says that an unstarted thread was counted. */
  predicate Counted(p: Phase) {
    (p.Walking? && p.unstarted > 0) || (p.Over? && p.timedOut)
  }

  function SeenOf(p: Phase): set<Tid> {
    if p.Walking? || p.Over? then p.seen else {}
  }

  ghost predicate CountKept(s: State, p: Phase) {
    Counted(p) ==> Counted(s.phase) && SeenOf(s.phase) == SeenOf(p)
  }

  lemma ThreadsKeepPhase(s: State, step: Step)
    requires Enabled(s, step) && (step.Link? || step.Do? || step.Unlink? || step.FirstThread? || step.LoserReturns?)
    ensures Apply(s, step).phase == s.phase
  {
    hide Has, Did, CanDo, Without;
    match step
    case Link(_) =>
    case Do(_, _) =>
    case Unlink(_) =>
    case _ =>
  }

  lemma EntryKeepsCount(s: State, step: Step)
    requires Enabled(s, step) && (step.Enter? || step.Freeze? || step.BeginWalk?)
    ensures CountKept(s, Apply(s, step).phase)
  {
    hide StartedOthers;
    match step
    case Enter(_, _) =>
    case Freeze =>
    case _ =>
  }

  lemma StageKeepsCount(s: State, step: Step)
    requires Enabled(s, step)
    requires step.SetThreadsDone? || step.OwnBegin? || step.OwnEnd? || step.FiniProcessBegin? || step.FiniProcessEnd?
    ensures CountKept(s, Apply(s, step).phase)
  {
    hide OwnNodes, OwnDue, OwnBegun;
    match step
    case SetThreadsDone =>
    case OwnBegin =>
    case OwnEnd =>
    case _ =>
  }

  lemma EndWalkKeepsCount(s: State, timeout: bool)
    requires Enabled(s, EndWalk(timeout))
    ensures CountKept(s, Apply(s, EndWalk(timeout)).phase)
  {
  }

  /** Only a visit counts; what was counted stays so until the next walk. */
  lemma CountedBefore(s: State, step: Step)
    requires Enabled(s, step) && !step.Visit?
    ensures CountKept(s, Apply(s, step).phase)
  {
    hide Enabled, Apply, Counted;
    match step
    case Enter(_, _) => EntryKeepsCount(s, step);
    case Freeze => EntryKeepsCount(s, step);
    case BeginWalk => EntryKeepsCount(s, step);
    case EndWalk(timeout) => EndWalkKeepsCount(s, timeout);
    case SetThreadsDone => StageKeepsCount(s, step);
    case OwnBegin => StageKeepsCount(s, step);
    case OwnEnd => StageKeepsCount(s, step);
    case FiniProcessBegin => StageKeepsCount(s, step);
    case FiniProcessEnd => StageKeepsCount(s, step);
    case _ => ThreadsKeepPhase(s, step);
  }

  lemma VisitPhase(s: State)
    requires Enabled(s, Visit)
    ensures Apply(s, Visit).phase == AfterVisit(s.phase, s.nodes, s.winner)
  {
    hide AfterVisit;
  }

  lemma StepCountsUnstarted(s: State, step: Step)
    requires Enabled(s, step) && Counted(Apply(s, step).phase)
    ensures || (Counted(s.phase) && SeenOf(s.phase) <= SeenOf(Apply(s, step).phase))
            || (s.phase.Walking? && s.phase.rest != [] && AtUnstarted(s, s.phase.rest[0])
                && s.phase.rest[0] in SeenOf(Apply(s, step).phase))
  {
    hide Apply, AfterVisit, AtUnstarted;
    if step.Visit? {
      VisitPhase(s);
      VisitCountsUnstarted(s);
    } else {
      CountedBefore(s, step);
    }
  }

  /** In every run, if a walk has counted a thread as unstarted, or the shootdown has timed out, that walk met
      a thread of the application whose callback had not begun. */
  lemma {:induction false} TimeoutMeansUnstarted(run: seq<State>, n: nat) returns (m: nat, t: Tid)
    requires IsRun(run) && n < |run|
    requires Counted(run[n].phase)
    ensures m < n && AtUnstarted(run[m], t) && t in SeenOf(run[n].phase)
    decreases n
  {
    hide Inv, Enabled, Apply, AtUnstarted;
    if n > 0 {
      RunsKeepInv(run, n - 1);
      var step := StepTaken(run, n - 1);
      StepCountsUnstarted(run[n - 1], step);
      var p := run[n - 1].phase;
      if p.Walking? && p.rest != [] && AtUnstarted(run[n - 1], p.rest[0]) && p.rest[0] in SeenOf(run[n].phase) {
        m, t := n - 1, p.rest[0];
      } else {
        m, t := TimeoutMeansUnstarted(run, n - 1);
      }
    }
  }

  // ---------- building runs ----------

  lemma Extends(run: seq<State>, step: Step) returns (longer: seq<State>)
    requires IsRun(run) && Enabled(run[|run| - 1], step)
    ensures IsRun(longer) && |longer| == |run| + 1 && longer[..|run|] == run
    ensures longer[|run|] == Apply(run[|run| - 1], step)
  {
    hide Init, Enabled, Apply;
    longer := run + [Apply(run[|run| - 1], step)];
    forall i | 0 <= i < |longer| - 1 ensures Follows(longer[i], longer[i + 1]) {
      if i < |run| - 1 {
        assert Follows(run[i], run[i + 1]);
      }
    }
  }

  /** Thread 0, without a node, exits while thread 1, started, is the only other one. */
  function Alone(frozen: bool, n: Node, phase: Phase): State {
    State(true, map[1 := n], [1], frozen, false, true, false, Some(0), false, false, phase, {}, {}, 0)
  }

  function Started(base: Option<Path>, handler: bool, callbacks: nat): Node {
    Node(true, true, callbacks > 0, callbacks > 0, false, Idle, base, handler, callbacks)
  }

  lemma RunOfOne(s: State)
    requires Init(s)
    ensures IsRun([s])
  {
  }

  lemma UpToOneThread() returns (run: seq<State>)
    ensures IsRun(run)
    ensures run[|run| - 1] == State(true, map[1 := Started(None, false, 0)], [1], false, false, false, false,
                                    None, false, false, NoWinner, {}, {}, 0)
  {
    hide IsRun;
    var s := State(false, map[], [], false, false, false, false, None, false, false, NoWinner, {}, {}, 0);
    run := [s];
    RunOfOne(s);
    run := Extends(run, FirstThread);
    run := Extends(run, Link(1));
    run := Extends(run, Do(1, StartAppl));
    assert run[|run| - 1].nodes == map[1 := Started(None, false, 0)];
  }

  lemma UpToTheRace() returns (run: seq<State>)
    ensures IsRun(run) && run[|run| - 1] == Alone(true, Started(None, false, 0), BetweenWalks)
  {
    hide IsRun;
    run := UpToOneThread();
    run := Extends(run, Enter(0, false));
    run := Extends(run, Freeze);
  }

  /** Thread 1 has found the flags in favour of the callback before the walk times out. */
  lemma UpToTimeout() returns (run: seq<State>)
    ensures IsRun(run) && run[|run| - 1] == Alone(true, Started(None, true, 0), Over(WalksOver, true, {1}, {1}))
  {
    hide IsRun;
    run := UpToTheRace();
    run := Extends(run, Do(1, Interrupt));
    assert run[|run| - 1].nodes == map[1 := Started(None, true, 0)];
    run := Extends(run, BeginWalk);
    assert StartedOthers(Alone(true, Started(None, true, 0), BetweenWalks)) == {1};
    run := Extends(run, Visit);
    assert run[|run| - 1].phase == Walking([], 1, 1, {1}, {1});
    run := Extends(run, EndWalk(true));
  }

  /** A run in which a thread begins its fini-thread callback after the fini-process callback has begun. */
  lemma CallbackAfterShootdown() returns (run: seq<State>, m: nat)
    ensures IsRun(run) && m + 1 < |run| && 1 in run[m].nodes && 1 in run[|run| - 1].nodes
    ensures run[m].finiThreadDone && run[m].finiProcessCalls == 1 && run[m].winner == Some(0)
    ensures run[m].nodes[1].callbacks == 0 && run[|run| - 1].nodes[1].callbacks == 1
  {
    hide IsRun;
    run := UpToTimeout();
    run := Extends(run, SetThreadsDone);
    run := Extends(run, OwnBegin);
    run := Extends(run, FiniProcessBegin);
    m := |run| - 1;
    var late := Extends(run, Do(1, HandlerBegin));
    assert late[m] == late[..|run|][m];
    run := late;
  }

  /** A run in which a thread's callback is begun twice: its cleanup has found `tn_fini_started` unset when
      the shootdown signal arrives, the handler runs the callback, and the cleanup runs it again. */
  lemma CallbackTwice() returns (run: seq<State>)
    ensures IsRun(run) && 1 in run[|run| - 1].nodes && run[|run| - 1].nodes[1].callbacks == 2
  {
    hide IsRun;
    run := UpToTheRace();
    run := Extends(run, Do(1, Pass(ByCleanup)));
    run := Extends(run, Do(1, Interrupt));
    assert run[|run| - 1].nodes == map[1 := Started(Some(ByCleanup), true, 0)];
    run := Extends(run, Do(1, HandlerBegin));
    run := Extends(run, Do(1, HandlerEnd));
    assert run[|run| - 1].nodes == map[1 := Started(Some(ByCleanup), false, 1)];
    run := Extends(run, Do(1, Begin));
  }

  /** Thread 1 enters exit, from a handler on top of its cleanup's window. */
  function Nested(cleanup: Node, phase: Phase): State {
    State(true, map[1 := cleanup], [1], true, phase.Over?, true, At(phase, Finished), Some(1), true, false, phase, {}, {},
          if At(phase, Finished) then 1 else 0)
  }

  lemma UpToNestedExit() returns (run: seq<State>)
    ensures IsRun(run) && run[|run| - 1] == Nested(Started(Some(ByCleanup), false, 0), BetweenWalks)
  {
    hide IsRun;
    run := UpToOneThread();
    run := Extends(run, Do(1, Pass(ByCleanup)));
    assert run[|run| - 1].nodes == map[1 := Started(Some(ByCleanup), false, 0)];
    run := Extends(run, Enter(1, true));
    run := Extends(run, Freeze);
  }

  lemma UpToOwnBegin() returns (run: seq<State>)
    ensures IsRun(run) && run[|run| - 1] == Nested(Started(Some(ByCleanup), false, 0), Over(ThreadsDone, false, {}, {}))
  {
    hide IsRun;
    run := UpToNestedExit();
    run := Extends(run, BeginWalk);
    assert StartedOthers(Nested(Started(Some(ByCleanup), false, 0), BetweenWalks)) == {};
    run := Extends(run, Visit);
    run := Extends(run, EndWalk(false));
    run := Extends(run, SetThreadsDone);
  }

  lemma UpToShootdownOver() returns (run: seq<State>)
    ensures IsRun(run) && run[|run| - 1] == Nested(Started(Some(ByCleanup), false, 1), Over(ShootdownOver, false, {}, {}))
  {
    hide IsRun;
    run := UpToOwnBegin();
    run := Extends(run, OwnBegin);
    run := Extends(run, OwnEnd);
    assert run[|run| - 1].nodes == map[1 := Started(Some(ByCleanup), false, 1)];
  }

  lemma UpToFailedExec() returns (run: seq<State>)
    ensures IsRun(run) && run[|run| - 1] == Nested(Started(Some(ByCleanup), false, 1), Over(Finished, false, {}, {}))
  {
    hide IsRun;
    run := UpToShootdownOver();
    run := Extends(run, FiniProcessBegin);
    run := Extends(run, FiniProcessEnd);
  }

  /** A run in which the winner's callback is begun twice: a signal handler on top of its cleanup calls
      exec, whose exit function runs the callback; the exec fails, and the cleanup runs it again. */
  lemma CallbackTwiceByExec() returns (run: seq<State>)
    ensures IsRun(run) && run[|run| - 1].winner == Some(1)
    ensures 1 in run[|run| - 1].nodes && run[|run| - 1].nodes[1].callbacks == 2
  {
    hide IsRun;
    run := UpToFailedExec();
    run := Extends(run, Do(1, Begin));
  }
}
