/** Every mutator that works on run leases and run history: launching, observing, heartbeats,
    orphaning, reconciliation, bids, the two finalizers, the two recoveries, renaming, finishing
    and replacing the task. */
module RunMachine {
  import opened Wrappers
  import opened TaskState
  import opened Leases
  import Store = SerialStore

  const ORPHAN_BID_LIMIT: nat := 8

  /** What the machine takes from outside: path canonicalisation, the hash that names a run after
      its session and operation, and the terminal a host gives to a run. */
  datatype Env = Env(
    resolve: string -> string,
    runIdFor: (string, string) -> string,
    terminalOf: string -> Option<string>)

  /** What a handoff preview shows; comparing it stands for comparing its hash. */
  datatype Fingerprint = Fingerprint(sessionId: string, status: TaskStatus, other: string)

  /** Terminal observations before the provider exits. */
  datatype LiveStatus = SeenStarting | SeenRunning | SeenWaiting | SeenStopping | SeenOrphaned

  datatype Inventory = Inventory(instanceId: string, pid: nat, boot: Boot, terminals: set<string>)

  /** What a reconciler can see: the daemon's inventory if one answers, its own host and boot, and
      the pids that are alive. */
  datatype Evidence = Evidence(inventory: Option<Inventory>, host: string, boot: Boot, alive: set<nat>)

  datatype Action =
    | Launch(sessionId: string, operationId: string, agent: string, displayLabel: string, worktree: string,
             controller: Controller, now: nat, approved: Option<Fingerprint>)
    | Observe(terminalId: string, seen: LiveStatus, attention: Option<Attention>, seconds: Option<nat>,
              sequence: Option<nat>, daemon: Option<Controller>, now: nat)
    | RegisterBridge(terminalId: string, bridge: Bridge)
    | Touch(controllerId: ControllerId, now: nat)
    | OrphanOwned(controllerId: ControllerId, now: nat)
    | OrphanRun(runId: string, now: nat)
    | Reconcile(evidence: Evidence, now: nat)
    | SubmitBid(runId: string, bid: Bid)
    | Finalize(sessionId: string, operationId: string, agent: string, displayLabel: string,
               endedAt: nat, exitCode: Option<int>, reason: ExitReason)
    | FinalizeTerminal(terminalId: string, endedAt: nat, exitCode: Option<int>, reason: ExitReason,
                       seconds: Option<nat>, sequence: Option<nat>)
    | RecoverOrphaned(runId: string, now: nat)
    | RecoverStale(now: nat)
    | Rename(runId: string, displayLabel: string)
    | Finish(now: nat)
    | Edit(other: string, now: nat)
    | StartTask(sessionId: string, now: nat)

  type Mutated = Store.Mutation<State>

  // ---------------------------------------------------------------- shared lookups

  function FindRun(history: seq<Run>, id: Option<string>): Option<Run> {
    if history == [] then None
    else if history[0].id == id then Some(history[0])
    else FindRun(history[1..], id)
  }

  function FindLeaseByTerminal(runs: seq<Lease>, terminalId: string): Option<Lease> {
    if runs == [] then None
    else if runs[0].terminalId == Some(terminalId) then Some(runs[0])
    else FindLeaseByTerminal(runs[1..], terminalId)
  }

  /** The first entry on the terminal or with the lease's run id. An entry without an id matches
      an absent lease, as two absent values are equal in the program. */
  function FindTerminalRun(history: seq<Run>, terminalId: string, leaseRunId: Option<string>): Option<Run> {
    if history == [] then None
    else if history[0].terminalId == Some(terminalId) || history[0].id == leaseRunId then Some(history[0])
    else FindTerminalRun(history[1..], terminalId, leaseRunId)
  }

  function FirstOpenWithId(history: seq<Run>, id: string, from: nat): int
    requires from <= |history|
    ensures var k := FirstOpenWithId(history, id, from);
      -1 <= k < |history| && (k >= 0 ==> history[k].id == Some(id) && history[k].endedAt.None?)
    decreases |history| - from
  {
    if from == |history| then -1
    else if history[from].id == Some(id) && history[from].endedAt.None? then from
    else FirstOpenWithId(history, id, from + 1)
  }

  /** The last unfinished entry among the first `upTo`, of the given agent if one is given. */
  function LastOpen(history: seq<Run>, agent: Option<string>, upTo: nat): int
    requires upTo <= |history|
    ensures var k := LastOpen(history, agent, upTo);
      -1 <= k < |history| && (k >= 0 ==> history[k].endedAt.None?)
  {
    if upTo == 0 then -1
    else if history[upTo - 1].endedAt.None? && (agent.None? || Some(history[upTo - 1].agent) == agent) then upTo - 1
    else LastOpen(history, agent, upTo - 1)
  }

  predicate AnyOpen(history: seq<Run>) {
    exists k | 0 <= k < |history| :: history[k].endedAt.None?
  }

  predicate HasRun(history: seq<Run>, id: string) {
    exists k | 0 <= k < |history| :: history[k].id == Some(id)
  }

  function MapLeases(runs: seq<Lease>, f: Lease -> Lease): seq<Lease> {
    seq(|runs|, k requires 0 <= k < |runs| => f(runs[k]))
  }

  function MapRuns(history: seq<Run>, f: Run -> Run): seq<Run> {
    seq(|history|, k requires 0 <= k < |history| => f(history[k]))
  }

  function ControllerIdFor(controller: Controller): ControllerId {
    ControllerId(controller.kind, controller.boot, controller.instanceId)
  }

  // ---------------------------------------------------------------- launching

  function LaunchedRun(env: Env, runId: string, agent: string, displayLabel: string): Run {
    Run(Some(runId), displayLabel, agent, env.terminalOf(runId), None, None, None, Some(Working), None, Some(0), Some(0))
  }

  function LaunchedLease(env: Env, a: Action): Lease
    requires a.Launch?
  {
    var runId := env.runIdFor(a.sessionId, a.operationId);
    Lease(runId, a.displayLabel, env.terminalOf(runId), a.worktree, a.agent, a.controller,
          ControllerIdFor(a.controller), None, Working, None, 0, 0, [], a.now, RunningLease)
  }

  function MutateLaunch(env: Env, a: Action, s: State): Mutated
    requires a.Launch?
  {
    var runId := env.runIdFor(a.sessionId, a.operationId);
    if s.sessionId != a.sessionId then Store.Throws
    else if !s.status.ActiveTask? && !s.status.BlockedTask? then Store.Throws
    else if HasRun(s.history, runId) then Store.Same
    else if a.approved.Some? && a.approved.value != Fingerprint(s.sessionId, s.status, s.other) then Store.Throws
    else
      var claimed := AcquireLease(env.resolve,
        s.(history := s.history + [LaunchedRun(env, runId, a.agent, a.displayLabel)]), LaunchedLease(env, a));
      if claimed.None? then Store.Throws else Store.Changed(claimed.value)
  }

  // ---------------------------------------------------------------- observing

  function LifecycleFor(seen: LiveStatus, attention: Option<Attention>): Lifecycle {
    match seen
    case SeenStarting => Starting
    case SeenRunning => Working
    case SeenWaiting => if attention == Some(PermissionWait) then NeedsPermission else WaitingForInput
    case SeenStopping => Stopping
    case SeenOrphaned => Orphaned
  }

  function LeaseStatusFor(seen: LiveStatus): LeaseStatus {
    match seen
    case SeenStarting => StartingLease
    case SeenRunning => RunningLease
    case SeenWaiting => WaitingLease
    case SeenStopping => StoppingLease
    case SeenOrphaned => OrphanedLease
  }

  predicate ActiveLifecycle(lifecycle: Lifecycle) {
    lifecycle.Starting? || lifecycle.Working? || lifecycle.NeedsPermission? || lifecycle.WaitingForInput?
  }

  /** Statuses an active observation no longer moves. */
  predicate Settled(status: LeaseStatus) {
    status.StoppingLease? || status.OrphanedLease?
  }

  function AttentionFor(lifecycle: Lifecycle, attention: Option<Attention>): Option<Attention> {
    if lifecycle.NeedsPermission? || lifecycle.WaitingForInput? then Some(attention.GetOr(UnknownWait)) else None
  }

  function ObservedLease(a: Action, lease: Lease): Lease
    requires a.Observe?
  {
    var lifecycle := LifecycleFor(a.seen, a.attention);
    var sequence := a.sequence.GetOr(lease.sequence + 1);
    if lease.terminalId != Some(a.terminalId) then lease
    else if sequence < lease.sequence then lease
    else if Settled(lease.status) && ActiveLifecycle(lifecycle) then lease
    else
      var seen := lease.(
        status := LeaseStatusFor(a.seen),
        lifecycle := lifecycle,
        attention := AttentionFor(lifecycle, a.attention),
        seconds := Max(lease.seconds, a.seconds.GetOr(lease.seconds)),
        sequence := sequence,
        lastSeenAt := a.now);
      if a.daemon.Some? then seen.(controller := a.daemon.value, controllerId := ControllerIdFor(a.daemon.value))
      else seen
  }

  function ObservedRun(a: Action, run: Run): Run
    requires a.Observe?
  {
    var lifecycle := LifecycleFor(a.seen, a.attention);
    var sequence := a.sequence.GetOr(run.sequence.GetOr(0) + 1);
    if run.terminalId != Some(a.terminalId) then run
    else if sequence < run.sequence.GetOr(0) then run
    else if run.endedAt.Some? && ActiveLifecycle(lifecycle) then run
    else run.(
      lifecycle := Some(lifecycle),
      attention := AttentionFor(lifecycle, a.attention),
      seconds := Some(Max(run.seconds.GetOr(0), a.seconds.GetOr(run.seconds.GetOr(0)))),
      sequence := Some(sequence))
  }

  predicate KnowsTerminal(s: State, terminalId: string) {
    || (exists k | 0 <= k < |s.runs| :: s.runs[k].terminalId == Some(terminalId))
    || (exists k | 0 <= k < |s.history| :: s.history[k].terminalId == Some(terminalId))
  }

  function MutateObserve(a: Action, s: State): Mutated
    requires a.Observe?
  {
    if !KnowsTerminal(s, a.terminalId) then Store.Throws
    else Store.Changed(s.(
      runs := MapLeases(s.runs, (lease: Lease) => ObservedLease(a, lease)),
      history := MapRuns(s.history, (run: Run) => ObservedRun(a, run))))
  }

  function MutateRegister(terminalId: string, bridge: Bridge, s: State): Mutated {
    if FindLeaseByTerminal(s.runs, terminalId).None? then Store.Throws
    else Store.Changed(s.(runs := MapLeases(s.runs, (lease: Lease) =>
      if lease.terminalId == Some(terminalId) then lease.(bridge := Some(bridge)) else lease)))
  }

  // ---------------------------------------------------------------- heartbeats and orphaning

  predicate Touchable(lease: Lease, controllerId: ControllerId) {
    lease.controllerId == controllerId && !Settled(lease.status)
  }

  function MutateTouch(controllerId: ControllerId, now: nat, s: State): Mutated {
    if forall k | 0 <= k < |s.runs| :: !Touchable(s.runs[k], controllerId) then Store.Same
    else Store.Changed(s.(runs := MapLeases(s.runs, (lease: Lease) =>
      if Touchable(lease, controllerId) then lease.(lastSeenAt := now) else lease)))
  }

  predicate Orphanable(lease: Lease, controllerId: ControllerId) {
    lease.controllerId == controllerId && !lease.status.OrphanedLease?
  }

  /** The loop over the leases as they were, orphaning in `next` each one the controller owns. */
  function OrphanEach(leases: seq<Lease>, controllerId: ControllerId, now: nat, next: State): State {
    if leases == [] then next
    else
      var n := |leases| - 1;
      var before := OrphanEach(leases[..n], controllerId, now, next);
      if Orphanable(leases[n], controllerId) then MarkLeaseOrphaned(before, leases[n].runId, now) else before
  }

  function MutateOrphanOwned(controllerId: ControllerId, now: nat, s: State): Mutated {
    if forall k | 0 <= k < |s.runs| :: !Orphanable(s.runs[k], controllerId) then Store.Same
    else Store.Changed(OrphanEach(s.runs, controllerId, now, s))
  }

  // ---------------------------------------------------------------- reconciliation

  datatype Reason = DaemonInventory | TerminalMissing | ProcessAlive | ProcessGone | DifferentBoot | Unverifiable

  /** What reconciliation decides about one lease. */
  datatype Verdict =
    | Adopt
    | Live
    | Attend(reason: Reason)
    | OrphanIt(reason: Reason)
    | FinalizeIt(reason: Reason)

  function Judge(evidence: Evidence, lease: Lease): Verdict {
    var controller := lease.controller;
    if lease.terminalId.Some? && evidence.inventory.Some? then
      if lease.terminalId.value in evidence.inventory.value.terminals then Adopt
      else
        var sameHost := controller.boot.host == evidence.host;
        var previousBoot := sameHost && controller.boot != evidence.boot;
        var controllerGone := sameHost && controller.pid.Some? && controller.boot == evidence.boot
          && controller.pid.value !in evidence.alive;
        var bridgeGone := lease.bridge.Some? && lease.bridge.value.pid !in evidence.alive;
        if previousBoot then FinalizeIt(DifferentBoot)
        else if controllerGone && bridgeGone then FinalizeIt(ProcessGone)
        else OrphanIt(TerminalMissing)
    else if controller.boot.host != evidence.host || controller.boot != evidence.boot then Attend(DifferentBoot)
    else if controller.pid.None? then Attend(Unverifiable)
    else if controller.pid.value in evidence.alive then Live
    else OrphanIt(ProcessGone)
  }

  function Adopted(s: State, runId: string, inventory: Inventory, now: nat): State {
    var controller := Controller(Daemon, inventory.instanceId, Some(inventory.pid), inventory.boot);
    s.(runs := MapLeases(s.runs, (lease: Lease) =>
      if lease.runId == runId
      then lease.(controller := controller, controllerId := ControllerIdFor(controller), lastSeenAt := now)
      else lease))
  }

  function ReconcileOne(evidence: Evidence, lease: Lease, now: nat, next: State): State {
    match Judge(evidence, lease)
    case Adopt => Adopted(next, lease.runId, evidence.inventory.value, now)
    case OrphanIt(_) => MarkLeaseOrphaned(next, lease.runId, now)
    case _ => next
  }

  function ReconcileEach(evidence: Evidence, leases: seq<Lease>, now: nat, next: State): State {
    if leases == [] then next
    else
      var n := |leases| - 1;
      ReconcileOne(evidence, leases[n], now, ReconcileEach(evidence, leases[..n], now, next))
  }

  /** A lease reconciliation hands to the terminal finalizer, with the runtime it had then. */
  datatype Candidate = Candidate(terminalId: string, interrupted: bool, seconds: nat, sequence: nat)

  function CandidateFor(lease: Lease): Candidate
    requires lease.terminalId.Some?
  {
    Candidate(lease.terminalId.value, !lease.status.StoppingLease?, lease.seconds, lease.sequence)
  }

  /** Those leases, in the order of the leases. */
  function CandidatesOf(evidence: Evidence, leases: seq<Lease>): seq<Candidate> {
    if leases == [] then []
    else
      var n := |leases| - 1;
      CandidatesOf(evidence, leases[..n])
        + (if Judge(evidence, leases[n]).FinalizeIt? && leases[n].terminalId.Some? then [CandidateFor(leases[n])] else [])
  }

  /** The finalization a candidate leads to: cancelled, classified as interrupted unless the run
      was already stopping. */
  function CandidateAction(candidate: Candidate, endedAt: nat): Action {
    FinalizeTerminal(candidate.terminalId, endedAt, None,
                     if candidate.interrupted then Interrupted else UserCancelled,
                     Some(candidate.seconds), Some(candidate.sequence))
  }

  // ---------------------------------------------------------------- bids, finalizers, recovery

  function LastBids(bids: seq<Bid>): seq<Bid> {
    if |bids| <= ORPHAN_BID_LIMIT then bids else bids[|bids| - ORPHAN_BID_LIMIT..]
  }

  function MutateBid(runId: string, bid: Bid, s: State): Mutated {
    var lease := FindLease(s.runs, runId);
    if lease.None? || !lease.value.status.OrphanedLease? then Store.Throws
    else Store.Changed(s.(runs := MapLeases(s.runs, (item: Lease) =>
      if item.runId == runId then item.(bids := LastBids(lease.value.bids + [bid])) else item)))
  }

  function FinalLifecycle(reason: ExitReason): Lifecycle {
    if reason.CompletedExit? then Completed
    else if reason.UserCancelled? || reason.Interrupted? then Cancelled
    else Failed
  }

  /** The finished record of the session manager: the record it launched with, closed. It keeps
      the launch label, whatever the entry was renamed to since. */
  function FinishedRun(env: Env, a: Action): Run
    requires a.Finalize?
  {
    var runId := env.runIdFor(a.sessionId, a.operationId);
    LaunchedRun(env, runId, a.agent, a.displayLabel).(
      endedAt := Some(a.endedAt), exitCode := a.exitCode, exitReason := Some(a.reason),
      lifecycle := Some(FinalLifecycle(a.reason)), attention := None)
  }

  /** The run's entry gives way to the finished record, but keeps the larger runtime and sequence. */
  function ClosedEntry(env: Env, a: Action, item: Run): Run
    requires a.Finalize?
  {
    var finished := FinishedRun(env, a);
    if item.id != finished.id then item
    else finished.(seconds := Some(Max(item.seconds.GetOr(0), finished.seconds.GetOr(0))),
                   sequence := Some(Max(item.sequence.GetOr(0), finished.sequence.GetOr(0))))
  }

  function MutateFinalize(env: Env, a: Action, s: State): Mutated
    requires a.Finalize?
  {
    var runId := env.runIdFor(a.sessionId, a.operationId);
    var existing := FindRun(s.history, Some(runId));
    var finished := FinishedRun(env, a);
    if s.sessionId != a.sessionId then Store.Same
    else if existing.Some? && existing.value.endedAt.Some? then Store.Changed(ReleaseLease(s, runId))
    else
      var history :=
        if existing.Some? then MapRuns(s.history, (item: Run) => ClosedEntry(env, a, item))
        else s.history + [finished];
      Store.Changed(ReleaseLease(s.(history := history), runId))
  }

  function MutateFinalizeTerminal(a: Action, s: State): Mutated
    requires a.FinalizeTerminal?
  {
    var lease := FindLeaseByTerminal(s.runs, a.terminalId);
    var leaseRunId := if lease.Some? then Some(lease.value.runId) else None;
    var existing := FindTerminalRun(s.history, a.terminalId, leaseRunId);
    var runId := if lease.Some? then leaseRunId else if existing.Some? then existing.value.id else None;
    if runId.None? || existing.None? then Store.Throws
    else if existing.value.endedAt.Some? then Store.Changed(ReleaseLease(s, runId.value))
    else
      var history := MapRuns(s.history, (item: Run) =>
        if item.id == runId
        then item.(endedAt := Some(a.endedAt), exitCode := a.exitCode, exitReason := Some(a.reason),
                   lifecycle := Some(FinalLifecycle(a.reason)), attention := None,
                   seconds := Some(Max(item.seconds.GetOr(0), a.seconds.GetOr(0))),
                   sequence := Some(Max(item.sequence.GetOr(0), a.sequence.GetOr(0))))
        else item);
      Store.Changed(ReleaseLease(s.(history := history), runId.value))
  }

  function InterruptedRun(run: Run, now: nat): Run {
    run.(endedAt := Some(now), exitCode := None, exitReason := Some(Interrupted))
  }

  function MutateRecoverOrphaned(runId: string, now: nat, s: State): Mutated {
    var lease := FindLease(s.runs, runId);
    if lease.None? || !lease.value.status.OrphanedLease? then Store.Throws
    else Store.Changed(ReleaseLease(s.(
      history := MapRuns(s.history, (run: Run) =>
        if run.id == Some(runId) && run.endedAt.None? then InterruptedRun(run, now) else run),
      updatedAt := now), runId))
  }

  /** The index of the run that a forced recovery closes, or -1. */
  function StaleIndex(s: State): int
    ensures -1 <= StaleIndex(s) < |s.history|
    ensures StaleIndex(s) >= 0 ==> s.history[StaleIndex(s)].endedAt.None?
  {
    if s.currentRunId.Some? then FirstOpenWithId(s.history, s.currentRunId.value, 0)
    else LastOpen(s.history, s.currentAgent, |s.history|)
  }

  function MutateRecoverStale(now: nat, s: State): Mutated {
    if s.currentAgent.None? && s.currentRunId.None? && !AnyOpen(s.history) then Store.Same
    else
      var k := StaleIndex(s);
      if k < 0 then Store.Throws
      else
        var run := s.history[k];
        var runId := run.id.GetOr(s.currentRunId.GetOr(""));
        Store.Changed(ReleaseLease(s.(history := s.history[k := InterruptedRun(run, now)], updatedAt := now), runId))
  }

  function MutateRename(runId: string, displayLabel: string, s: State): Mutated {
    if !HasRun(s.history, runId) && !HasLease(s.runs, runId) then Store.Throws
    else Store.Changed(s.(
      history := MapRuns(s.history, (run: Run) => if run.id == Some(runId) then run.(displayLabel := displayLabel) else run),
      runs := MapLeases(s.runs, (lease: Lease) => if lease.runId == runId then lease.(displayLabel := displayLabel) else lease)))
  }

  // ---------------------------------------------------------------- the machine

  function Mutate(env: Env, a: Action, s: State): Mutated {
    match a
    case Launch(_, _, _, _, _, _, _, _) => MutateLaunch(env, a, s)
    case Observe(_, _, _, _, _, _, _) => MutateObserve(a, s)
    case RegisterBridge(terminalId, bridge) => MutateRegister(terminalId, bridge, s)
    case Touch(controllerId, now) => MutateTouch(controllerId, now, s)
    case OrphanOwned(controllerId, now) => MutateOrphanOwned(controllerId, now, s)
    case OrphanRun(runId, now) => Store.Changed(MarkLeaseOrphaned(s, runId, now))
    case Reconcile(evidence, now) => Store.Changed(ReconcileEach(evidence, s.runs, now, s))
    case SubmitBid(runId, bid) => MutateBid(runId, bid, s)
    case Finalize(_, _, _, _, _, _, _) => MutateFinalize(env, a, s)
    case FinalizeTerminal(_, _, _, _, _, _) => MutateFinalizeTerminal(a, s)
    case RecoverOrphaned(runId, now) => MutateRecoverOrphaned(runId, now, s)
    case RecoverStale(now) => MutateRecoverStale(now, s)
    case Rename(runId, displayLabel) => MutateRename(runId, displayLabel, s)
    case Finish(now) =>
      if s.runs != [] then Store.Throws else Store.Changed(s.(status := CompletedTask, updatedAt := now))
    case Edit(other, now) => Store.Changed(s.(other := other, updatedAt := now))
    case StartTask(_, _) => Store.Throws
  }

  /** A new task may replace only one that is closed and holds no working tree. */
  function ReplaceTask(a: Action, existing: Option<State>): Option<State> {
    if !a.StartTask? then None
    else if existing.Some? && (existing.value.status.ActiveTask? || existing.value.status.BlockedTask?) then None
    else if existing.Some? && existing.value.runs != [] then None
    else Some(State(a.sessionId, ActiveTask, a.now, [], None, None, [], ""))
  }

  predicate IsClosed(s: State) {
    s.status.CompletedTask? || s.status.CancelledTask?
  }

  /** What archiving writes: a closed task without leases has every run ended. */
  function NormalizeClosedTask(s: State): State {
    if !IsClosed(s) || s.runs != [] then s
    else s.(currentAgent := None, currentRunId := None,
            history := MapRuns(s.history, (run: Run) =>
              if run.endedAt.Some? then run else InterruptedRun(run, s.updatedAt)))
  }

  function Machine(env: Env): Store.Machine<Action, State> {
    Store.Machine((a: Action, s: State) => Mutate(env, a, s),
                  (a: Action, s: Option<State>) => ReplaceTask(a, s),
                  (s: State) => IsClosed(s),
                  (s: State) => NormalizeClosedTask(s))
  }

  // ---------------------------------------------------------------- what reconciliation does

  /** A complete inventory answers for the lease's terminal. */
  predicate Inventoried(evidence: Evidence, lease: Lease) {
    lease.terminalId.Some? && evidence.inventory.Some?
  }

  predicate FoundByDaemon(evidence: Evidence, lease: Lease) {
    Inventoried(evidence, lease) && lease.terminalId.value in evidence.inventory.value.terminals
  }

  predicate RunsHere(evidence: Evidence, controller: Controller) {
    controller.boot.host == evidence.host && controller.boot == evidence.boot
  }

  predicate KnownDead(evidence: Evidence, pid: Option<nat>) {
    pid.Some? && pid.value !in evidence.alive
  }

  /** Nothing that could still run the provider is left: this host has been started anew since, or
      both the controller, on this host and boot, and the bridge are dead. */
  predicate NothingLeft(evidence: Evidence, lease: Lease) {
    || (lease.controller.boot.host == evidence.host && lease.controller.boot != evidence.boot)
    || (RunsHere(evidence, lease.controller) && KnownDead(evidence, lease.controller.pid)
        && lease.bridge.Some? && KnownDead(evidence, Some(lease.bridge.value.pid)))
  }

  /** The inventory lacks the terminal, and nothing is left that could run it. */
  predicate GoneForGood(evidence: Evidence, lease: Lease) {
    Inventoried(evidence, lease) && !FoundByDaemon(evidence, lease) && NothingLeft(evidence, lease)
  }

  /** The inventory lacks the terminal although something may still run it, or, with no inventory
      for it, the controller was here and is dead. */
  predicate LosesOwner(evidence: Evidence, lease: Lease) {
    || (Inventoried(evidence, lease) && !FoundByDaemon(evidence, lease) && !NothingLeft(evidence, lease))
    || (!Inventoried(evidence, lease) && RunsHere(evidence, lease.controller) && KnownDead(evidence, lease.controller.pid))
  }

  ghost predicate VerdictIsRight(evidence: Evidence, lease: Lease, verdict: Verdict) {
    && (verdict.Adopt? <==> FoundByDaemon(evidence, lease))
    && (verdict.FinalizeIt? <==> GoneForGood(evidence, lease))
    && (verdict.OrphanIt? <==> LosesOwner(evidence, lease))
    && (verdict.Live? <==>
          !Inventoried(evidence, lease) && RunsHere(evidence, lease.controller)
          && lease.controller.pid.Some? && lease.controller.pid.value in evidence.alive)
    && (verdict == Attend(Unverifiable) <==>
          !Inventoried(evidence, lease) && RunsHere(evidence, lease.controller) && lease.controller.pid.None?)
    && (verdict == Attend(DifferentBoot) <==> !Inventoried(evidence, lease) && !RunsHere(evidence, lease.controller))
    && (verdict == FinalizeIt(DifferentBoot) <==> verdict.FinalizeIt? && lease.controller.boot != evidence.boot)
    && (verdict == FinalizeIt(ProcessGone) <==> verdict.FinalizeIt? && lease.controller.boot == evidence.boot)
    && (verdict == OrphanIt(TerminalMissing) <==> verdict.OrphanIt? && Inventoried(evidence, lease))
    && (verdict == OrphanIt(ProcessGone) <==> verdict.OrphanIt? && !Inventoried(evidence, lease))
  }

  lemma JudgementIsRight(evidence: Evidence, lease: Lease)
    ensures VerdictIsRight(evidence, lease, Judge(evidence, lease))
  {
  }

  /** A lease whose terminal the daemon has is the daemon's; one that loses its owner is orphaned; all
      others are as they were. */
  ghost predicate LeaseReconciled(evidence: Evidence, now: nat, before: Lease, after: Lease) {
    && (FoundByDaemon(evidence, before) ==>
          var inventory := evidence.inventory.value;
          after == before.(controller := Controller(Daemon, inventory.instanceId, Some(inventory.pid), inventory.boot),
                           controllerId := ControllerId(Daemon, inventory.boot, inventory.instanceId), lastSeenAt := now))
    && (LosesOwner(evidence, before) ==>
          after == before.(status := OrphanedLease, lifecycle := Orphaned, attention := Some(UnknownWait), lastSeenAt := now))
    && (!FoundByDaemon(evidence, before) && !LosesOwner(evidence, before) ==> after == before)
    && (!before.status.OrphanedLease? ==> (after.status.OrphanedLease? <==> LosesOwner(evidence, before)))
  }

  /** The open entry of a run whose lease is lost catches up with the lease; no other entry changes. */
  ghost predicate CatchesUp(lost: Lease -> bool, leases: seq<Lease>, before: Run, after: Run) {
    && (forall k | 0 <= k < |leases| && lost(leases[k]) && before.id == Some(leases[k].runId) && before.endedAt.None? ::
          after == before.(lifecycle := Some(Orphaned), attention := Some(UnknownWait),
                           seconds := Some(Max(before.seconds.GetOr(0), leases[k].seconds)),
                           sequence := Some(Max(before.sequence.GetOr(0), leases[k].sequence))))
    && ((forall k | 0 <= k < |leases| && lost(leases[k]) :: before.id != Some(leases[k].runId) || before.endedAt.Some?)
          ==> after == before)
  }

  ghost predicate RunReconciled(evidence: Evidence, leases: seq<Lease>, before: Run, after: Run) {
    CatchesUp((lease: Lease) => LosesOwner(evidence, lease), leases, before, after)
  }

  ghost predicate DistinctRunIds(leases: seq<Lease>) {
    forall j, k | 0 <= j < k < |leases| :: leases[j].runId != leases[k].runId
  }

  ghost predicate Reconciled(evidence: Evidence, leases: seq<Lease>, now: nat, before: State, after: State) {
    && |after.runs| == |before.runs| && |after.history| == |before.history| && |leases| <= |before.runs|
    && (forall k | 0 <= k < |leases| :: LeaseReconciled(evidence, now, before.runs[k], after.runs[k]))
    && (forall k | |leases| <= k < |before.runs| :: after.runs[k] == before.runs[k])
    && (forall k | 0 <= k < |before.runs| :: after.runs[k].runId == before.runs[k].runId)
    && (forall q | 0 <= q < |before.history| :: RunReconciled(evidence, leases, before.history[q], after.history[q]))
    && after.sessionId == before.sessionId && after.status == before.status && after.other == before.other
    && after.updatedAt == before.updatedAt
  }

  lemma {:induction false} FindsOwnLease(runs: seq<Lease>, k: nat)
    requires DistinctRunIds(runs) && k < |runs|
    ensures FindLease(runs, runs[k].runId) == Some(runs[k])
  {
    if k > 0 {
      assert DistinctRunIds(runs[1..]) by {
        assert forall j | 0 <= j < |runs| - 1 :: runs[1..][j] == runs[j + 1];
      }
      FindsOwnLease(runs[1..], k - 1);
    }
  }

  lemma RunGoesOn(lost: Lease -> bool, leases: seq<Lease>, lease: Lease, before: Run, middle: Run, after: Run)
    requires CatchesUp(lost, leases, before, middle)
    requires forall k | 0 <= k < |leases| :: leases[k].runId != lease.runId
    requires if lost(lease) && middle.id == Some(lease.runId) && middle.endedAt.None?
      then after == OrphanedRunOf(middle, Some(lease)) else after == middle
    ensures CatchesUp(lost, leases + [lease], before, after)
  {
    var longer := leases + [lease];
    assert forall k | 0 <= k < |leases| :: longer[k] == leases[k];
    assert longer[|leases|] == lease;
    if exists k | 0 <= k < |leases| :: lost(leases[k]) && before.id == Some(leases[k].runId) && before.endedAt.None? {
      assert after == middle;
    } else {
      assert middle == before;
    }
  }

  /** One verdict is carried out on its lease alone. */
  lemma OneLeaseReconciled(evidence: Evidence, t: State, n: nat, now: nat)
    requires DistinctRunIds(t.runs) && n < |t.runs|
    ensures var u := ReconcileOne(evidence, t.runs[n], now, t);
      && |u.runs| == |t.runs|
      && LeaseReconciled(evidence, now, t.runs[n], u.runs[n]) && u.runs[n].runId == t.runs[n].runId
      && (forall k | 0 <= k < |t.runs| && k != n :: u.runs[k] == t.runs[k])
  {
    JudgementIsRight(evidence, t.runs[n]);
    hide Judge, FindLease, FoundByDaemon, LosesOwner;
  }

  lemma OneHistoryReconciled(evidence: Evidence, t: State, n: nat, now: nat)
    requires DistinctRunIds(t.runs) && n < |t.runs|
    ensures var lease := t.runs[n]; var u := ReconcileOne(evidence, lease, now, t);
      && |u.history| == |t.history|
      && (forall q | 0 <= q < |t.history| ::
            u.history[q] == (if LosesOwner(evidence, lease) && t.history[q].id == Some(lease.runId) && t.history[q].endedAt.None?
                             then OrphanedRunOf(t.history[q], Some(lease)) else t.history[q]))
      && u.sessionId == t.sessionId && u.status == t.status && u.other == t.other && u.updatedAt == t.updatedAt
  {
    JudgementIsRight(evidence, t.runs[n]);
    FindsOwnLease(t.runs, n);
    hide Judge, FindLease, FoundByDaemon, LosesOwner, OrphanedRunOf;
  }

  lemma OneStepReconciles(evidence: Evidence, s: State, n: nat, now: nat, t: State)
    requires DistinctRunIds(s.runs) && n < |s.runs| && Reconciled(evidence, s.runs[..n], now, s, t)
    ensures Reconciled(evidence, s.runs[..n + 1], now, s, ReconcileOne(evidence, s.runs[n], now, t))
  {
    var lease := s.runs[n];
    var u := ReconcileOne(evidence, lease, now, t);
    assert DistinctRunIds(t.runs);
    OneLeaseReconciled(evidence, t, n, now);
    OneHistoryReconciled(evidence, t, n, now);
    assert s.runs[..n + 1] == s.runs[..n] + [lease];
    assert forall k | 0 <= k < n :: s.runs[..n][k] == s.runs[k];
    hide ReconcileOne, LeaseReconciled, LosesOwner, CatchesUp, OrphanedRunOf;
    forall q | 0 <= q < |s.history| ensures RunReconciled(evidence, s.runs[..n + 1], s.history[q], u.history[q]) {
      RunGoesOn((lease: Lease) => LosesOwner(evidence, lease), s.runs[..n], lease, s.history[q], t.history[q], u.history[q]);
    }
  }

  lemma {:induction false} LoopReconciles(evidence: Evidence, s: State, n: nat, now: nat)
    requires DistinctRunIds(s.runs) && n <= |s.runs|
    ensures Reconciled(evidence, s.runs[..n], now, s, ReconcileEach(evidence, s.runs[..n], now, s))
  {
    hide Reconciled, ReconcileOne, DistinctRunIds;
    if n > 0 {
      assert s.runs[..n][..n - 1] == s.runs[..n - 1];
      LoopReconciles(evidence, s, n - 1, now);
      OneStepReconciles(evidence, s, n - 1, now, ReconcileEach(evidence, s.runs[..n - 1], now, s));
    } else {
      NothingReconciled(evidence, s, s.runs[..0], now);
    }
  }

  lemma NothingReconciled(evidence: Evidence, s: State, leases: seq<Lease>, now: nat)
    requires leases == []
    ensures ReconcileEach(evidence, leases, now, s) == s && Reconciled(evidence, leases, now, s, s)
  {
    hide LosesOwner, FoundByDaemon;
  }

  /** `candidates` is, in the order of the leases, one candidate for each lease that is gone for good,
      cancelled as interrupted unless it was stopping, with the runtime the lease had. */
  ghost predicate CandidatesAreRight(evidence: Evidence, leases: seq<Lease>, candidates: seq<Candidate>) {
    if leases == [] then candidates == []
    else
      var n := |leases| - 1;
      var lease := leases[n];
      if GoneForGood(evidence, lease) then
        && candidates != [] && lease.terminalId.Some?
        && candidates[|candidates| - 1] ==
           Candidate(lease.terminalId.value, !lease.status.StoppingLease?, lease.seconds, lease.sequence)
        && CandidatesAreRight(evidence, leases[..n], candidates[..|candidates| - 1])
      else CandidatesAreRight(evidence, leases[..n], candidates)
  }

  lemma {:induction false} CollectedCandidatesAreRight(evidence: Evidence, leases: seq<Lease>)
    ensures CandidatesAreRight(evidence, leases, CandidatesOf(evidence, leases))
  {
    hide Judge, FoundByDaemon, NothingLeft;
    if leases != [] {
      var n := |leases| - 1;
      var before := CandidatesOf(evidence, leases[..n]);
      CollectedCandidatesAreRight(evidence, leases[..n]);
      JudgementIsRight(evidence, leases[n]);
      if GoneForGood(evidence, leases[n]) {
        assert CandidatesOf(evidence, leases)[..|before|] == before;
      } else {
        assert before + [] == before;
      }
    }
  }

  lemma OnlyTerminalsAreFinalized(evidence: Evidence, lease: Lease)
    ensures Judge(evidence, lease).FinalizeIt? ==> lease.terminalId.Some?
    ensures Judge(evidence, lease).Adopt? ==> evidence.inventory.Some?
  {
  }

  /** The reconciliation loop: it walks the leases as they were, rewrites the state, reports a
      verdict for each and collects the leases whose provider is known to be gone. */
  method ReconcileRuns(evidence: Evidence, current: State, now: nat)
    returns (next: State, verdicts: seq<Verdict>, candidates: seq<Candidate>)
    ensures next == ReconcileEach(evidence, current.runs, now, current)
    ensures |verdicts| == |current.runs|
    ensures forall k | 0 <= k < |verdicts| :: verdicts[k] == Judge(evidence, current.runs[k])
    ensures candidates == CandidatesOf(evidence, current.runs)
    ensures forall k | 0 <= k < |verdicts| :: VerdictIsRight(evidence, current.runs[k], verdicts[k])
    ensures CandidatesAreRight(evidence, current.runs, candidates)
    ensures DistinctRunIds(current.runs) ==> Reconciled(evidence, current.runs, now, current, next)
  {
    hide Judge, Adopted, MarkLeaseOrphaned, VerdictIsRight, CandidatesAreRight, Reconciled;
    next, verdicts, candidates := current, [], [];
    for n := 0 to |current.runs|
      invariant |verdicts| == n
      invariant next == ReconcileEach(evidence, current.runs[..n], now, current)
      invariant forall k | 0 <= k < n :: verdicts[k] == Judge(evidence, current.runs[k])
      invariant forall k | 0 <= k < n :: VerdictIsRight(evidence, current.runs[k], verdicts[k])
      invariant candidates == CandidatesOf(evidence, current.runs[..n])
    {
      var lease := current.runs[n];
      var verdict := Judge(evidence, lease);
      OnlyTerminalsAreFinalized(evidence, lease);
      JudgementIsRight(evidence, lease);
      assert current.runs[..n + 1][..n] == current.runs[..n];
      match verdict {
        case Adopt => next := Adopted(next, lease.runId, evidence.inventory.value, now);
        case OrphanIt(_) => next := MarkLeaseOrphaned(next, lease.runId, now);
        case FinalizeIt(_) => candidates := candidates + [CandidateFor(lease)];
        case _ =>
      }
      verdicts := verdicts + [verdict];
      assert verdicts[n] == verdict;
    }
    assert current.runs[..|current.runs|] == current.runs;
    CollectedCandidatesAreRight(evidence, current.runs);
    if DistinctRunIds(current.runs) {
      LoopReconciles(evidence, current, |current.runs|, now);
    }
  }
}
