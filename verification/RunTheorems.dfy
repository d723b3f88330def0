/** The run machine under the serialised store: what holds in every state that any number of
    processes, interleaved in any way and crashing anywhere, can leave on disk. */
module RunTheorems {
  import opened Wrappers
  import opened TaskState
  import opened Leases
  import opened RunMachine
  import opened RunSafety
  import Store = SerialStore

  type Requests = seq<Store.Request<Action>>
  type Disk = Option<Store.Stored<State>>

  lemma MachinePreservesInv(env: Env)
    ensures Store.Preserved(Machine(env), (s: State) => Inv(env, s))
  {
    var m := Machine(env);
    var p := (s: State) => Inv(env, s);
    forall op: Action, content: State | p(content)
      ensures m.mutate(op, content).Changed? ==> p(m.mutate(op, content).content)
    {
      MutateKeeps(env, op, content);
    }
    forall op: Action, s: Option<State> | m.replace(op, s).Some?
      ensures p(m.replace(op, s).value)
    {
      assert LeaseIds([]) == {};
    }
  }

  /** The run has an unfinished history entry. */
  ghost predicate Unfinished(s: State, runId: string) {
    exists k | 0 <= k < |s.history| :: s.history[k].id == Some(runId) && s.history[k].endedAt.None?
  }

  lemma LeaseIdsMean(s: State, runId: string)
    ensures Some(runId) in LeaseIds(s.runs) <==> HasLease(s.runs, runId)
    ensures Some(runId) in OpenIds(s.history) <==> Unfinished(s, runId)
  {
  }

  /** In every reachable state, in every environment: leases have distinct runs and distinct
      canonical worktrees; the mirrors name the first lease; a leased run is unfinished; status and
      lifecycle of each lease agree; the history is never behind a lease. */
  lemma ReachableStatesAreSafe(env: Env, es: seq<Store.WorldEvent<Action>>)
    ensures var w := Store.RunWorld(Machine(env), Store.InitialWorld(None), es);
      w.disk.Some? ==>
        var s := w.disk.value.content;
        && Inv(env, s)
        && (forall r :: HasLease(s.runs, r) ==> Unfinished(s, r))
        && (forall j, k | 0 <= j < k < |s.runs| ::
              s.runs[j].runId != s.runs[k].runId && env.resolve(s.runs[j].worktree) != env.resolve(s.runs[k].worktree))
        && (s.currentRunId == if s.runs == [] then None else Some(s.runs[0].runId))
        && (s.currentAgent == if s.runs == [] then None else Some(s.runs[0].agent))
  {
    var w := Store.RunWorld(Machine(env), Store.InitialWorld(None), es);
    MachinePreservesInv(env);
    Store.ConcurrentRunsKeep(Machine(env), (s: State) => Inv(env, s), None, es);
    if w.disk.Some? {
      var s := w.disk.value.content;
      forall r ensures HasLease(s.runs, r) ==> Unfinished(s, r) {
        LeaseIdsMean(s, r);
      }
    }
  }

  /** Within one task, over any list of updates, in every environment: history is append-only, an end
      once set is never changed, sequences and runtimes of a lease never fall, a lease that was
      stopping or orphaned is not active again, and a run without a lease never gets one back. */
  lemma {:induction false} TasksMoveForward(env: Env, start: Store.Stored<State>, rs: Requests)
    requires Inv(env, start.content)
    requires forall k | 0 <= k < |rs| :: rs[k].Update?
    ensures var last := Store.Replay(Machine(env), Some(start), rs);
      last.Some? && Inv(env, last.value.content) && Forward(start.content, last.value.content)
  {
    hide Inv, Forward, ReleasesUnfinished;
    if rs == [] {
      ForwardReflexive(env, start.content);
    } else {
      var n := |rs| - 1;
      TasksMoveForward(env, start, rs[..n]);
      var before := Store.Replay(Machine(env), Some(start), rs[..n]).value.content;
      MutateKeeps(env, rs[n].op, before);
      var after := Store.Replay(Machine(env), Some(start), rs).value.content;
      if Mutate(env, rs[n].op, before).Changed? && after != before {
        ForwardTransitive(env, start.content, before, after);
      }
    }
  }

  // ---------------------------------------------------------------- leases and unfinished runs

  /** No daemon finalization among the requests meets a run that has ended under a lease. */
  ghost predicate NeverReleasesUnfinished(env: Env, rs: Requests) {
    forall n | 0 <= n < |rs| && rs[n].Update? ::
      var before := Store.Replay(Machine(env), None, rs[..n]);
      before.Some? ==> !ReleasesUnfinished(rs[n].op, before.value.content)
  }

  lemma OneRequestKeepsStep(env: Env, disk: Disk, request: Store.Request<Action>)
    requires disk.Some? ==> Inv(env, disk.value.content) && InStep(disk.value.content)
    requires request.Update? && disk.Some? ==> !ReleasesUnfinished(request.op, disk.value.content)
    ensures var after := Store.After(disk, Store.Apply(Machine(env), disk, request));
      after.Some? ==> InStep(after.value.content)
  {
    hide Inv, Forward, ReleasesUnfinished, Mutate;
    if request.Update? && disk.Some? {
      MutateKeeps(env, request.op, disk.value.content);
    }
  }

  /** Without such a finalization, an unfinished run always has its lease. */
  lemma {:induction false} StepIsKept(env: Env, rs: Requests)
    requires NeverReleasesUnfinished(env, rs)
    ensures var last := Store.Replay(Machine(env), None, rs); last.Some? ==> InStep(last.value.content)
  {
    hide InStep, ReleasesUnfinished, Inv;
    if rs != [] {
      var n := |rs| - 1;
      assert NeverReleasesUnfinished(env, rs[..n]) by {
        forall k | 0 <= k < n && rs[..n][k].Update?
          ensures var before := Store.Replay(Machine(env), None, rs[..n][..k]);
            before.Some? ==> !ReleasesUnfinished(rs[..n][k].op, before.value.content)
        {
          assert rs[..n][..k] == rs[..k] && rs[..n][k] == rs[k];
        }
      }
      StepIsKept(env, rs[..n]);
      ReplayedStatesAreSafe(env, rs[..n]);
      OneRequestKeepsStep(env, Store.Replay(Machine(env), None, rs[..n]), rs[n]);
    }
  }

  lemma UnsharedTerminalsNeverRelease(env: Env, rs: Requests)
    requires UnsharedTerminals(env)
    ensures NeverReleasesUnfinished(env, rs)
  {
    forall n | 0 <= n < |rs| && rs[n].Update?
      ensures var before := Store.Replay(Machine(env), None, rs[..n]);
        before.Some? ==> !ReleasesUnfinished(rs[n].op, before.value.content)
    {
      ReplayedStatesAreSafe(env, rs[..n]);
      var before := Store.Replay(Machine(env), None, rs[..n]);
      if before.Some? {
        UnsharedTerminalsKeepStep(env, rs[n].op, before.value.content);
      }
    }
  }

  /** With unshared terminals, in every reachable state a run has a lease exactly when its history
      entry is unfinished. */
  lemma LeasesAreUnfinishedRuns(env: Env, es: seq<Store.WorldEvent<Action>>)
    requires UnsharedTerminals(env)
    ensures var w := Store.RunWorld(Machine(env), Store.InitialWorld(None), es);
      w.disk.Some? ==>
        && InStep(w.disk.value.content)
        && forall r :: HasLease(w.disk.value.content.runs, r) <==> Unfinished(w.disk.value.content, r)
  {
    Store.ConcurrentRunsAreSerial(Machine(env), None, es);
    ReachableStatesAreSafe(env, es);
    var w := Store.RunWorld(Machine(env), Store.InitialWorld(None), es);
    UnsharedTerminalsNeverRelease(env, Store.Requests(w.log));
    StepIsKept(env, Store.Requests(w.log));
    if w.disk.Some? {
      forall r ensures HasLease(w.disk.value.content.runs, r) <==> Unfinished(w.disk.value.content, r) {
        LeaseIdsMean(w.disk.value.content, r);
      }
    }
  }

  // ---------------------------------------------------------------- closing a task

  lemma UnfinishedRunsAreListed(history: seq<Run>)
    ensures forall k | 0 <= k < |history| && history[k].endedAt.None? :: history[k].id in OpenIds(history)
  {
  }

  lemma OutOfStepIsUnfinished(s: State)
    requires s.runs == [] && !InStep(s)
    ensures exists k :: 0 <= k < |s.history| && s.history[k].endedAt.None?
  {
    var id :| id in OpenIds(s.history);
  }

  /** Normalising a task for its archive changes nothing in any safe state, unless the task is closed
      and an unfinished run has lost its lease. */
  lemma NormalizingIsIdentityIff(env: Env, s: State)
    requires Inv(env, s)
    ensures NormalizeClosedTask(s) == s <==> !IsClosed(s) || s.runs != [] || InStep(s)
  {
    if IsClosed(s) && s.runs == [] {
      UnfinishedRunsAreListed(s.history);
      if InStep(s) {
        assert NormalizeClosedTask(s).history == s.history;
      } else {
        OutOfStepIsUnfinished(s);
        var k :| 0 <= k < |s.history| && s.history[k].endedAt.None?;
        assert NormalizeClosedTask(s).history[k].endedAt.Some?;
      }
    }
  }

  /** What a replacement archives is the very state the task ended in exactly when leases and
      unfinished runs were in step, as they always are with unshared terminals. */
  lemma ArchiveIsTheFinalStateIff(env: Env, es: seq<Store.WorldEvent<Action>>, request: Store.Request<Action>)
    ensures var w := Store.RunWorld(Machine(env), Store.InitialWorld(None), es);
      var outcome := Store.Apply(Machine(env), w.disk, request);
      outcome.Committed? && outcome.archived.Some? ==>
        && w.disk.Some? && IsClosed(w.disk.value.content)
        && (outcome.archived.value == w.disk.value.content <==> InStep(w.disk.value.content))
        && (UnsharedTerminals(env) ==> InStep(w.disk.value.content))
  {
    ReachableStatesAreSafe(env, es);
    if UnsharedTerminals(env) {
      LeasesAreUnfinishedRuns(env, es);
    }
    var w := Store.RunWorld(Machine(env), Store.InitialWorld(None), es);
    hide Inv, InStep;
    if w.disk.Some? {
      NormalizingIsIdentityIff(env, w.disk.value.content);
    }
  }

  // ---------------------------------------------------------------- shared terminals

  lemma {:induction false} FirstOnTerminal(history: seq<Run>, terminalId: string, leaseRunId: Option<string>, k: nat)
    requires k < |history| && history[k].id == leaseRunId
    ensures FindTerminalRun(history, terminalId, leaseRunId).Some?
  {
    if !(history[0].terminalId == Some(terminalId) || history[0].id == leaseRunId) {
      FirstOnTerminal(history[1..], terminalId, leaseRunId, k - 1);
    }
  }

  /** The daemon's finalizer keeps leases and unfinished runs in step exactly when no lease is on the
      terminal or the first history entry found for it is unfinished. */
  lemma TerminalFinalizationKeepsStepIff(env: Env, a: Action, s: State)
    requires a.FinalizeTerminal? && Inv(env, s) && InStep(s) && MutateFinalizeTerminal(a, s).Changed?
    ensures var lease := FindLeaseByTerminal(s.runs, a.terminalId);
      var existing := FindTerminalRun(s.history, a.terminalId, if lease.Some? then Some(lease.value.runId) else None);
      && existing.Some?
      && (LeaseIds(MutateFinalizeTerminal(a, s).content.runs) == OpenIds(MutateFinalizeTerminal(a, s).content.history)
          <==> lease.None? || existing.value.endedAt.None?)
  {
    FinalizeTerminalKeeps(env, a, s);
    TerminalFinalizationIsRelease(s, a);
    hide MutateFinalizeTerminal, FindLeaseByTerminal, FindTerminalRun;
  }

  /** Every run is started on the terminal "T", and named after its operation. */
  function OneTerminal(): Env {
    Env((path: string) => path, (sessionId: string, operationId: string) => operationId,
        (runId: string) => Some("T"))
  }

  function LaunchOn(operationId: string, now: nat): Action {
    Launch("s", operationId, "a", operationId, "w", Controller(Cli, "i", None, Boot("h", 0)), now, None)
  }

  /** A task, a run that the session manager finalizes, a second run, and the daemon's finalizer. */
  function SharedTerminalRequests(): Requests {
    [Store.Replace(StartTask("s", 0)),
     Store.Update(LaunchOn("1", 1), Some("launch:1"), None, false),
     Store.Update(Finalize("s", "1", "a", "1", 2, Some(0), CompletedExit), Some("finalize:1"), None, false),
     Store.Update(LaunchOn("2", 3), Some("launch:2"), None, false),
     Store.Update(FinalizeTerminal("T", 4, Some(0), CompletedExit, None, None), Some("daemon-finalize:T"), None, false)]
  }

  /** The disk one request later. */
  lemma NextRequest(env: Env, rs: Requests, n: nat, disk: Disk) returns (after: Disk)
    requires n < |rs| && disk == Store.Replay(Machine(env), None, rs[..n])
    ensures after == Store.Replay(Machine(env), None, rs[..n + 1])
    ensures after == Store.After(disk, Store.Apply(Machine(env), disk, rs[n]))
  {
    after := Store.After(disk, Store.Apply(Machine(env), disk, rs[n]));
    assert rs[..n + 1][..n] == rs[..n];
  }

  lemma AfterLaunch(env: Env, s: State, operationId: string, now: nat)
    requires env == OneTerminal() && s.sessionId == "s" && s.status.ActiveTask? && s.runs == []
    requires !HasRun(s.history, operationId)
    ensures var m := Mutate(env, LaunchOn(operationId, now), s);
      && m.Changed? && m.content.sessionId == "s" && m.content.status.ActiveTask?
      && m.content.runs == [LaunchedLease(env, LaunchOn(operationId, now))]
      && m.content.history == s.history + [LaunchedRun(env, operationId, "a", operationId)]
  {
  }

  /** A first run on the terminal has ended, a second one is running there. */
  ghost predicate SecondRunOnTerminal(s: State) {
    && |s.runs| == 1 && s.runs[0].runId == "2" && s.runs[0].terminalId == Some("T")
    && |s.history| == 2
    && s.history[0].id == Some("1") && s.history[0].terminalId == Some("T") && s.history[0].endedAt.Some?
    && s.history[1].id == Some("2") && s.history[1].endedAt.None?
  }

  lemma SecondRunIsReleased(a: Action, s: State)
    requires SecondRunOnTerminal(s) && a.FinalizeTerminal? && a.terminalId == "T"
    ensures var m := MutateFinalizeTerminal(a, s);
      m.Changed? && m.content.runs == [] && m.content.history == s.history
  {
    assert FindLeaseByTerminal(s.runs, "T") == Some(s.runs[0]);
    assert FindTerminalRun(s.history, "T", Some("2")) == Some(s.history[0]);
    assert Without(s.runs, "2") == [] by {
      assert s.runs[1..] == [];
    }
  }

  lemma FirstRunIsFinalized(env: Env, s: State, a: Action)
    requires env == OneTerminal() && s.sessionId == "s" && a.Finalize? && a.sessionId == "s" && a.operationId == "1"
    requires |s.runs| == 1 && s.runs[0].runId == "1"
    requires s.history == [LaunchedRun(env, "1", "a", "1")]
    ensures var m := MutateFinalize(env, a, s);
      && m.Changed? && m.content.sessionId == "s" && m.content.status == s.status
      && m.content.runs == [] && |m.content.history| == 1
      && m.content.history[0].id == Some("1") && m.content.history[0].terminalId == Some("T")
      && m.content.history[0].endedAt.Some?
  {
    assert FindRun(s.history, Some("1")) == Some(s.history[0]);
    assert Without(s.runs, "1") == [] by {
      assert s.runs[1..] == [];
    }
  }

  lemma FreshUpdateApplies<O, S>(m: Store.Machine<O, S>, current: Store.Stored<S>, request: Store.Request<O>)
    requires request.Update? && Store.HasOpId(request.opId) && request.expectedRevision.None?
    requires forall k | 0 <= k < |current.ledger| :: current.ledger[k].opId != request.opId.value
    requires |current.ledger| < Store.OPERATION_LEDGER_LIMIT
    requires m.mutate(request.op, current.content).Changed?
    ensures Store.Apply(m, Some(current), request) == Store.Committed(
      Store.Stored(m.mutate(request.op, current.content).content, current.revision + 1,
                   current.ledger + [Store.OpRecord(request.opId.value, current.revision + 1)]), None)
  {
  }

  /** An update whose operation id the ledger does not have commits what its mutator makes. */
  lemma FreshUpdateCommits(env: Env, rs: Requests, n: nat, disk: Disk) returns (after: Disk)
    requires n < |rs| && disk == Store.Replay(Machine(env), None, rs[..n]) && disk.Some?
    requires rs[n].Update? && Store.HasOpId(rs[n].opId) && rs[n].expectedRevision.None?
    requires forall k | 0 <= k < |disk.value.ledger| :: disk.value.ledger[k].opId != rs[n].opId.value
    requires |disk.value.ledger| < Store.OPERATION_LEDGER_LIMIT
    requires Mutate(env, rs[n].op, disk.value.content).Changed?
    ensures after == Store.Replay(Machine(env), None, rs[..n + 1]) && after.Some?
    ensures after.value.content == Mutate(env, rs[n].op, disk.value.content).content
    ensures after.value.ledger == disk.value.ledger + [Store.OpRecord(rs[n].opId.value, disk.value.revision + 1)]
  {
    hide Mutate, Store.Replay, Store.Apply, Store.HasOpId;
    after := NextRequest(env, rs, n, disk);
    FreshUpdateApplies(Machine(env), disk.value, rs[n]);
  }

  lemma TaskIsStarted(env: Env, rs: Requests) returns (after: Disk)
    requires rs == SharedTerminalRequests()
    ensures after == Store.Replay(Machine(env), None, rs[..1]) && after.Some? && after.value.ledger == []
    ensures after.value.content == State("s", ActiveTask, 0, [], None, None, [], "")
  {
    after := NextRequest(env, rs, 0, None);
  }

  /** The first run of the terminal is launched and ends. */
  lemma FirstRunEnds(env: Env, rs: Requests) returns (ended: Disk)
    requires env == OneTerminal() && rs == SharedTerminalRequests()
    ensures ended == Store.Replay(Machine(env), None, rs[..3]) && ended.Some? && |ended.value.ledger| == 2
    ensures ended.value.ledger[0].opId == rs[1].opId.value && ended.value.ledger[1].opId == rs[2].opId.value
    ensures var s := ended.value.content;
      && s.sessionId == "s" && s.status.ActiveTask? && s.runs == [] && |s.history| == 1
      && s.history[0].id == Some("1") && s.history[0].terminalId == Some("T") && s.history[0].endedAt.Some?
  {
    hide Store.Replay, Store.Apply, Mutate, Machine;
    var started := TaskIsStarted(env, rs);
    AfterLaunch(env, started.value.content, "1", 1);
    var launched := FreshUpdateCommits(env, rs, 1, started);
    FirstRunIsFinalized(env, launched.value.content, rs[2].op);
    MutateOfFinalizers(env, rs[2].op, launched.value.content);
    hide MutateFinalize;
    ended := FreshUpdateCommits(env, rs, 2, launched);
  }

  lemma SharedTerminalRun(env: Env, rs: Requests) returns (last: Disk)
    requires env == OneTerminal() && rs == SharedTerminalRequests()
    ensures last == Store.Replay(Machine(env), None, rs) && last.Some?
    ensures last.value.content.runs == []
    ensures |last.value.content.history| == 2
    ensures last.value.content.history[1].id == Some("2") && last.value.content.history[1].endedAt.None?
  {
    hide Store.Replay, Store.Apply, Mutate, Machine;
    var ended := FirstRunEnds(env, rs);
    AfterLaunch(env, ended.value.content, "2", 3);
    var again := FreshUpdateCommits(env, rs, 3, ended);
    hide MutateFinalize, MutateFinalizeTerminal;
    SecondRunIsReleased(rs[4].op, again.value.content);
    MutateOfFinalizers(env, rs[4].op, again.value.content);
    last := FreshUpdateCommits(env, rs, 4, again);
    assert rs[..5] == rs;
  }

  lemma MutateOfFinalizers(env: Env, a: Action, s: State)
    ensures a.Finalize? ==> Mutate(env, a, s) == MutateFinalize(env, a, s)
    ensures a.FinalizeTerminal? ==> Mutate(env, a, s) == MutateFinalizeTerminal(a, s)
  {
  }

  /** Two runs may be given the same terminal. Then some run of the program, with its real operation
      ids, leaves an unfinished run without a lease: the finalizer's test for an ended run has looked
      at the wrong entry. */
  lemma SharedTerminalLosesLease() returns (env: Env, es: seq<Store.WorldEvent<Action>>)
    ensures var w := Store.RunWorld(Machine(env), Store.InitialWorld(None), es);
      w.disk.Some? && Unfinished(w.disk.value.content, "2") && !HasLease(w.disk.value.content.runs, "2")
        && !InStep(w.disk.value.content)
  {
    env := OneTerminal();
    var rs := SharedTerminalRequests();
    var last := SharedTerminalRun(env, rs);
    hide *;
    es := Store.SerialRunsHappen(Machine(env), None, Store.L.Place(0, 1), rs);
    LeaselessRunIsOutOfStep(last.value.content, "2", 1);
  }

  lemma LeaselessRunIsOutOfStep(s: State, runId: string, k: nat)
    requires s.runs == [] && k < |s.history| && s.history[k].id == Some(runId) && s.history[k].endedAt.None?
    ensures Unfinished(s, runId) && !HasLease(s.runs, runId) && !InStep(s)
  {
    LeaseIdsMean(s, runId);
  }

  // ---------------------------------------------------------------- reconciling

  lemma SafeStateHas(env: Env, s: State)
    requires Inv(env, s)
    ensures Mirrors(s) && DistinctRunIds(s.runs)
  {
  }

  lemma ReconcilingSafeState(env: Env, s: State, evidence: Evidence, now: nat)
    requires Inv(env, s)
    ensures var t := ReconcileEach(evidence, s.runs, now, s);
      && Reconciled(evidence, s.runs, now, s, t)
      && t.currentRunId == s.currentRunId && t.currentAgent == s.currentAgent
  {
    hide Inv, Mirrors, Reconciled, ReconcileEach, DistinctRunIds, Forward;
    var t := ReconcileEach(evidence, s.runs, now, s);
    ReconcileKeeps(env, s, evidence, s.runs, now);
    SafeStateHas(env, s);
    SafeStateHas(env, t);
    LoopReconciles(evidence, s, |s.runs|, now);
    assert s.runs[..|s.runs|] == s.runs;
    MirrorsStay(evidence, s, t, now);
  }

  lemma ReconcileIs(env: Env, s: State, evidence: Evidence, now: nat)
    ensures Mutate(env, Reconcile(evidence, now), s) == Store.Changed(ReconcileEach(evidence, s.runs, now, s))
  {
    hide ReconcileEach;
  }

  /** In every reachable state reconciliation adopts, orphans or keeps each lease as the evidence
      demands, and keeps the mirrors. */
  lemma ReconciliationIsRight(env: Env, es: seq<Store.WorldEvent<Action>>, evidence: Evidence, now: nat)
    ensures var w := Store.RunWorld(Machine(env), Store.InitialWorld(None), es);
      w.disk.Some? ==>
        var s := w.disk.value.content;
        var m := Mutate(env, Reconcile(evidence, now), s);
        && m.Changed? && Reconciled(evidence, s.runs, now, s, m.content)
        && m.content.currentRunId == s.currentRunId && m.content.currentAgent == s.currentAgent
  {
    ReachableStatesAreSafe(env, es);
    var w := Store.RunWorld(Machine(env), Store.InitialWorld(None), es);
    hide *;
    if w.disk.Some? {
      ReconcilingSafeState(env, w.disk.value.content, evidence, now);
      ReconcileIs(env, w.disk.value.content, evidence, now);
    }
  }

  lemma MirrorsStay(evidence: Evidence, s: State, t: State, now: nat)
    requires Reconciled(evidence, s.runs, now, s, t) && Mirrors(s) && Mirrors(t)
    ensures t.currentRunId == s.currentRunId && t.currentAgent == s.currentAgent
  {
    if s.runs != [] {
      assert LeaseReconciled(evidence, now, s.runs[0], t.runs[0]);
    }
  }

  // ---------------------------------------------------------------- finalizing after reconciliation

  ghost predicate SameClaims(s: State, t: State) {
    |t.runs| == |s.runs| && forall k | 0 <= k < |s.runs| ::
      t.runs[k].runId == s.runs[k].runId && t.runs[k].terminalId == s.runs[k].terminalId
  }

  lemma {:induction false} ReconcilingKeepsClaims(evidence: Evidence, leases: seq<Lease>, now: nat, s: State)
    ensures SameClaims(s, ReconcileEach(evidence, leases, now, s))
  {
    hide Judge, FindLease;
    if leases != [] {
      ReconcilingKeepsClaims(evidence, leases[..|leases| - 1], now, s);
    }
  }

  /** A lease whose provider reconciliation knows to be gone: finalizing its candidate, whatever has
      been decided about the other leases, releases exactly that lease and ends exactly that run. */
  lemma CandidateIsFinalized(env: Env, evidence: Evidence, s: State, k: nat, now: nat, endedAt: nat)
    requires UnsharedTerminals(env) && Inv(env, s) && k < |s.runs| && Judge(evidence, s.runs[k]).FinalizeIt?
    ensures s.runs[k].terminalId.Some?
    ensures var t := ReconcileEach(evidence, s.runs, now, s);
      var m := Mutate(env, CandidateAction(CandidateFor(s.runs[k]), endedAt), t);
      && m.Changed? && Inv(env, m.content)
      && m.content.runs == Without(t.runs, s.runs[k].runId)
      && OpenIds(m.content.history) == OpenIds(t.history) - {Some(s.runs[k].runId)}
  {
    hide UnsharedTerminals, Inv, Forward, InStep, Judge, ReconcileEach, MutateFinalizeTerminal, OpenIds, Without;
    var t := ReconcileEach(evidence, s.runs, now, s);
    var runId := s.runs[k].runId;
    OnlyTerminalsAreFinalized(evidence, s.runs[k]);
    ReconcileKeeps(env, s, evidence, s.runs, now);
    ReconcilingKeepsClaims(evidence, s.runs, now, s);
    assert t.runs[k].runId == runId && t.runs[k].terminalId == s.runs[k].terminalId;
    FinalizingReleases(env, CandidateAction(CandidateFor(s.runs[k]), endedAt), t, k);
  }

  /** The daemon's finalizer on a terminal that has a lease. */
  lemma FinalizingReleases(env: Env, a: Action, t: State, k: nat)
    requires UnsharedTerminals(env) && Inv(env, t) && a.FinalizeTerminal?
    requires k < |t.runs| && t.runs[k].terminalId == Some(a.terminalId)
    ensures var m := MutateFinalizeTerminal(a, t);
      && m.Changed? && Inv(env, m.content)
      && m.content.runs == Without(t.runs, t.runs[k].runId)
      && OpenIds(m.content.history) == OpenIds(t.history) - {Some(t.runs[k].runId)}
  {
    FoundByTerminal(t.runs, a.terminalId);
    var lease := FindLeaseByTerminal(t.runs, a.terminalId).value;
    var j :| 0 <= j < |t.runs| && t.runs[j] == lease;
    assert lease.runId == t.runs[k].runId by {
      assert t.runs[j].terminalId == env.terminalOf(t.runs[j].runId);
      assert t.runs[k].terminalId == env.terminalOf(t.runs[k].runId);
    }
    var q := OpenEntryOf(env, t, k);
    FirstOnTerminal(t.history, a.terminalId, Some(lease.runId), q);
    FinalizeTerminalKeeps(env, a, t);
    UnsharedTerminalsKeepStep(env, a, t);
    TerminalFinalizationIsRelease(t, a);
    TerminalFinalizationTouchesOnly(env, t, a);
    OpenIdsWithout(t, MutateFinalizeTerminal(a, t).content.history, lease.runId);
  }

  // ---------------------------------------------------------------- launching at most once

  /** The request's mutator ran and added the run: the caller sees `inserted` set. */
  ghost predicate Inserts(env: Env, disk: Disk, request: Store.Request<Action>, sessionId: string, operationId: string) {
    && request.Update? && request.op.Launch?
    && request.op.sessionId == sessionId && request.op.operationId == operationId
    && Store.Apply(Machine(env), disk, request).Committed?
    && Mutate(env, request.op, disk.value.content).Changed?
  }

  /** Every new task is given a session id that no earlier task had. */
  ghost predicate FreshSessions(rs: Requests) {
    forall j, k | 0 <= j < k < |rs| && rs[j].Replace? && rs[j].op.StartTask? && rs[k].Replace? && rs[k].op.StartTask? ::
      rs[j].op.sessionId != rs[k].op.sessionId
  }

  ghost predicate StartsSession(request: Store.Request<Action>, sessionId: string) {
    request.Replace? && request.op.StartTask? && request.op.sessionId == sessionId
  }

  /** The current session was started by one of the requests. */
  lemma {:induction false} SessionWasStarted(env: Env, rs: Requests) returns (j: nat)
    requires Store.Replay(Machine(env), None, rs).Some?
    ensures j < |rs| && StartsSession(rs[j], Store.Replay(Machine(env), None, rs).value.content.sessionId)
  {
    var n := |rs| - 1;
    var before := Store.Replay(Machine(env), None, rs[..n]);
    ReplayedStatesAreSafe(env, rs[..n]);
    if rs[n].Replace? && Store.Apply(Machine(env), before, rs[n]).Committed? {
      j := n;
    } else {
      if rs[n].Update? {
        MutateKeeps(env, rs[n].op, before.value.content);
      }
      j := SessionWasStarted(env, rs[..n]);
    }
  }

  /** Either the task is another one, or the run is in its history. */
  ghost predicate Marked(env: Env, disk: Disk, sessionId: string, operationId: string) {
    disk.Some? && disk.value.content.sessionId == sessionId ==>
      HasRun(disk.value.content.history, env.runIdFor(sessionId, operationId))
  }

  lemma MarkStays(env: Env, disk: Disk, request: Store.Request<Action>, sessionId: string, operationId: string)
    requires (disk.Some? ==> Inv(env, disk.value.content))
    requires !StartsSession(request, sessionId)
    requires Marked(env, disk, sessionId, operationId)
      || Inserts(env, disk, request, sessionId, operationId)
    ensures Marked(env, Store.After(disk, Store.Apply(Machine(env), disk, request)), sessionId, operationId)
  {
    if request.Update? && disk.Some? {
      var s := disk.value.content;
      MutateKeeps(env, request.op, s);
      var m := Mutate(env, request.op, s);
      if m.Changed? {
        var runId := env.runIdFor(sessionId, operationId);
        if Inserts(env, disk, request, sessionId, operationId) {
          assert m.content.history[|s.history|].id == Some(runId);
        } else if HasRun(s.history, runId) {
          var k :| 0 <= k < |s.history| && s.history[k].id == Some(runId);
          assert m.content.history[k].id == Some(runId);
        }
      }
    }
  }

  lemma ReplayedStatesAreSafe(env: Env, rs: Requests)
    ensures var last := Store.Replay(Machine(env), None, rs); last.Some? ==> Inv(env, last.value.content)
  {
    hide Inv, Machine;
    MachinePreservesInv(env);
    Store.ReplayKeeps(Machine(env), (s: State) => Inv(env, s), None, rs);
  }

  lemma {:induction false} MarkStaysOver(
    env: Env, rs: Requests, j: nat, sessionId: string, operationId: string)
    requires j < |rs|
    requires Inserts(env, Store.Replay(Machine(env), None, rs[..j]), rs[j], sessionId, operationId)
    requires forall k | j <= k < |rs| :: !StartsSession(rs[k], sessionId)
    ensures Marked(env, Store.Replay(Machine(env), None, rs), sessionId, operationId)
    decreases |rs|
  {
    hide Inserts, StartsSession, Inv, Machine;
    var n := |rs| - 1;
    ReplayedStatesAreSafe(env, rs[..n]);
    if j < n {
      assert rs[..n][..j] == rs[..j];
      MarkStaysOver(env, rs[..n], j, sessionId, operationId);
    }
    MarkStays(env, Store.Replay(Machine(env), None, rs[..n]), rs[n], sessionId, operationId);
  }

  /** Among any requests, at most one launch of a session and operation inserts a run, however
      long ago the ledger has forgotten the first one. */
  lemma LaunchedAtMostOnce(env: Env, rs: Requests, j: nat, k: nat, sessionId: string, operationId: string)
    requires FreshSessions(rs) && j < k < |rs|
    requires Inserts(env, Store.Replay(Machine(env), None, rs[..j]), rs[j], sessionId, operationId)
    ensures !Inserts(env, Store.Replay(Machine(env), None, rs[..k]), rs[k], sessionId, operationId)
  {
    var origin := SessionWasStarted(env, rs[..j]);
    assert rs[..j][origin] == rs[origin];
    assert rs[..k][..j] == rs[..j];
    MarkStaysOver(env, rs[..k], j, sessionId, operationId);
  }

  /** The same over every interleaving of concurrent calls: two logged calls never both insert. */
  lemma ConcurrentLaunchesInsertOnce(
    env: Env, es: seq<Store.WorldEvent<Action>>, j: nat, k: nat, sessionId: string, operationId: string)
    requires var w := Store.RunWorld(Machine(env), Store.InitialWorld(None), es);
      var rs := Store.Requests(w.log);
      && FreshSessions(rs) && j < k < |w.log|
      && Inserts(env, Store.Replay(Machine(env), None, rs[..j]), rs[j], sessionId, operationId)
    ensures var w := Store.RunWorld(Machine(env), Store.InitialWorld(None), es);
      var rs := Store.Requests(w.log);
      && w.disk == Store.Replay(Machine(env), None, rs)
      && !Inserts(env, Store.Replay(Machine(env), None, rs[..k]), rs[k], sessionId, operationId)
  {
    Store.ConcurrentRunsAreSerial(Machine(env), None, es);
    var w := Store.RunWorld(Machine(env), Store.InitialWorld(None), es);
    LaunchedAtMostOnce(env, Store.Requests(w.log), j, k, sessionId, operationId);
  }
}
