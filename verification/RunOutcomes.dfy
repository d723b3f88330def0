/** Which mutators of runs go through, and what those that do leave in the state: launching, observing,
    orphaning, the finalizers and the recoveries. */
module RunOutcomes {
  import opened Wrappers
  import opened TaskState
  import opened Leases
  import opened RunMachine
  import opened RunSafety
  import Store = SerialStore

  /** Nothing but leases and history has changed, and the mirrors name the first lease. */
  ghost predicate OnlyRuns(before: State, after: State) {
    && after.sessionId == before.sessionId && after.status == before.status && after.other == before.other
    && (after.runs == [] ==> after.currentAgent.None? && after.currentRunId.None?)
    && (after.runs != [] ==>
          after.currentAgent == Some(after.runs[0].agent) && after.currentRunId == Some(after.runs[0].runId))
  }

  // ---------------------------------------------------------------- launching

  ghost predicate Closed(s: State) {
    s.status.CompletedTask? || s.status.CancelledTask?
  }

  /** Some run writes to the same canonical working tree. */
  ghost predicate Taken(env: Env, s: State, worktree: string) {
    exists k | 0 <= k < |s.runs| :: env.resolve(s.runs[k].worktree) == env.resolve(worktree)
  }

  /** The user approved a handoff that is not the present one. */
  ghost predicate Outdated(a: Action, s: State)
    requires a.Launch?
  {
    a.approved.Some? && !(a.approved.value.sessionId == s.sessionId && a.approved.value.status == s.status
                          && a.approved.value.other == s.other)
  }

  ghost predicate NewLease(env: Env, a: Action, runId: string, lease: Lease)
    requires a.Launch?
  {
    && lease.runId == runId && lease.displayLabel == a.displayLabel && lease.agent == a.agent
    && lease.worktree == a.worktree && lease.terminalId == env.terminalOf(runId)
    && lease.controller == a.controller
    && lease.controllerId == ControllerId(a.controller.kind, a.controller.boot, a.controller.instanceId)
    && lease.bridge.None? && lease.status.RunningLease? && lease.lifecycle.Working? && lease.attention.None?
    && lease.seconds == 0 && lease.sequence == 0 && lease.bids == [] && lease.lastSeenAt == a.now
  }

  ghost predicate NewRun(env: Env, a: Action, runId: string, run: Run)
    requires a.Launch?
  {
    && run.id == Some(runId) && run.displayLabel == a.displayLabel && run.agent == a.agent
    && run.terminalId == env.terminalOf(runId) && run.endedAt.None? && run.exitCode.None? && run.exitReason.None?
    && run.lifecycle == Some(Working) && run.attention.None? && run.seconds == Some(0) && run.sequence == Some(0)
  }

  /** A working tree is refused exactly when another run has it; a run that has it already changes
      nothing, and any other one adds its lease behind the others. */
  lemma AcquireExplained(env: Env, s: State, lease: Lease)
    requires Distinct(env, s.runs)
    ensures var t := AcquireLease(env.resolve, s, lease);
      var known := exists k | 0 <= k < |s.runs| :: s.runs[k].runId == lease.runId;
      && (t.None? <==> exists k | 0 <= k < |s.runs| ::
            s.runs[k].runId != lease.runId && env.resolve(s.runs[k].worktree) == env.resolve(lease.worktree))
      && (t.Some? ==> t.value.history == s.history && OnlyRuns(s, t.value))
      && (t.Some? && known ==> t.value.runs == s.runs)
      && (t.Some? && !known ==> t.value.runs == s.runs + [lease])
  {
    FreeWorktree(env.resolve, s.runs, lease.worktree);
    var existing := LeaseForWorktree(env.resolve, s.runs, lease.worktree);
    hide LeaseForWorktree;
    if existing.Some? {
      var k :| 0 <= k < |s.runs| && s.runs[k] == existing.value;
      assert forall j | 0 <= j < |s.runs| && j != k ::
        env.resolve(s.runs[j].worktree) != env.resolve(lease.worktree);
    }
  }

  /** A launch throws exactly when it is of another or a closed task, or is new and the working tree is
      taken or the approved handoff outdated; a repeated one changes nothing; any other one adds exactly
      its running lease and its open entry. */
  lemma LaunchExplained(env: Env, a: Action, s: State)
    requires Inv(env, s) && a.Launch?
    ensures var runId := env.runIdFor(a.sessionId, a.operationId);
      var m := Mutate(env, a, s);
      var known := exists k | 0 <= k < |s.history| :: s.history[k].id == Some(runId);
      var wrongTask := s.sessionId != a.sessionId || Closed(s);
      && (m.Throws? <==> wrongTask || (!known && (Taken(env, s, a.worktree) || Outdated(a, s))))
      && (m.Same? <==> !wrongTask && known)
      && (m.Changed? ==>
            && OnlyRuns(s, m.content) && m.content.updatedAt == s.updatedAt
            && |m.content.runs| == |s.runs| + 1 && m.content.runs[..|s.runs|] == s.runs
            && NewLease(env, a, runId, m.content.runs[|s.runs|])
            && |m.content.history| == |s.history| + 1 && m.content.history[..|s.history|] == s.history
            && NewRun(env, a, runId, m.content.history[|s.history|]))
  {
    var runId := env.runIdFor(a.sessionId, a.operationId);
    FreeWorktree(env.resolve, s.runs, a.worktree);
    if !HasRun(s.history, runId) {
      UnknownRunHasNoLease(env, s, runId);
    }
    hide Inv, LeaseForWorktree;
  }

  // ---------------------------------------------------------------- observing

  /** What an observation of a terminal says of its run. */
  ghost predicate ObservedLifecycle(a: Action, lifecycle: Lifecycle)
    requires a.Observe?
  {
    && (a.seen.SeenStarting? <==> lifecycle.Starting?)
    && (a.seen.SeenRunning? <==> lifecycle.Working?)
    && (a.seen.SeenWaiting? && a.attention == Some(PermissionWait) <==> lifecycle.NeedsPermission?)
    && (a.seen.SeenWaiting? && a.attention != Some(PermissionWait) <==> lifecycle.WaitingForInput?)
    && (a.seen.SeenStopping? <==> lifecycle.Stopping?)
    && (a.seen.SeenOrphaned? <==> lifecycle.Orphaned?)
  }

  ghost predicate ObservedStatus(a: Action, status: LeaseStatus)
    requires a.Observe?
  {
    && (a.seen.SeenStarting? <==> status.StartingLease?) && (a.seen.SeenRunning? <==> status.RunningLease?)
    && (a.seen.SeenWaiting? <==> status.WaitingLease?) && (a.seen.SeenStopping? <==> status.StoppingLease?)
    && (a.seen.SeenOrphaned? <==> status.OrphanedLease?)
  }

  /** Only a waiting run needs attention, of the observed kind or of an unknown one. */
  ghost predicate ObservedAttention(a: Action, attention: Option<Attention>)
    requires a.Observe?
  {
    && (!a.seen.SeenWaiting? ==> attention.None?)
    && (a.seen.SeenWaiting? && a.attention.Some? ==> attention == a.attention)
    && (a.seen.SeenWaiting? && a.attention.None? ==> attention == Some(UnknownWait))
  }

  predicate SeenActive(seen: LiveStatus) {
    !seen.SeenStopping? && !seen.SeenOrphaned?
  }

  /** A lease takes note of an observation of its terminal unless a later one came before, or it is
      stopping or orphaned and was seen active. */
  ghost predicate LeaseObserved(a: Action, before: Lease, after: Lease)
    requires a.Observe?
  {
    var late := a.sequence.Some? && a.sequence.value < before.sequence;
    var settled := (before.status.StoppingLease? || before.status.OrphanedLease?) && SeenActive(a.seen);
    if before.terminalId != Some(a.terminalId) || late || settled then after == before
    else
      && ObservedStatus(a, after.status) && ObservedLifecycle(a, after.lifecycle) && ObservedAttention(a, after.attention)
      && after.sequence == (if a.sequence.Some? then a.sequence.value else before.sequence + 1)
      && after.seconds == (if a.seconds.Some? && a.seconds.value > before.seconds then a.seconds.value else before.seconds)
      && after.lastSeenAt == a.now
      && (a.daemon.None? ==> after.controller == before.controller && after.controllerId == before.controllerId)
      && (a.daemon.Some? ==>
            && after.controller == a.daemon.value
            && after.controllerId == ControllerId(a.daemon.value.kind, a.daemon.value.boot, a.daemon.value.instanceId))
      && after == before.(status := after.status, lifecycle := after.lifecycle, attention := after.attention,
                          sequence := after.sequence, seconds := after.seconds, lastSeenAt := after.lastSeenAt,
                          controller := after.controller, controllerId := after.controllerId)
  }

  /** A history entry likewise, unless it has ended and was seen active. */
  ghost predicate RunObserved(a: Action, before: Run, after: Run)
    requires a.Observe?
  {
    var late := a.sequence.Some? && a.sequence.value < before.sequence.GetOr(0);
    if before.terminalId != Some(a.terminalId) || late || (before.endedAt.Some? && SeenActive(a.seen)) then after == before
    else
      && after.lifecycle.Some? && ObservedLifecycle(a, after.lifecycle.value) && ObservedAttention(a, after.attention)
      && after.sequence == Some(if a.sequence.Some? then a.sequence.value else before.sequence.GetOr(0) + 1)
      && after.seconds == Some(if a.seconds.Some? && a.seconds.value > before.seconds.GetOr(0)
                               then a.seconds.value else before.seconds.GetOr(0))
      && after == before.(lifecycle := after.lifecycle, attention := after.attention,
                          sequence := after.sequence, seconds := after.seconds)
  }

  lemma LeaseIsObserved(a: Action, lease: Lease)
    requires a.Observe?
    ensures LeaseObserved(a, lease, ObservedLease(a, lease))
  {
  }

  lemma RunIsObserved(a: Action, run: Run)
    requires a.Observe?
    ensures RunObserved(a, run, ObservedRun(a, run))
  {
  }

  /** An observation throws exactly when nobody knows the terminal, and otherwise is noted by exactly
      the leases and entries on it. */
  lemma ObserveExplained(env: Env, a: Action, s: State)
    requires a.Observe?
    ensures var m := Mutate(env, a, s);
      && (m.Throws? <==>
            && (forall k | 0 <= k < |s.runs| :: s.runs[k].terminalId != Some(a.terminalId))
            && (forall k | 0 <= k < |s.history| :: s.history[k].terminalId != Some(a.terminalId)))
      && (!m.Throws? ==>
            && m.Changed? && |m.content.runs| == |s.runs| && |m.content.history| == |s.history|
            && (forall k | 0 <= k < |s.runs| :: LeaseObserved(a, s.runs[k], m.content.runs[k]))
            && (forall k | 0 <= k < |s.history| :: RunObserved(a, s.history[k], m.content.history[k]))
            && m.content == s.(runs := m.content.runs, history := m.content.history))
  {
    forall k | 0 <= k < |s.runs| ensures LeaseObserved(a, s.runs[k], ObservedLease(a, s.runs[k])) {
      LeaseIsObserved(a, s.runs[k]);
    }
    forall k | 0 <= k < |s.history| ensures RunObserved(a, s.history[k], ObservedRun(a, s.history[k])) {
      RunIsObserved(a, s.history[k]);
    }
    hide ObservedLease, ObservedRun, LeaseObserved, RunObserved;
  }

  // ---------------------------------------------------------------- heartbeats, bridges, labels, bids

  ghost predicate Beating(lease: Lease, controllerId: ControllerId) {
    lease.controllerId == controllerId && !lease.status.StoppingLease? && !lease.status.OrphanedLease?
  }

  /** A heartbeat touches the leases of its controller that are neither stopping nor orphaned, and
      writes nothing if there are none. */
  lemma TouchExplained(env: Env, controllerId: ControllerId, now: nat, s: State)
    ensures var m := Mutate(env, Touch(controllerId, now), s);
      && !m.Throws?
      && (m.Same? <==> forall k | 0 <= k < |s.runs| :: !Beating(s.runs[k], controllerId))
      && (m.Changed? ==>
            && |m.content.runs| == |s.runs| && m.content == s.(runs := m.content.runs)
            && (forall k | 0 <= k < |s.runs| :: m.content.runs[k] ==
                  (if Beating(s.runs[k], controllerId) then s.runs[k].(lastSeenAt := now) else s.runs[k])))
  {
  }

  lemma {:induction false} LeaseOnTerminal(runs: seq<Lease>, terminalId: string)
    ensures FindLeaseByTerminal(runs, terminalId).None? <==> forall k | 0 <= k < |runs| :: runs[k].terminalId != Some(terminalId)
    ensures FindLeaseByTerminal(runs, terminalId).Some? ==>
      exists k: nat :: FirstOn(runs, terminalId, k) && runs[k] == FindLeaseByTerminal(runs, terminalId).value
  {
    if runs != [] {
      if runs[0].terminalId == Some(terminalId) {
        assert FirstOn(runs, terminalId, 0);
      } else {
        var rest := runs[1..];
        LeaseOnTerminal(rest, terminalId);
        assert forall k | 0 <= k < |rest| :: rest[k] == runs[k + 1];
        if FindLeaseByTerminal(rest, terminalId).Some? {
          var k: nat :| FirstOn(rest, terminalId, k) && rest[k] == FindLeaseByTerminal(rest, terminalId).value;
          assert forall j | 1 <= j < k + 1 :: runs[j] == rest[j - 1];
          assert FirstOn(runs, terminalId, k + 1);
        }
        assert forall k | 1 <= k < |runs| :: runs[k] == rest[k - 1];
      }
    }
  }

  ghost predicate FirstOn(runs: seq<Lease>, terminalId: string, k: nat) {
    k < |runs| && runs[k].terminalId == Some(terminalId) && forall j | 0 <= j < k :: runs[j].terminalId != Some(terminalId)
  }

  /** A bridge is registered with the leases on its terminal, and must find one. */
  lemma RegisterExplained(env: Env, terminalId: string, bridge: Bridge, s: State)
    ensures var m := Mutate(env, RegisterBridge(terminalId, bridge), s);
      && (m.Throws? <==> forall k | 0 <= k < |s.runs| :: s.runs[k].terminalId != Some(terminalId))
      && (!m.Throws? ==>
            && m.Changed? && |m.content.runs| == |s.runs| && m.content == s.(runs := m.content.runs)
            && (forall k | 0 <= k < |s.runs| :: m.content.runs[k] ==
                  (if s.runs[k].terminalId == Some(terminalId) then s.runs[k].(bridge := Some(bridge)) else s.runs[k])))
  {
    LeaseOnTerminal(s.runs, terminalId);
    hide FindLeaseByTerminal;
  }

  /** A rename must find the run somewhere and changes its label everywhere, and nothing else. */
  lemma RenameExplained(env: Env, runId: string, displayLabel: string, s: State)
    ensures var m := Mutate(env, Rename(runId, displayLabel), s);
      && (m.Throws? <==>
            && (forall k | 0 <= k < |s.runs| :: s.runs[k].runId != runId)
            && (forall k | 0 <= k < |s.history| :: s.history[k].id != Some(runId)))
      && (!m.Throws? ==>
            && m.Changed? && |m.content.runs| == |s.runs| && |m.content.history| == |s.history|
            && m.content == s.(runs := m.content.runs, history := m.content.history)
            && (forall k | 0 <= k < |s.runs| :: m.content.runs[k] ==
                  (if s.runs[k].runId == runId then s.runs[k].(displayLabel := displayLabel) else s.runs[k]))
            && (forall k | 0 <= k < |s.history| :: m.content.history[k] ==
                  (if s.history[k].id == Some(runId) then s.history[k].(displayLabel := displayLabel) else s.history[k])))
  {
  }

  lemma LeaseOf(env: Env, s: State, runId: string)
    requires Inv(env, s)
    ensures FindLease(s.runs, runId).None? <==> forall k | 0 <= k < |s.runs| :: s.runs[k].runId != runId
    ensures forall k | 0 <= k < |s.runs| && s.runs[k].runId == runId :: FindLease(s.runs, runId) == Some(s.runs[k])
  {
    if k: nat :| k < |s.runs| && s.runs[k].runId == runId {
      FindsOwnLease(s.runs, k);
    } else {
      NotFound(s.runs, runId);
    }
  }

  lemma {:induction false} NotFound(runs: seq<Lease>, runId: string)
    requires forall k: nat | k < |runs| :: runs[k].runId != runId
    ensures FindLease(runs, runId).None?
  {
    if runs != [] {
      NotFound(runs[1..], runId);
    }
  }

  /** A bid needs the run's orphaned lease, and joins its bids, of which the last eight are kept. */
  lemma BidExplained(env: Env, runId: string, bid: Bid, s: State, k: nat)
    requires Inv(env, s) && k < |s.runs| && s.runs[k].runId == runId
    ensures var m := Mutate(env, SubmitBid(runId, bid), s);
      && (m.Throws? <==> !s.runs[k].status.OrphanedLease?)
      && (!m.Throws? ==>
            && m.Changed? && |m.content.runs| == |s.runs| && m.content == s.(runs := m.content.runs)
            && (forall j | 0 <= j < |s.runs| && j != k :: m.content.runs[j] == s.runs[j])
            && var bids := s.runs[k].bids + [bid];
               m.content.runs[k] == s.runs[k].(bids := if |bids| > 8 then bids[|bids| - 8..] else bids))
  {
    LeaseOf(env, s, runId);
    assert forall j | 0 <= j < |s.runs| && j != k :: s.runs[j].runId != runId;
    hide FindLease, Inv;
  }

  lemma BidNeedsLease(env: Env, runId: string, bid: Bid, s: State)
    requires forall k: nat | k < |s.runs| :: s.runs[k].runId != runId
    ensures Mutate(env, SubmitBid(runId, bid), s).Throws? && forall now :: Mutate(env, RecoverOrphaned(runId, now), s).Throws?
  {
    NotFound(s.runs, runId);
  }

  // ---------------------------------------------------------------- releasing

  /** The lease of the run, if it has one, is gone; the others are as they were, in their order. */
  ghost predicate Released(before: seq<Lease>, after: seq<Lease>, runId: string) {
    && ((forall k | 0 <= k < |before| :: before[k].runId != runId) ==> after == before)
    && (forall k: nat | k < |before| && before[k].runId == runId :: after == before[..k] + before[k + 1..])
  }

  lemma {:induction false} WithoutNone(runs: seq<Lease>, runId: string)
    requires forall k | 0 <= k < |runs| :: runs[k].runId != runId
    ensures Without(runs, runId) == runs
  {
    if runs != [] {
      WithoutNone(runs[1..], runId);
      assert [runs[0]] + runs[1..] == runs;
    }
  }

  lemma {:induction false} WithoutOne(runs: seq<Lease>, runId: string, k: nat)
    requires k < |runs| && runs[k].runId == runId && forall j | 0 <= j < |runs| && j != k :: runs[j].runId != runId
    ensures Without(runs, runId) == runs[..k] + runs[k + 1..]
  {
    var rest := runs[1..];
    assert forall j | 0 <= j < |rest| :: rest[j] == runs[j + 1];
    if k == 0 {
      WithoutNone(rest, runId);
      assert [] + rest == runs[..0] + runs[1..];
    } else {
      WithoutOne(rest, runId, k - 1);
      assert [runs[0]] + (rest[..k - 1] + rest[k..]) == runs[..k] + runs[k + 1..];
    }
  }

  lemma WithoutReleases(runs: seq<Lease>, runId: string)
    requires DistinctRunIds(runs)
    ensures Released(runs, Without(runs, runId), runId)
  {
    if k: nat :| k < |runs| && runs[k].runId == runId {
      assert forall j | 0 <= j < |runs| && j != k :: runs[j].runId != runId;
      WithoutOne(runs, runId, k);
    } else {
      WithoutNone(runs, runId);
    }
  }

  lemma ReleaseIs(s: State, runId: string)
    requires DistinctRunIds(s.runs)
    ensures var t := ReleaseLease(s, runId);
      OnlyRuns(s, t) && Released(s.runs, t.runs, runId) && t.history == s.history && t.updatedAt == s.updatedAt
  {
    WithoutReleases(s.runs, runId);
    hide Without, Released;
  }

  // ---------------------------------------------------------------- finalizing

  ghost predicate EndsAs(reason: ExitReason, lifecycle: Option<Lifecycle>) {
    && (reason.CompletedExit? <==> lifecycle == Some(Completed))
    && (reason.UserCancelled? || reason.Interrupted? <==> lifecycle == Some(Cancelled))
    && (!reason.CompletedExit? && !reason.UserCancelled? && !reason.Interrupted? <==> lifecycle == Some(Failed))
  }

  /** The record of the session manager: what it launched with and how it ended, with the runtime and
      sequence that were on record. */
  ghost predicate ClosedBySession(env: Env, a: Action, seconds: nat, sequence: nat, after: Run)
    requires a.Finalize?
  {
    var runId := env.runIdFor(a.sessionId, a.operationId);
    && after.id == Some(runId) && after.displayLabel == a.displayLabel && after.agent == a.agent
    && after.terminalId == env.terminalOf(runId)
    && after.endedAt == Some(a.endedAt) && after.exitCode == a.exitCode && after.exitReason == Some(a.reason)
    && EndsAs(a.reason, after.lifecycle) && after.attention.None?
    && after.seconds == Some(seconds) && after.sequence == Some(sequence)
  }

  lemma {:induction false} RunById(history: seq<Run>, id: Option<string>)
    ensures FindRun(history, id).None? <==> forall k | 0 <= k < |history| :: history[k].id != id
    ensures FindRun(history, id).Some? ==>
      exists k: nat :: FirstWithId(history, id, k) && history[k] == FindRun(history, id).value
  {
    if history != [] {
      if history[0].id == id {
        assert FirstWithId(history, id, 0);
      } else {
        var rest := history[1..];
        RunById(rest, id);
        assert forall k | 1 <= k < |history| :: history[k] == rest[k - 1];
        if FindRun(rest, id).Some? {
          var k: nat :| FirstWithId(rest, id, k) && rest[k] == FindRun(rest, id).value;
          assert FirstWithId(history, id, k + 1);
        }
      }
    }
  }

  ghost predicate FirstWithId(history: seq<Run>, id: Option<string>, k: nat) {
    k < |history| && history[k].id == id && forall j | 0 <= j < k :: history[j].id != id
  }

  /** The run's entry is closed unless it has ended already, and a closed one is added if there is none;
      all other entries are as they were. */
  ghost predicate HistoryFinalized(env: Env, a: Action, before: seq<Run>, after: seq<Run>)
    requires a.Finalize?
  {
    var runId := env.runIdFor(a.sessionId, a.operationId);
    && ((forall k | 0 <= k < |before| :: before[k].id != Some(runId)) ==>
          && |after| == |before| + 1 && after[..|before|] == before
          && ClosedBySession(env, a, 0, 0, after[|before|]))
    && (forall k: nat | k < |before| && before[k].id == Some(runId) ::
          && |after| == |before|
          && (forall q | 0 <= q < |before| && q != k :: after[q] == before[q])
          && (before[k].endedAt.Some? ==> after[k] == before[k])
          && (before[k].endedAt.None? ==>
                ClosedBySession(env, a, before[k].seconds.GetOr(0), before[k].sequence.GetOr(0), after[k])))
  }

  lemma FinishedIsClosed(env: Env, a: Action, item: Run)
    requires a.Finalize? && item.id == Some(env.runIdFor(a.sessionId, a.operationId))
    ensures ClosedBySession(env, a, 0, 0, FinishedRun(env, a))
    ensures ClosedBySession(env, a, item.seconds.GetOr(0), item.sequence.GetOr(0), ClosedEntry(env, a, item))
  {
  }

  lemma OthersStayOpen(env: Env, a: Action, item: Run)
    requires a.Finalize? && item.id != Some(env.runIdFor(a.sessionId, a.operationId))
    ensures ClosedEntry(env, a, item) == item
  {
  }

  /** Which history the finalizer makes. */
  function FinalizedHistory(env: Env, a: Action, s: State): seq<Run>
    requires a.Finalize?
  {
    var existing := FindRun(s.history, Some(env.runIdFor(a.sessionId, a.operationId)));
    if existing.Some? && existing.value.endedAt.Some? then s.history
    else if existing.Some? then MapRuns(s.history, (item: Run) => ClosedEntry(env, a, item))
    else s.history + [FinishedRun(env, a)]
  }

  lemma FinalizeIs(env: Env, a: Action, s: State)
    requires a.Finalize?
    ensures Mutate(env, a, s) == if s.sessionId != a.sessionId then Store.Same
      else Store.Changed(ReleaseLease(s.(history := FinalizedHistory(env, a, s)), env.runIdFor(a.sessionId, a.operationId)))
  {
    hide FindRun, ClosedEntry, FinishedRun, ReleaseLease;
  }

  lemma HistoryIsFinalized(env: Env, a: Action, s: State)
    requires HistoryIds(s.history) && a.Finalize?
    ensures HistoryFinalized(env, a, s.history, FinalizedHistory(env, a, s))
  {
    var runId := env.runIdFor(a.sessionId, a.operationId);
    RunById(s.history, Some(runId));
    FinishedIsClosed(env, a, FinishedRun(env, a));
    if k: nat :| k < |s.history| && s.history[k].id == Some(runId) {
      assert FirstWithId(s.history, Some(runId), k);
      FinishedIsClosed(env, a, s.history[k]);
      forall q | 0 <= q < |s.history| && q != k ensures ClosedEntry(env, a, s.history[q]) == s.history[q] {
        OthersStayOpen(env, a, s.history[q]);
      }
      hide FindRun, ClosedBySession, ClosedEntry, FinishedRun;
    } else {
      hide FindRun, ClosedBySession, ClosedEntry, FinishedRun;
    }
  }

  /** The session manager's finalizer does nothing to another task; else it finalizes the history and
      releases the run's lease. */
  lemma FinalizeExplained(env: Env, a: Action, s: State)
    requires Inv(env, s) && a.Finalize?
    ensures var m := Mutate(env, a, s);
      && !m.Throws? && (m.Same? <==> s.sessionId != a.sessionId)
      && (m.Changed? ==>
            && OnlyRuns(s, m.content) && m.content.updatedAt == s.updatedAt
            && Released(s.runs, m.content.runs, env.runIdFor(a.sessionId, a.operationId))
            && HistoryFinalized(env, a, s.history, m.content.history))
  {
    assert DistinctRunIds(s.runs) && HistoryIds(s.history);
    hide Inv, FinalizedHistory, HistoryFinalized, Released;
    FinalizeIs(env, a, s);
    HistoryIsFinalized(env, a, s);
    ReleaseIs(s.(history := FinalizedHistory(env, a, s)), env.runIdFor(a.sessionId, a.operationId));
    hide Mutate, ReleaseLease;
  }

  /** What the daemon's finalizer makes of an entry. */
  ghost predicate ClosedByDaemon(a: Action, before: Run, after: Run)
    requires a.FinalizeTerminal?
  {
    && EndsAs(a.reason, after.lifecycle)
    && after == before.(endedAt := Some(a.endedAt), exitCode := a.exitCode, exitReason := Some(a.reason),
                        lifecycle := after.lifecycle, attention := None,
                        seconds := Some(Max(before.seconds.GetOr(0), a.seconds.GetOr(0))),
                        sequence := Some(Max(before.sequence.GetOr(0), a.sequence.GetOr(0))))
  }

  /** The entry belongs to the terminal, or to the run whose lease is on it. */
  ghost predicate OnTerminal(run: Run, terminalId: string, lease: Option<Lease>) {
    run.terminalId == Some(terminalId) || (lease.Some? && run.id == Some(lease.value.runId))
  }

  ghost predicate FirstOnTerminal(history: seq<Run>, terminalId: string, lease: Option<Lease>, q: nat) {
    q < |history| && OnTerminal(history[q], terminalId, lease)
    && forall j | 0 <= j < q :: !OnTerminal(history[j], terminalId, lease)
  }

  lemma {:induction false} EntryOnTerminal(history: seq<Run>, terminalId: string, lease: Option<Lease>)
    requires forall k | 0 <= k < |history| :: history[k].id.Some?
    ensures var found := FindTerminalRun(history, terminalId, if lease.Some? then Some(lease.value.runId) else None);
      && (found.None? <==> forall k | 0 <= k < |history| :: !OnTerminal(history[k], terminalId, lease))
      && (found.Some? ==> exists q: nat :: FirstOnTerminal(history, terminalId, lease, q) && history[q] == found.value)
  {
    hide OnTerminal;
    if history != [] {
      FirstEntry(history[0], terminalId, lease);
      if OnTerminal(history[0], terminalId, lease) {
        assert FirstOnTerminal(history, terminalId, lease, 0);
      } else {
        var rest := history[1..];
        assert forall k | 1 <= k < |history| :: history[k] == rest[k - 1];
        assert forall k | 0 <= k < |rest| :: rest[k] == history[k + 1];
        EntryOnTerminal(rest, terminalId, lease);
        var found := FindTerminalRun(rest, terminalId, if lease.Some? then Some(lease.value.runId) else None);
        if found.Some? {
          var q: nat :| FirstOnTerminal(rest, terminalId, lease, q) && rest[q] == found.value;
          assert FirstOnTerminal(history, terminalId, lease, q + 1);
        }
      }
    }
  }

  lemma FirstEntry(run: Run, terminalId: string, lease: Option<Lease>)
    requires run.id.Some?
    ensures OnTerminal(run, terminalId, lease)
      <==> run.terminalId == Some(terminalId) || run.id == if lease.Some? then Some(lease.value.runId) else None
  {
  }

  /** What the daemon's finalizer does when it has found the lease on the terminal, if there is one, and
      the first entry: the lease's run, or else the entry's, is released, and is closed unless the entry
      had ended. */
  ghost predicate FinalizedTerminal(a: Action, s: State, lease: Option<Lease>, q: nat, t: State)
    requires a.FinalizeTerminal? && q < |s.history| && s.history[q].id.Some?
  {
    var runId := if lease.Some? then lease.value.runId else s.history[q].id.value;
    && OnlyRuns(s, t) && t.updatedAt == s.updatedAt && Released(s.runs, t.runs, runId)
    && |t.history| == |s.history|
    && (forall k: nat | k < |s.history| ::
          if s.history[q].endedAt.None? && s.history[k].id == Some(runId) then ClosedByDaemon(a, s.history[k], t.history[k])
          else t.history[k] == s.history[k])
  }

  lemma FinalizeTerminalExplained(env: Env, a: Action, s: State) returns (lease: Option<Lease>, q: nat)
    requires Inv(env, s) && a.FinalizeTerminal?
    ensures lease.None? <==> forall k | 0 <= k < |s.runs| :: s.runs[k].terminalId != Some(a.terminalId)
    ensures lease.Some? ==> exists k: nat :: FirstOn(s.runs, a.terminalId, k) && s.runs[k] == lease.value
    ensures var m := Mutate(env, a, s);
      && (m.Throws? <==> forall k | 0 <= k < |s.history| :: !OnTerminal(s.history[k], a.terminalId, lease))
      && (!m.Throws? ==> m.Changed? && FirstOnTerminal(s.history, a.terminalId, lease, q)
                         && s.history[q].id.Some? && FinalizedTerminal(a, s, lease, q, m.content))
  {
    lease := FindLeaseByTerminal(s.runs, a.terminalId);
    LeaseOnTerminal(s.runs, a.terminalId);
    assert DistinctRunIds(s.runs) && HistoryIds(s.history);
    hide Inv, FindLeaseByTerminal;
    EntryOnTerminal(s.history, a.terminalId, lease);
    q := 0;
    var found := FindTerminalRun(s.history, a.terminalId, if lease.Some? then Some(lease.value.runId) else None);
    hide FindTerminalRun;
    if found.Some? {
      q :| FirstOnTerminal(s.history, a.terminalId, lease, q) && s.history[q] == found.value;
      FinalizesFound(env, a, s, lease, q);
    }
    hide OnTerminal, FirstOnTerminal, Released, FinalizedTerminal;
  }

  function ClosedBy(a: Action, item: Run): Run
    requires a.FinalizeTerminal?
  {
    item.(endedAt := Some(a.endedAt), exitCode := a.exitCode, exitReason := Some(a.reason),
          lifecycle := Some(FinalLifecycle(a.reason)), attention := None,
          seconds := Some(Max(item.seconds.GetOr(0), a.seconds.GetOr(0))),
          sequence := Some(Max(item.sequence.GetOr(0), a.sequence.GetOr(0))))
  }

  lemma EntryIsClosed(a: Action, item: Run)
    requires a.FinalizeTerminal?
    ensures ClosedByDaemon(a, item, ClosedBy(a, item))
  {
  }

  function DaemonHistory(a: Action, s: State, runId: string, q: nat): seq<Run>
    requires a.FinalizeTerminal? && q < |s.history|
  {
    if s.history[q].endedAt.Some? then s.history
    else MapRuns(s.history, (item: Run) => if item.id == Some(runId) then ClosedBy(a, item) else item)
  }

  lemma FinalizeTerminalIs(env: Env, a: Action, s: State, lease: Option<Lease>, q: nat)
    requires a.FinalizeTerminal? && lease == FindLeaseByTerminal(s.runs, a.terminalId)
    requires q < |s.history| && s.history[q].id.Some?
    requires FindTerminalRun(s.history, a.terminalId, if lease.Some? then Some(lease.value.runId) else None) == Some(s.history[q])
    ensures var runId := if lease.Some? then lease.value.runId else s.history[q].id.value;
      Mutate(env, a, s) == Store.Changed(ReleaseLease(s.(history := DaemonHistory(a, s, runId, q)), runId))
  {
    var runId := if lease.Some? then lease.value.runId else s.history[q].id.value;
    hide FindLeaseByTerminal, FindTerminalRun, ReleaseLease, FinalLifecycle;
    if s.history[q].endedAt.None? {
      assert MapRuns(s.history, (item: Run) =>
        if item.id == Some(runId)
        then item.(endedAt := Some(a.endedAt), exitCode := a.exitCode, exitReason := Some(a.reason),
                   lifecycle := Some(FinalLifecycle(a.reason)), attention := None,
                   seconds := Some(Max(item.seconds.GetOr(0), a.seconds.GetOr(0))),
                   sequence := Some(Max(item.sequence.GetOr(0), a.sequence.GetOr(0))))
        else item) == DaemonHistory(a, s, runId, q);
    }
  }

  lemma FinalizesFound(env: Env, a: Action, s: State, lease: Option<Lease>, q: nat)
    requires a.FinalizeTerminal? && lease == FindLeaseByTerminal(s.runs, a.terminalId)
    requires DistinctRunIds(s.runs) && q < |s.history| && s.history[q].id.Some?
    requires FindTerminalRun(s.history, a.terminalId, if lease.Some? then Some(lease.value.runId) else None) == Some(s.history[q])
    ensures var m := Mutate(env, a, s); m.Changed? && FinalizedTerminal(a, s, lease, q, m.content)
  {
    var runId := if lease.Some? then lease.value.runId else s.history[q].id.value;
    FinalizeTerminalIs(env, a, s, lease, q);
    ReleaseIs(s.(history := DaemonHistory(a, s, runId, q)), runId);
    DaemonHistoryIs(a, s, runId, q);
    hide FindLeaseByTerminal, FindTerminalRun, ReleaseLease, Released, DistinctRunIds, ClosedByDaemon, DaemonHistory, Mutate;
  }

  lemma DaemonHistoryIs(a: Action, s: State, runId: string, q: nat)
    requires a.FinalizeTerminal? && q < |s.history|
    ensures var history := DaemonHistory(a, s, runId, q);
      && |history| == |s.history|
      && (forall k: nat | k < |s.history| ::
            if s.history[q].endedAt.None? && s.history[k].id == Some(runId) then ClosedByDaemon(a, s.history[k], history[k])
            else history[k] == s.history[k])
  {
    hide ClosedByDaemon, ClosedBy;
    forall k: nat | k < |s.history| ensures ClosedByDaemon(a, s.history[k], ClosedBy(a, s.history[k])) {
      EntryIsClosed(a, s.history[k]);
    }
  }

  /** A lease that is gone for good is finalized on its terminal, as cancelled by the user if it was
      stopping and as interrupted if not, with the runtime and sequence it had. */
  lemma CandidateIsFinalizedAs(lease: Lease, endedAt: nat)
    requires lease.terminalId.Some?
    ensures var a := CandidateAction(CandidateFor(lease), endedAt);
      && a.FinalizeTerminal? && Some(a.terminalId) == lease.terminalId && a.endedAt == endedAt && a.exitCode.None?
      && (lease.status.StoppingLease? ==> a.reason.UserCancelled?)
      && (!lease.status.StoppingLease? ==> a.reason.Interrupted?)
      && a.seconds == Some(lease.seconds) && a.sequence == Some(lease.sequence)
  {
  }

  // ---------------------------------------------------------------- orphaning

  predicate Owns(controllerId: ControllerId, lease: Lease) {
    lease.controllerId == controllerId && !lease.status.OrphanedLease?
  }

  ghost predicate LeaseOrphaned(now: nat, before: Lease, after: Lease) {
    after == before.(status := OrphanedLease, lifecycle := Orphaned, attention := Some(UnknownWait), lastSeenAt := now)
  }

  /** The leases among the first `n` that the controller owned are orphaned and the open entries of their
      runs have caught up; all else is as it was. */
  ghost predicate OrphanedUpTo(controllerId: ControllerId, now: nat, s: State, n: nat, t: State)
    requires n <= |s.runs|
  {
    && |t.runs| == |s.runs| && |t.history| == |s.history|
    && (forall k | 0 <= k < n ::
          if Owns(controllerId, s.runs[k]) then LeaseOrphaned(now, s.runs[k], t.runs[k]) else t.runs[k] == s.runs[k])
    && (forall k | n <= k < |s.runs| :: t.runs[k] == s.runs[k])
    && (forall q | 0 <= q < |s.history| ::
          CatchesUp((lease: Lease) => Owns(controllerId, lease), s.runs[..n], s.history[q], t.history[q]))
    && t.sessionId == s.sessionId && t.status == s.status && t.other == s.other && t.updatedAt == s.updatedAt
  }

  /** Orphaning one run: its lease, and its open entry, and nothing else. */
  lemma MarkIs(s: State, k: nat, now: nat)
    requires DistinctRunIds(s.runs) && k < |s.runs|
    ensures var lease := s.runs[k]; var t := MarkLeaseOrphaned(s, lease.runId, now);
      && |t.runs| == |s.runs| && |t.history| == |s.history|
      && LeaseOrphaned(now, lease, t.runs[k]) && (forall j | 0 <= j < |s.runs| && j != k :: t.runs[j] == s.runs[j])
      && (forall q | 0 <= q < |s.history| :: t.history[q] ==
            (if s.history[q].id == Some(lease.runId) && s.history[q].endedAt.None?
             then OrphanedRunOf(s.history[q], Some(lease)) else s.history[q]))
      && t.sessionId == s.sessionId && t.status == s.status && t.other == s.other && t.updatedAt == s.updatedAt
  {
    FindsOwnLease(s.runs, k);
    hide FindLease, OrphanedRunOf;
  }

  lemma OrphanOneMore(controllerId: ControllerId, now: nat, s: State, n: nat, t: State)
    requires DistinctRunIds(s.runs) && n < |s.runs| && OrphanedUpTo(controllerId, now, s, n, t)
    ensures OrphanedUpTo(controllerId, now, s, n + 1,
                         if Owns(controllerId, s.runs[n]) then MarkLeaseOrphaned(t, s.runs[n].runId, now) else t)
  {
    var lease := s.runs[n];
    var u := if Owns(controllerId, lease) then MarkLeaseOrphaned(t, lease.runId, now) else t;
    assert forall k | 0 <= k < |s.runs| :: t.runs[k].runId == s.runs[k].runId;
    MarkIs(t, n, now);
    assert s.runs[..n + 1] == s.runs[..n] + [lease];
    assert forall k | 0 <= k < n :: s.runs[..n][k] == s.runs[k];
    hide MarkLeaseOrphaned, Owns, CatchesUp, OrphanedRunOf;
    forall q | 0 <= q < |s.history|
      ensures CatchesUp((lease: Lease) => Owns(controllerId, lease), s.runs[..n + 1], s.history[q], u.history[q])
    {
      RunGoesOn((lease: Lease) => Owns(controllerId, lease), s.runs[..n], lease, s.history[q], t.history[q], u.history[q]);
    }
  }

  lemma {:induction false} OrphanEachIs(controllerId: ControllerId, now: nat, s: State, n: nat)
    requires DistinctRunIds(s.runs) && n <= |s.runs|
    ensures OrphanedUpTo(controllerId, now, s, n, OrphanEach(s.runs[..n], controllerId, now, s))
  {
    if n == 0 {
      assert s.runs[..0] == [];
    } else {
      assert s.runs[..n][..n - 1] == s.runs[..n - 1];
      OrphanEachIs(controllerId, now, s, n - 1);
      OrphanOneMore(controllerId, now, s, n - 1, OrphanEach(s.runs[..n - 1], controllerId, now, s));
      hide OrphanedUpTo, MarkLeaseOrphaned;
    }
  }

  /** A controller that leaves orphans exactly the leases it owns, and writes nothing if it owns none. */
  lemma OrphanOwnedExplained(env: Env, controllerId: ControllerId, now: nat, s: State)
    requires Inv(env, s)
    ensures var m := Mutate(env, OrphanOwned(controllerId, now), s);
      && !m.Throws?
      && (m.Same? <==> forall k | 0 <= k < |s.runs| :: !Owns(controllerId, s.runs[k]))
      && (m.Changed? ==> OrphanedUpTo(controllerId, now, s, |s.runs|, m.content))
  {
    assert DistinctRunIds(s.runs);
    OrphanEachIs(controllerId, now, s, |s.runs|);
    assert s.runs[..|s.runs|] == s.runs;
    hide Inv, OrphanEach, OrphanedUpTo, DistinctRunIds;
  }

  // ---------------------------------------------------------------- recovering

  ghost predicate RunInterrupted(now: nat, before: Run, after: Run) {
    after == before.(endedAt := Some(now), exitCode := None, exitReason := Some(Interrupted))
  }

  /** Recovering an orphaned run ends its open entry now and releases its lease; a run whose lease is not
      orphaned is left alone. */
  lemma RecoverOrphanedExplained(env: Env, runId: string, now: nat, s: State, k: nat)
    requires Inv(env, s) && k < |s.runs| && s.runs[k].runId == runId
    ensures var m := Mutate(env, RecoverOrphaned(runId, now), s);
      && (m.Throws? <==> !s.runs[k].status.OrphanedLease?)
      && (!m.Throws? ==>
            && m.Changed? && OnlyRuns(s, m.content) && m.content.updatedAt == now
            && Released(s.runs, m.content.runs, runId) && |m.content.history| == |s.history|
            && (forall q | 0 <= q < |s.history| ::
                  if s.history[q].id == Some(runId) && s.history[q].endedAt.None?
                  then RunInterrupted(now, s.history[q], m.content.history[q])
                  else m.content.history[q] == s.history[q]))
  {
    LeaseOf(env, s, runId);
    assert DistinctRunIds(s.runs);
    var history := MapRuns(s.history, (run: Run) =>
      if run.id == Some(runId) && run.endedAt.None? then InterruptedRun(run, now) else run);
    ReleaseIs(s.(history := history, updatedAt := now), runId);
    hide Inv, FindLease, Without, Released, ReleaseLease;
  }

  /** The run that a forced recovery closes: the one of the first lease, or with no lease the last open
      one. */
  ghost predicate IsStaleRun(s: State, q: nat) {
    && q < |s.history| && s.history[q].endedAt.None?
    && (s.runs != [] ==> s.history[q].id == Some(s.runs[0].runId))
    && (s.runs == [] ==> forall j | q < j < |s.history| :: s.history[j].endedAt.Some?)
  }

  lemma {:induction false} OpenWithIdIs(history: seq<Run>, id: string, from: nat, q: nat)
    requires from <= q < |history| && history[q].id == Some(id) && history[q].endedAt.None?
    requires forall j | 0 <= j < |history| && j != q :: history[j].id != Some(id)
    ensures FirstOpenWithId(history, id, from) == q
    decreases |history| - from
  {
    if from < q {
      OpenWithIdIs(history, id, from + 1, q);
    }
  }

  ghost predicate OpenFor(run: Run, agent: Option<string>) {
    run.endedAt.None? && (agent.Some? ==> run.agent == agent.value)
  }

  lemma {:induction false} LastOpenIs(history: seq<Run>, agent: Option<string>, upTo: nat)
    requires upTo <= |history|
    ensures var q := LastOpen(history, agent, upTo);
      && (q < 0 <==> forall j | 0 <= j < upTo :: !OpenFor(history[j], agent))
      && (q >= 0 ==> q < upTo && OpenFor(history[q], agent) && forall j | q < j < upTo :: !OpenFor(history[j], agent))
  {
    if upTo > 0 && !OpenFor(history[upTo - 1], agent) {
      LastOpenIs(history, agent, upTo - 1);
    }
  }

  lemma StaleRunIs(env: Env, s: State)
    requires Inv(env, s)
    ensures StaleIndex(s) >= 0 ==> IsStaleRun(s, StaleIndex(s))
    ensures StaleIndex(s) < 0 <==> s.runs == [] && forall j | 0 <= j < |s.history| :: s.history[j].endedAt.Some?
  {
    assert Mirrors(s) && HistoryIds(s.history);
    if s.runs != [] {
      var q := OpenEntryOf(env, s, 0);
      assert forall j | 0 <= j < |s.history| && j != q :: s.history[j].id != Some(s.runs[0].runId);
      OpenWithIdIs(s.history, s.runs[0].runId, 0, q);
    } else {
      LastOpenIs(s.history, None, |s.history|);
    }
    hide Inv, FirstOpenWithId, LastOpen;
  }

  /** A forced recovery does nothing exactly when there is neither a lease nor an open run; else it ends
      one run, and releases that run's lease. */
  lemma RecoverStaleExplained(env: Env, now: nat, s: State) returns (q: nat)
    requires Inv(env, s)
    ensures var m := Mutate(env, RecoverStale(now), s);
      && !m.Throws?
      && (m.Same? <==> s.runs == [] && forall j | 0 <= j < |s.history| :: s.history[j].endedAt.Some?)
      && (m.Changed? ==>
            && IsStaleRun(s, q) && s.history[q].id.Some?
            && OnlyRuns(s, m.content) && m.content.updatedAt == now
            && Released(s.runs, m.content.runs, s.history[q].id.value)
            && |m.content.history| == |s.history| && RunInterrupted(now, s.history[q], m.content.history[q])
            && (forall j | 0 <= j < |s.history| && j != q :: m.content.history[j] == s.history[j]))
  {
    StaleRunIs(env, s);
    assert Mirrors(s) && DistinctRunIds(s.runs) && forall k | 0 <= k < |s.history| :: s.history[k].id.Some?;
    hide Inv, DistinctRunIds;
    q := 0;
    if StaleIndex(s) >= 0 {
      q := StaleIndex(s);
      ReleaseIs(s.(history := s.history[q := InterruptedRun(s.history[q], now)], updatedAt := now), s.history[q].id.value);
    }
    hide StaleIndex, ReleaseLease, Released;
  }

  // ---------------------------------------------------------------- finishing and replacing the task

  /** A task can be finished exactly when no run holds a lease; a new one can take its place exactly when
      it is closed and no run holds a lease, and starts empty. */
  lemma TaskChangesExplained(env: Env, s: State, now: nat, sessionId: string)
    ensures var m := Mutate(env, Finish(now), s);
      && (m.Throws? <==> s.runs != [])
      && (!m.Throws? ==> m == Store.Changed(s.(status := CompletedTask, updatedAt := now)))
    ensures var t := ReplaceTask(StartTask(sessionId, now), Some(s));
      && (t.Some? <==> Closed(s) && s.runs == [])
      && (t.Some? ==>
            && t.value.sessionId == sessionId && t.value.status.ActiveTask? && t.value.updatedAt == now
            && t.value.runs == [] && t.value.history == [] && t.value.currentAgent.None? && t.value.currentRunId.None?)
    ensures ReplaceTask(StartTask(sessionId, now), None).Some?
  {
  }

  /** What is archived of a task: a closed one without leases has every open run ended as interrupted when
      the task was last updated, and names no current run; any other one is archived as it is, which a
      replacement allows only for a closed one. */
  lemma ArchivingExplained(env: Env, s: State)
    ensures Machine(env).closed(s) <==> Closed(s)
    ensures var t := Machine(env).normalize(s);
      && (!Closed(s) || s.runs != [] ==> t == s)
      && (Closed(s) && s.runs == [] ==>
            && t.currentAgent.None? && t.currentRunId.None? && |t.history| == |s.history|
            && t == s.(currentAgent := None, currentRunId := None, history := t.history)
            && forall k | 0 <= k < |s.history| ::
                 && (s.history[k].endedAt.Some? ==> t.history[k] == s.history[k])
                 && (s.history[k].endedAt.None? ==> RunInterrupted(s.updatedAt, s.history[k], t.history[k])))
  {
    hide Mutate, ReplaceTask;
  }
}
