/** What every interleaving of the run mutators keeps: one writer per worktree, a lease exactly
    for each unfinished run, mirrors that follow the first lease, ends that are set once, and
    observations that never take a lease backwards. */
module RunSafety {
  import opened Wrappers
  import opened TaskState
  import opened Leases
  import opened RunMachine
  import Store = SerialStore

  /** No two runs are given the same terminal. The program does not enforce this. */
  ghost predicate UnsharedTerminals(env: Env) {
    forall r, r' :: env.terminalOf(r).Some? && env.terminalOf(r) == env.terminalOf(r') ==> r == r'
  }

  // ---------------------------------------------------------------- the invariant

  /** Leases have pairwise distinct run ids and pairwise distinct canonical worktrees. */
  ghost predicate Distinct(env: Env, runs: seq<Lease>) {
    forall j, k | 0 <= j < k < |runs| ::
      runs[j].runId != runs[k].runId && env.resolve(runs[j].worktree) != env.resolve(runs[k].worktree)
  }

  /** The compatibility mirrors name the first lease. */
  ghost predicate Mirrors(s: State) {
    s == WithDerivedFields(s)
  }

  ghost predicate HistoryIds(history: seq<Run>) {
    && (forall k | 0 <= k < |history| :: history[k].id.Some?)
    && (forall j, k | 0 <= j < k < |history| :: history[j].id != history[k].id)
  }

  ghost function LeaseIds(runs: seq<Lease>): set<Option<string>> {
    set k | 0 <= k < |runs| :: Some(runs[k].runId)
  }

  ghost function OpenIds(history: seq<Run>): set<Option<string>> {
    set k | 0 <= k < |history| && history[k].endedAt.None? :: history[k].id
  }

  ghost predicate Terminals(env: Env, s: State) {
    && (forall k | 0 <= k < |s.runs| :: s.runs[k].terminalId == env.terminalOf(s.runs[k].runId))
    && (forall k | 0 <= k < |s.history| && s.history[k].id.Some? ::
          s.history[k].terminalId == env.terminalOf(s.history[k].id.value))
  }

  /** Status and lifecycle of a lease say the same. */
  ghost predicate Consistent(lease: Lease) {
    match lease.status
    case StartingLease => lease.lifecycle == Starting
    case RunningLease => lease.lifecycle == Working
    case WaitingLease => lease.lifecycle == NeedsPermission || lease.lifecycle == WaitingForInput
    case StoppingLease => lease.lifecycle == Stopping
    case OrphanedLease => lease.lifecycle == Orphaned
  }

  ghost predicate LeasesConsistent(runs: seq<Lease>) {
    forall k | 0 <= k < |runs| :: Consistent(runs[k])
  }

  /** The history has seen at least what the lease has seen. */
  ghost predicate Sequences(s: State) {
    forall j, k | 0 <= j < |s.runs| && 0 <= k < |s.history| && s.history[k].id == Some(s.runs[j].runId) ::
      s.runs[j].sequence <= s.history[k].sequence.GetOr(0)
  }

  /** What holds whether or not terminals are shared: among others, a leased run is unfinished. */
  ghost predicate Inv(env: Env, s: State) {
    && Distinct(env, s.runs)
    && Mirrors(s)
    && HistoryIds(s.history)
    && LeaseIds(s.runs) <= OpenIds(s.history)
    && Terminals(env, s)
    && LeasesConsistent(s.runs)
    && Sequences(s)
  }

  /** The other half: every unfinished run has its lease. */
  ghost predicate InStep(s: State) {
    OpenIds(s.history) <= LeaseIds(s.runs)
  }

  // ---------------------------------------------------------------- progress between two states

  ghost predicate LeaseForward(before: Lease, after: Lease) {
    && before.sequence <= after.sequence
    && before.seconds <= after.seconds
    && (Settled(before.status) ==> Settled(after.status))
  }

  /** From `s` to `t`, within one task: history only grows, ends once set stay, leases move forward,
      and a run that the history already has never gains a lease. */
  ghost predicate Forward(s: State, t: State) {
    && t.sessionId == s.sessionId
    && |s.history| <= |t.history|
    && (forall k | 0 <= k < |s.history| ::
          && t.history[k].id == s.history[k].id
          && (s.history[k].endedAt.Some? ==> t.history[k].endedAt == s.history[k].endedAt))
    && (forall j, k | 0 <= j < |s.runs| && 0 <= k < |t.runs| && s.runs[j].runId == t.runs[k].runId ::
          LeaseForward(s.runs[j], t.runs[k]))
    && (forall k | 0 <= k < |t.runs| && HasRun(s.history, t.runs[k].runId) :: HasLease(s.runs, t.runs[k].runId))
  }

  ghost predicate Keeps(env: Env, s: State, t: State) {
    Inv(env, t) && Forward(s, t) && (InStep(s) ==> InStep(t))
  }

  // ---------------------------------------------------------------- rewriting in place

  ghost predicate SameClaim(before: Lease, after: Lease) {
    && after.runId == before.runId && after.worktree == before.worktree
    && after.agent == before.agent && after.terminalId == before.terminalId
    && (Consistent(before) ==> Consistent(after))
    && LeaseForward(before, after)
  }

  ghost predicate SameRun(before: Run, after: Run) {
    && after.id == before.id && after.terminalId == before.terminalId && after.endedAt == before.endedAt
  }

  /** `t` is `s` with leases and history entries rewritten in place, none added, ended or dropped. */
  ghost predicate Rewritten(s: State, t: State) {
    && t.sessionId == s.sessionId && t.currentAgent == s.currentAgent && t.currentRunId == s.currentRunId
    && |t.runs| == |s.runs| && |t.history| == |s.history|
    && (forall k | 0 <= k < |s.runs| :: SameClaim(s.runs[k], t.runs[k]))
    && (forall k | 0 <= k < |s.history| :: SameRun(s.history[k], t.history[k]))
  }

  lemma RewritingKeepsInv(env: Env, s: State, t: State)
    requires Inv(env, s) && Rewritten(s, t) && Sequences(t)
    ensures Keeps(env, s, t)
  {
    assert LeaseIds(t.runs) == LeaseIds(s.runs);
    assert OpenIds(t.history) == OpenIds(s.history);
    forall k | 0 <= k < |t.runs| ensures HasLease(s.runs, t.runs[k].runId) {
      assert SameClaim(s.runs[k], t.runs[k]);
    }
    forall j, k | 0 <= j < |s.runs| && 0 <= k < |t.runs| && s.runs[j].runId == t.runs[k].runId
      ensures LeaseForward(s.runs[j], t.runs[k])
    {
      assert SameClaim(s.runs[k], t.runs[k]);
      assert j == k;
    }
  }

  // ---------------------------------------------------------------- releasing

  lemma {:induction false} WithoutMembers(runs: seq<Lease>, runId: string)
    ensures forall lease :: lease in Without(runs, runId) <==> lease in runs && lease.runId != runId
  {
    if runs != [] {
      WithoutMembers(runs[1..], runId);
    }
  }

  lemma {:induction false} WithoutStaysDistinct(env: Env, runs: seq<Lease>, runId: string)
    requires Distinct(env, runs)
    ensures Distinct(env, Without(runs, runId))
  {
    if runs != [] {
      WithoutStaysDistinct(env, runs[1..], runId);
      WithoutMembers(runs[1..], runId);
      var rest := Without(runs[1..], runId);
      forall k | 0 <= k < |rest|
        ensures rest[k].runId != runs[0].runId && env.resolve(rest[k].worktree) != env.resolve(runs[0].worktree)
      {
        assert rest[k] in runs[1..];
      }
    }
  }

  /** In `history` nothing has changed from `s` except possibly the entry of the run `runId`, which
      keeps its end if it had one. */
  ghost predicate TouchesOnly(s: State, history: seq<Run>, runId: string) {
    && |history| == |s.history|
    && (forall k | 0 <= k < |s.history| ::
          && history[k].id == s.history[k].id && history[k].terminalId == s.history[k].terminalId
          && (s.history[k].id != Some(runId) ==> history[k] == s.history[k])
          && (s.history[k].endedAt.Some? ==> history[k].endedAt == s.history[k].endedAt))
  }

  /** The run has come to its end. */
  ghost predicate HasEnded(history: seq<Run>, runId: string) {
    forall k | 0 <= k < |history| && history[k].id == Some(runId) :: history[k].endedAt.Some?
  }

  lemma ReleasedLeases(env: Env, s: State, t: State, runId: string)
    requires Distinct(env, s.runs) && LeasesConsistent(s.runs) && t.runs == Without(s.runs, runId)
    ensures Distinct(env, t.runs) && LeasesConsistent(t.runs)
    ensures forall k | 0 <= k < |t.runs| :: t.runs[k] in s.runs && t.runs[k].runId != runId
    ensures forall j, k | 0 <= j < |s.runs| && 0 <= k < |t.runs| && s.runs[j].runId == t.runs[k].runId :: s.runs[j] == t.runs[k]
  {
    WithoutMembers(s.runs, runId);
    WithoutStaysDistinct(env, s.runs, runId);
    hide Without, Consistent;
    forall k | 0 <= k < |t.runs| ensures t.runs[k] in s.runs && t.runs[k].runId != runId {
      assert t.runs[k] in t.runs;
    }
  }

  lemma ReleasedTerminals(env: Env, s: State, t: State)
    requires Terminals(env, s) && |t.history| == |s.history|
    requires forall k | 0 <= k < |t.runs| :: t.runs[k] in s.runs
    requires forall k | 0 <= k < |s.history| :: t.history[k].id == s.history[k].id && t.history[k].terminalId == s.history[k].terminalId
    ensures Terminals(env, t)
  {
  }

  lemma ReleasedSequences(s: State, t: State, runId: string)
    requires Sequences(s) && TouchesOnly(s, t.history, runId)
    requires forall k | 0 <= k < |t.runs| :: t.runs[k] in s.runs && t.runs[k].runId != runId
    ensures Sequences(t)
  {
    forall j, k | 0 <= j < |t.runs| && 0 <= k < |t.history| && t.history[k].id == Some(t.runs[j].runId)
      ensures t.runs[j].sequence <= t.history[k].sequence.GetOr(0)
    {
      assert t.runs[j] in s.runs;
      assert t.history[k] == s.history[k];
    }
  }

  /** Releasing a lease, with at most that run's entry changed, keeps everything but the step of
      leases and unfinished runs; that one is kept if the run has ended. */
  lemma ReleaseKeepsInv(env: Env, s: State, history: seq<Run>, runId: string, updatedAt: nat)
    requires Inv(env, s) && TouchesOnly(s, history, runId)
    ensures var t := ReleaseLease(s.(history := history, updatedAt := updatedAt), runId);
      Inv(env, t) && Forward(s, t) && (HasEnded(history, runId) && InStep(s) ==> InStep(t))
  {
    var t := ReleaseLease(s.(history := history, updatedAt := updatedAt), runId);
    assert t.runs == Without(s.runs, runId) && t.history == history;
    ReleasedLeases(env, s, t, runId);
    ReleasedTerminals(env, s, t);
    ReleasedSequences(s, t, runId);
    ReleasedIdsMatch(s, history, runId);
    hide Without, LeaseIds, OpenIds, Terminals, Sequences, LeasesConsistent, Distinct, HasEnded;
    assert HistoryIds(t.history);
    assert Mirrors(t);
    forall k | 0 <= k < |t.runs| ensures HasLease(s.runs, t.runs[k].runId) {
      assert t.runs[k] in s.runs;
    }
    assert Forward(s, t);
  }

  lemma ReleasedIdsMatch(s: State, history: seq<Run>, runId: string)
    requires LeaseIds(s.runs) <= OpenIds(s.history) && TouchesOnly(s, history, runId)
    ensures LeaseIds(Without(s.runs, runId)) <= OpenIds(history)
    ensures HasEnded(history, runId) && InStep(s) ==> OpenIds(history) <= LeaseIds(Without(s.runs, runId))
  {
    LeaseIdsWithout(s.runs, runId);
    OpenIdsWithout(s, history, runId);
  }

  lemma LeaseIdsWithout(runs: seq<Lease>, runId: string)
    ensures LeaseIds(Without(runs, runId)) == LeaseIds(runs) - {Some(runId)}
  {
    WithoutMembers(runs, runId);
    var kept := Without(runs, runId);
    forall id ensures id in LeaseIds(kept) <==> id in LeaseIds(runs) && id != Some(runId) {
      if id in LeaseIds(kept) {
        var j :| 0 <= j < |kept| && Some(kept[j].runId) == id;
        assert kept[j] in runs;
      }
      if id in LeaseIds(runs) && id != Some(runId) {
        var j :| 0 <= j < |runs| && Some(runs[j].runId) == id;
        assert runs[j] in kept;
      }
    }
  }

  lemma OpenIdsWithout(s: State, history: seq<Run>, runId: string)
    requires TouchesOnly(s, history, runId)
    ensures OpenIds(history) - {Some(runId)} == OpenIds(s.history) - {Some(runId)}
    ensures HasEnded(history, runId) ==> Some(runId) !in OpenIds(history)
  {
    forall id | id != Some(runId) ensures id in OpenIds(history) <==> id in OpenIds(s.history) {
      if id in OpenIds(s.history) {
        var k :| 0 <= k < |history| && s.history[k].endedAt.None? && s.history[k].id == id;
        assert history[k] == s.history[k];
      }
    }
  }

  // ---------------------------------------------------------------- forward steps compose

  lemma ForwardReflexive(env: Env, s: State)
    requires Inv(env, s)
    ensures Forward(s, s)
  {
  }

  /** Changes outside leases and history are none of the invariant's business. */
  lemma EditKeeps(env: Env, s: State, t: State)
    requires Inv(env, s) && t == s.(status := t.status, other := t.other, updatedAt := t.updatedAt)
    ensures Keeps(env, s, t)
  {
    ForwardReflexive(env, s);
  }

  /** A run with a lease has exactly one history entry, and that entry is open. */
  lemma LeasedRunIsOpen(env: Env, s: State, j: nat, k: nat)
    requires Inv(env, s) && j < |s.runs| && k < |s.history| && s.history[k].id == Some(s.runs[j].runId)
    ensures s.history[k].endedAt.None?
  {
    assert Some(s.runs[j].runId) in LeaseIds(s.runs);
    var q :| 0 <= q < |s.history| && s.history[q].endedAt.None? && s.history[q].id == Some(s.runs[j].runId);
    assert q == k;
  }

  lemma OpenEntryOf(env: Env, s: State, j: nat) returns (k: nat)
    requires Inv(env, s) && j < |s.runs|
    ensures k < |s.history| && s.history[k].id == Some(s.runs[j].runId) && s.history[k].endedAt.None?
  {
    assert Some(s.runs[j].runId) in LeaseIds(s.runs);
    k :| 0 <= k < |s.history| && s.history[k].endedAt.None? && s.history[k].id == Some(s.runs[j].runId);
  }

  /** A lease that is there before and after was there in between: a released run never gets its
      lease back. */
  lemma LeaseInBetween(env: Env, s: State, t: State, u: State, j: nat, k: nat) returns (m: nat)
    requires Inv(env, s) && Forward(s, t) && Forward(t, u)
    requires j < |s.runs| && k < |u.runs| && s.runs[j].runId == u.runs[k].runId
    ensures m < |t.runs| && t.runs[m].runId == s.runs[j].runId
  {
    var p := OpenEntryOf(env, s, j);
    assert t.history[p].id == Some(u.runs[k].runId);
    assert HasRun(t.history, u.runs[k].runId);
    m :| 0 <= m < |t.runs| && t.runs[m].runId == u.runs[k].runId;
  }

  lemma ForwardTransitive(env: Env, s: State, t: State, u: State)
    requires Inv(env, s) && Forward(s, t) && Forward(t, u)
    ensures Forward(s, u)
  {
    forall j, k | 0 <= j < |s.runs| && 0 <= k < |u.runs| && s.runs[j].runId == u.runs[k].runId
      ensures LeaseForward(s.runs[j], u.runs[k])
    {
      var m := LeaseInBetween(env, s, t, u, j, k);
      assert LeaseForward(s.runs[j], t.runs[m]) && LeaseForward(t.runs[m], u.runs[k]);
    }
    forall k | 0 <= k < |u.runs| && HasRun(s.history, u.runs[k].runId) ensures HasLease(s.runs, u.runs[k].runId) {
      var p :| 0 <= p < |s.history| && s.history[p].id == Some(u.runs[k].runId);
      assert t.history[p].id == Some(u.runs[k].runId);
      assert HasRun(t.history, u.runs[k].runId);
      var m :| 0 <= m < |t.runs| && t.runs[m].runId == u.runs[k].runId;
      assert HasRun(s.history, t.runs[m].runId);
    }
  }

  lemma KeepsTransitive(env: Env, s: State, t: State, u: State)
    requires Inv(env, s) && Keeps(env, s, t) && Keeps(env, t, u)
    ensures Keeps(env, s, u)
  {
    hide Inv, Forward, InStep;
    ForwardTransitive(env, s, t, u);
  }

  // ---------------------------------------------------------------- each mutator

  lemma {:induction false} FoundByTerminal(runs: seq<Lease>, terminalId: string)
    ensures var lease := FindLeaseByTerminal(runs, terminalId);
      && (lease.Some? ==> lease.value in runs && lease.value.terminalId == Some(terminalId))
      && (lease.None? ==> forall k | 0 <= k < |runs| :: runs[k].terminalId != Some(terminalId))
  {
    if runs != [] {
      FoundByTerminal(runs[1..], terminalId);
    }
  }

  lemma {:induction false} FoundRun(history: seq<Run>, id: Option<string>)
    ensures var run := FindRun(history, id);
      && (run.Some? ==> run.value in history && run.value.id == id)
      && (run.None? ==> forall k | 0 <= k < |history| :: history[k].id != id)
  {
    if history != [] {
      FoundRun(history[1..], id);
    }
  }

  lemma {:induction false} FoundTerminalRun(history: seq<Run>, terminalId: string, leaseRunId: Option<string>)
    ensures var run := FindTerminalRun(history, terminalId, leaseRunId);
      run.Some? ==> run.value in history && (run.value.terminalId == Some(terminalId) || run.value.id == leaseRunId)
  {
    if history != [] {
      FoundTerminalRun(history[1..], terminalId, leaseRunId);
    }
  }

  lemma {:induction false} FreeWorktree(resolve: string -> string, runs: seq<Lease>, worktree: string)
    ensures var lease := LeaseForWorktree(resolve, runs, worktree);
      && (lease.Some? ==> lease.value in runs && resolve(lease.value.worktree) == resolve(worktree))
      && (lease.None? ==> forall k | 0 <= k < |runs| :: resolve(runs[k].worktree) != resolve(worktree))
  {
    if runs != [] {
      FreeWorktree(resolve, runs[1..], worktree);
    }
  }

  lemma LeaseIdsGrow(runs: seq<Lease>, lease: Lease)
    ensures LeaseIds(runs + [lease]) == LeaseIds(runs) + {Some(lease.runId)}
  {
    var longer := runs + [lease];
    forall id | id in LeaseIds(runs) ensures id in LeaseIds(longer) {
      var j :| 0 <= j < |runs| && Some(runs[j].runId) == id;
      assert longer[j] == runs[j];
    }
    assert longer[|runs|] == lease;
  }

  lemma OpenIdsGrow(history: seq<Run>, run: Run)
    ensures OpenIds(history + [run]) == OpenIds(history) + if run.endedAt.None? then {run.id} else {}
  {
    var longer := history + [run];
    forall id | id in OpenIds(history) ensures id in OpenIds(longer) {
      var j :| 0 <= j < |history| && history[j].endedAt.None? && history[j].id == id;
      assert longer[j] == history[j];
    }
    assert longer[|history|] == run;
  }

  /** A run that the history does not have yet has no lease either. */
  lemma UnknownRunHasNoLease(env: Env, s: State, runId: string)
    requires Inv(env, s) && !HasRun(s.history, runId)
    ensures forall k | 0 <= k < |s.runs| :: s.runs[k].runId != runId
  {
    forall k | 0 <= k < |s.runs| ensures s.runs[k].runId != runId {
      var q := OpenEntryOf(env, s, k);
    }
  }

  /** Adding a run and its lease together. */
  lemma OpeningKeepsInv(env: Env, s: State, run: Run, lease: Lease)
    requires Inv(env, s)
    requires run.id == Some(lease.runId) && run.endedAt.None? && !HasRun(s.history, lease.runId)
    requires run.terminalId == lease.terminalId == env.terminalOf(lease.runId)
    requires Consistent(lease) && lease.sequence <= run.sequence.GetOr(0)
    requires forall k | 0 <= k < |s.runs| :: env.resolve(s.runs[k].worktree) != env.resolve(lease.worktree)
    ensures var t := WithDerivedFields(s.(runs := s.runs + [lease], history := s.history + [run]));
      Keeps(env, s, t)
  {
    var t := WithDerivedFields(s.(runs := s.runs + [lease], history := s.history + [run]));
    UnknownRunHasNoLease(env, s, lease.runId);
    LeaseIdsGrow(s.runs, lease);
    OpenIdsGrow(s.history, run);
    assert HistoryIds(t.history);
    assert Distinct(env, t.runs);
    OpeningKeepsSequences(env, s, run, lease);
    hide Sequences, LeaseIds, OpenIds;
  }

  lemma OpeningKeepsSequences(env: Env, s: State, run: Run, lease: Lease)
    requires Inv(env, s) && run.id == Some(lease.runId) && !HasRun(s.history, lease.runId)
    requires lease.sequence <= run.sequence.GetOr(0)
    ensures Sequences(WithDerivedFields(s.(runs := s.runs + [lease], history := s.history + [run])))
  {
    var t := WithDerivedFields(s.(runs := s.runs + [lease], history := s.history + [run]));
    UnknownRunHasNoLease(env, s, lease.runId);
    forall j, k | 0 <= j < |t.runs| && 0 <= k < |t.history| && t.history[k].id == Some(t.runs[j].runId)
      ensures t.runs[j].sequence <= t.history[k].sequence.GetOr(0)
    {
      assert j < |s.runs| <==> k < |s.history|;
    }
  }

  lemma LaunchKeeps(env: Env, a: Action, s: State)
    requires Inv(env, s) && a.Launch?
    ensures var m := MutateLaunch(env, a, s); m.Changed? ==> Keeps(env, s, m.content)
  {
    var runId := env.runIdFor(a.sessionId, a.operationId);
    var lease := LaunchedLease(env, a);
    var run := LaunchedRun(env, runId, a.agent, a.displayLabel);
    if MutateLaunch(env, a, s).Changed? {
      UnknownRunHasNoLease(env, s, runId);
      FreeWorktree(env.resolve, s.runs, a.worktree);
      OpeningKeepsInv(env, s, run, lease);
    }
  }

  lemma ObservationKeepsClaim(a: Action, lease: Lease)
    requires a.Observe?
    ensures SameClaim(lease, ObservedLease(a, lease))
  {
  }

  lemma ObservationKeepsRun(a: Action, run: Run)
    requires a.Observe?
    ensures SameRun(run, ObservedRun(a, run))
  {
  }

  /** One observation reaches an open run and its lease alike, so the history stays ahead. */
  lemma ObservationKeepsSequence(a: Action, lease: Lease, run: Run)
    requires a.Observe? && run.terminalId == lease.terminalId && run.endedAt.None?
    requires lease.sequence <= run.sequence.GetOr(0)
    ensures ObservedLease(a, lease).sequence <= ObservedRun(a, run).sequence.GetOr(0)
  {
  }

  lemma ObserveKeeps(env: Env, a: Action, s: State)
    requires Inv(env, s) && a.Observe?
    ensures var m := MutateObserve(a, s); m.Changed? ==> Keeps(env, s, m.content)
  {
    var m := MutateObserve(a, s);
    if m.Changed? {
      var t := m.content;
      forall k | 0 <= k < |s.runs| ensures SameClaim(s.runs[k], t.runs[k]) {
        ObservationKeepsClaim(a, s.runs[k]);
      }
      forall k | 0 <= k < |s.history| ensures SameRun(s.history[k], t.history[k]) {
        ObservationKeepsRun(a, s.history[k]);
      }
      assert Rewritten(s, t);
      forall j, k | 0 <= j < |t.runs| && 0 <= k < |t.history| && t.history[k].id == Some(t.runs[j].runId)
        ensures t.runs[j].sequence <= t.history[k].sequence.GetOr(0)
      {
        assert SameClaim(s.runs[j], t.runs[j]) && SameRun(s.history[k], t.history[k]);
        LeasedRunIsOpen(env, s, j, k);
        ObservationKeepsSequence(a, s.runs[j], s.history[k]);
      }
      assert Sequences(t);
      RewritingKeepsInv(env, s, t);
    }
  }

  lemma OrphaningRewrites(s: State, runId: string, now: nat)
    requires Mirrors(s)
    ensures Rewritten(s, MarkLeaseOrphaned(s, runId, now))
  {
    hide FindLease;
  }

  /** An orphaned run's history entry catches up with the lease it was orphaned with. */
  lemma OrphaningKeepsSequences(env: Env, s: State, runId: string, now: nat)
    requires Inv(env, s)
    ensures Sequences(MarkLeaseOrphaned(s, runId, now))
  {
    hide Distinct, Terminals, LeasesConsistent, LeaseIds, OpenIds, FindLease;
    var t := MarkLeaseOrphaned(s, runId, now);
    forall j, k | 0 <= j < |t.runs| && 0 <= k < |t.history| && t.history[k].id == Some(t.runs[j].runId)
      ensures t.runs[j].sequence <= t.history[k].sequence.GetOr(0)
    {
      assert t.runs[j].sequence == s.runs[j].sequence && t.runs[j].runId == s.runs[j].runId;
      assert t.history[k].id == s.history[k].id;
    }
  }

  lemma OrphanKeeps(env: Env, s: State, runId: string, now: nat)
    requires Inv(env, s)
    ensures Keeps(env, s, MarkLeaseOrphaned(s, runId, now))
  {
    var t := MarkLeaseOrphaned(s, runId, now);
    OrphaningRewrites(s, runId, now);
    OrphaningKeepsSequences(env, s, runId, now);
    hide *;
    RewritingKeepsInv(env, s, t);
  }

  lemma {:induction false} OrphanEachKeeps(
    env: Env, s: State, leases: seq<Lease>, controllerId: ControllerId, now: nat)
    requires Inv(env, s)
    ensures var t := OrphanEach(leases, controllerId, now, s); Keeps(env, s, t)
  {
    if leases != [] {
      var n := |leases| - 1;
      OrphanEachKeeps(env, s, leases[..n], controllerId, now);
      var before := OrphanEach(leases[..n], controllerId, now, s);
      OrphanKeeps(env, before, leases[n].runId, now);
      KeepsTransitive(env, s, before, MarkLeaseOrphaned(before, leases[n].runId, now));
    }
  }

  lemma AdoptKeeps(env: Env, s: State, runId: string, inventory: Inventory, now: nat)
    requires Inv(env, s)
    ensures Keeps(env, s, Adopted(s, runId, inventory, now))
  {
    RewritingKeepsInv(env, s, Adopted(s, runId, inventory, now));
  }

  lemma {:induction false} ReconcileKeeps(env: Env, s: State, evidence: Evidence, leases: seq<Lease>, now: nat)
    requires Inv(env, s)
    ensures var t := ReconcileEach(evidence, leases, now, s); Keeps(env, s, t)
  {
    if leases != [] {
      var n := |leases| - 1;
      ReconcileKeeps(env, s, evidence, leases[..n], now);
      var before := ReconcileEach(evidence, leases[..n], now, s);
      match Judge(evidence, leases[n])
      case Adopt =>
        AdoptKeeps(env, before, leases[n].runId, evidence.inventory.value, now);
        KeepsTransitive(env, s, before, Adopted(before, leases[n].runId, evidence.inventory.value, now));
      case OrphanIt(_) =>
        OrphanKeeps(env, before, leases[n].runId, now);
        KeepsTransitive(env, s, before, MarkLeaseOrphaned(before, leases[n].runId, now));
      case _ =>
    }
  }

  /** Rewriting leases without their sequences or statuses, and labels of runs, keeps everything. */
  ghost predicate Relabelled(s: State, t: State) {
    && Rewritten(s, t)
    && (forall k | 0 <= k < |s.runs| :: t.runs[k].sequence == s.runs[k].sequence)
    && (forall k | 0 <= k < |s.history| :: t.history[k].sequence == s.history[k].sequence)
  }

  lemma RelabellingKeeps(env: Env, s: State, t: State)
    requires Inv(env, s) && Relabelled(s, t)
    ensures Keeps(env, s, t)
  {
    assert Sequences(t) by {
      hide Consistent, LeaseForward, Distinct, Mirrors, LeaseIds, OpenIds, Terminals, LeasesConsistent;
      forall j, k | 0 <= j < |t.runs| && 0 <= k < |t.history| && t.history[k].id == Some(t.runs[j].runId)
        ensures t.runs[j].sequence <= t.history[k].sequence.GetOr(0)
      {
        assert SameClaim(s.runs[j], t.runs[j]) && SameRun(s.history[k], t.history[k]);
      }
    }
    hide Inv, Keeps;
    RewritingKeepsInv(env, s, t);
  }

  lemma RegisterKeeps(env: Env, s: State, terminalId: string, bridge: Bridge)
    requires Inv(env, s)
    ensures var m := MutateRegister(terminalId, bridge, s); m.Changed? ==> Keeps(env, s, m.content)
  {
    hide Inv, Keeps;
    var m := MutateRegister(terminalId, bridge, s);
    if m.Changed? {
      RelabellingKeeps(env, s, m.content);
    }
  }

  lemma TouchKeeps(env: Env, s: State, controllerId: ControllerId, now: nat)
    requires Inv(env, s)
    ensures var m := MutateTouch(controllerId, now, s); m.Changed? ==> Keeps(env, s, m.content)
  {
    hide Inv, Keeps;
    var m := MutateTouch(controllerId, now, s);
    if m.Changed? {
      RelabellingKeeps(env, s, m.content);
    }
  }

  lemma BidKeeps(env: Env, s: State, runId: string, bid: Bid)
    requires Inv(env, s)
    ensures var m := MutateBid(runId, bid, s); m.Changed? ==> Keeps(env, s, m.content)
  {
    hide Inv, Keeps, FindLease;
    var m := MutateBid(runId, bid, s);
    if m.Changed? {
      RelabellingKeeps(env, s, m.content);
    }
  }

  lemma RenameKeeps(env: Env, s: State, runId: string, displayLabel: string)
    requires Inv(env, s)
    ensures var m := MutateRename(runId, displayLabel, s); m.Changed? ==> Keeps(env, s, m.content)
  {
    hide Inv, Keeps;
    var m := MutateRename(runId, displayLabel, s);
    if m.Changed? {
      RelabellingKeeps(env, s, m.content);
    }
  }

  lemma FinalizationIsRelease(env: Env, s: State, a: Action)
    requires a.Finalize? && MutateFinalize(env, a, s).Changed?
    requires FindRun(s.history, Some(env.runIdFor(a.sessionId, a.operationId))).Some?
    ensures var runId := env.runIdFor(a.sessionId, a.operationId);
      var content := MutateFinalize(env, a, s).content;
      content == ReleaseLease(s.(history := content.history), runId)
  {
    hide FindRun, Without;
  }

  lemma FinalizedEntries(env: Env, s: State, a: Action)
    requires a.Finalize? && MutateFinalize(env, a, s).Changed?
    requires FindRun(s.history, Some(env.runIdFor(a.sessionId, a.operationId))).Some?
    ensures var existing := FindRun(s.history, Some(env.runIdFor(a.sessionId, a.operationId))).value;
      var history := MutateFinalize(env, a, s).content.history;
      && |history| == |s.history|
      && forall q | 0 <= q < |history| ::
           history[q] == (if existing.endedAt.Some? then s.history[q] else ClosedEntry(env, a, s.history[q]))
  {
    hide FindRun, Without, ClosedEntry;
  }

  lemma FinalizationEndsOnly(env: Env, s: State, a: Action)
    requires HistoryIds(s.history) && Terminals(env, s) && a.Finalize? && MutateFinalize(env, a, s).Changed?
    requires FindRun(s.history, Some(env.runIdFor(a.sessionId, a.operationId))).Some?
    ensures var runId := env.runIdFor(a.sessionId, a.operationId);
      var history := MutateFinalize(env, a, s).content.history;
      TouchesOnly(s, history, runId) && HasEnded(history, runId)
  {
    var runId := env.runIdFor(a.sessionId, a.operationId);
    FoundRun(s.history, Some(runId));
    var existing := FindRun(s.history, Some(runId)).value;
    var k :| 0 <= k < |s.history| && s.history[k] == existing;
    IdIsUnique(s.history, k);
    var history := MutateFinalize(env, a, s).content.history;
    FinalizedEntries(env, s, a);
    hide FindRun, Without, HistoryIds, ClosedEntry, MutateFinalize;
    forall q | 0 <= q < |s.history|
      ensures history[q].id == s.history[q].id && history[q].terminalId == s.history[q].terminalId
      ensures s.history[q].id != Some(runId) ==> history[q] == s.history[q]
      ensures s.history[q].id == Some(runId) ==> q == k && history[q].endedAt.Some?
    {
      ClosingEndsOne(env, a, s.history[q]);
    }
  }

  lemma ClosingEndsOne(env: Env, a: Action, item: Run)
    requires a.Finalize? && (item.id.Some? ==> item.terminalId == env.terminalOf(item.id.value))
    ensures var runId := env.runIdFor(a.sessionId, a.operationId);
      var closed := ClosedEntry(env, a, item);
      && closed.id == item.id && closed.terminalId == item.terminalId
      && (item.id != Some(runId) ==> closed == item)
      && (item.id == Some(runId) ==> closed.endedAt.Some?)
  {
  }

  lemma IdIsUnique(history: seq<Run>, k: nat)
    requires HistoryIds(history) && k < |history|
    ensures forall q | 0 <= q < |history| && history[q].id == history[k].id :: q == k
  {
  }

  /** The session manager's finalizer, in every outcome of its race with the daemon's. */
  lemma FinalizeKeeps(env: Env, a: Action, s: State)
    requires Inv(env, s) && a.Finalize?
    ensures var m := MutateFinalize(env, a, s); m.Changed? ==> Keeps(env, s, m.content)
  {
    var runId := env.runIdFor(a.sessionId, a.operationId);
    var m := MutateFinalize(env, a, s);
    FoundRun(s.history, Some(runId));
    if m.Changed? {
      assert HistoryIds(s.history) && Terminals(env, s);
      hide Inv, Forward, InStep, FindRun, Without, Terminals;
      if FindRun(s.history, Some(runId)).Some? {
        FinalizationEndsOnly(env, s, a);
        FinalizationIsRelease(env, s, a);
        hide MutateFinalize, HistoryIds;
        assert m.content == ReleaseLease(s.(history := m.content.history, updatedAt := s.updatedAt), runId);
        ReleaseKeepsInv(env, s, m.content.history, runId, s.updatedAt);
      } else {
        var t := s.(history := s.history + [FinishedRun(env, a)]);
        AppendingEndedKeeps(env, s, FinishedRun(env, a));
        ReleaseKeepsInv(env, t, t.history, runId, t.updatedAt);
        ForwardTransitive(env, s, t, m.content);
      }
    }
  }

  lemma AppendingEndedKeeps(env: Env, s: State, run: Run)
    requires Inv(env, s) && run.id.Some? && run.endedAt.Some? && !HasRun(s.history, run.id.value)
    requires run.terminalId == env.terminalOf(run.id.value)
    ensures var t := s.(history := s.history + [run]); Keeps(env, s, t) && HasEnded(t.history, run.id.value)
  {
    var t := s.(history := s.history + [run]);
    OpenIdsGrow(s.history, run);
    UnknownRunHasNoLease(env, s, run.id.value);
  }

  /** The lease on the terminal, and the first entry on the terminal or of that lease's run. */
  function TerminalLease(a: Action, s: State): Option<Lease>
    requires a.FinalizeTerminal?
  {
    FindLeaseByTerminal(s.runs, a.terminalId)
  }

  function TerminalRun(a: Action, s: State): Option<Run>
    requires a.FinalizeTerminal?
  {
    FindTerminalRun(s.history, a.terminalId,
                    if TerminalLease(a, s).Some? then Some(TerminalLease(a, s).value.runId) else None)
  }

  /** The daemon's finalizer takes the branch for a run that has ended although the terminal still
      has a lease, which it then releases. */
  predicate ReleasesUnfinished(a: Action, s: State) {
    && a.FinalizeTerminal? && TerminalLease(a, s).Some?
    && TerminalRun(a, s).Some? && TerminalRun(a, s).value.endedAt.Some?
  }

  /** The run the daemon's finalizer is about. */
  function TerminalRunId(a: Action, s: State): Option<string>
    requires a.FinalizeTerminal?
  {
    if TerminalLease(a, s).Some? then Some(TerminalLease(a, s).value.runId)
    else if TerminalRun(a, s).Some? then TerminalRun(a, s).value.id else None
  }

  lemma TerminalFinalizationIsRelease(s: State, a: Action)
    requires a.FinalizeTerminal? && MutateFinalizeTerminal(a, s).Changed?
    ensures var content := MutateFinalizeTerminal(a, s).content;
      && TerminalRunId(a, s).Some? && TerminalRun(a, s).Some?
      && content == ReleaseLease(s.(history := content.history), TerminalRunId(a, s).value)
      && |content.history| == |s.history|
      && (TerminalRun(a, s).value.endedAt.Some? ==> content.history == s.history)
      && (TerminalRun(a, s).value.endedAt.None? ==> forall q | 0 <= q < |s.history| ::
            && content.history[q].id == s.history[q].id && content.history[q].terminalId == s.history[q].terminalId
            && (s.history[q].id != TerminalRunId(a, s) ==> content.history[q] == s.history[q])
            && (s.history[q].id == TerminalRunId(a, s) ==> content.history[q].endedAt.Some?))
  {
    hide FindLeaseByTerminal, FindTerminalRun, Without, FinalLifecycle;
  }

  /** Where the first entry found for a terminal stands; without a lease it is the run's own. */
  lemma TerminalRunIsListed(s: State, a: Action) returns (k: nat)
    requires a.FinalizeTerminal? && TerminalRun(a, s).Some?
    ensures k < |s.history| && s.history[k] == TerminalRun(a, s).value
    ensures s.history[k].terminalId == Some(a.terminalId)
      || s.history[k].id == if TerminalLease(a, s).Some? then Some(TerminalLease(a, s).value.runId) else None
  {
    var leaseRunId := if TerminalLease(a, s).Some? then Some(TerminalLease(a, s).value.runId) else None;
    FoundTerminalRun(s.history, a.terminalId, leaseRunId);
    hide FindTerminalRun;
    k :| 0 <= k < |s.history| && s.history[k] == TerminalRun(a, s).value;
  }

  lemma TerminalLeaseIsListed(s: State, a: Action) returns (j: nat)
    requires a.FinalizeTerminal? && TerminalLease(a, s).Some?
    ensures j < |s.runs| && s.runs[j] == TerminalLease(a, s).value && s.runs[j].terminalId == Some(a.terminalId)
  {
    FoundByTerminal(s.runs, a.terminalId);
    hide FindLeaseByTerminal;
    j :| 0 <= j < |s.runs| && s.runs[j] == TerminalLease(a, s).value;
  }

  /** Whoever shares the terminal, the run it is about keeps an end it had, and has come to its end
      except when the wrong entry made the finalizer release it. */
  lemma TerminalFinalizationTouchesOnly(env: Env, s: State, a: Action)
    requires Inv(env, s) && a.FinalizeTerminal? && MutateFinalizeTerminal(a, s).Changed?
    ensures var history := MutateFinalizeTerminal(a, s).content.history;
      && TerminalRunId(a, s).Some?
      && TouchesOnly(s, history, TerminalRunId(a, s).value)
      && (HasEnded(history, TerminalRunId(a, s).value) <==> !ReleasesUnfinished(a, s))
  {
    TerminalFinalizationIsRelease(s, a);
    var k := TerminalRunIsListed(s, a);
    assert HistoryIds(s.history);
    IdIsUnique(s.history, k);
    hide MutateFinalizeTerminal, FindLeaseByTerminal, FindTerminalRun;
    if TerminalLease(a, s).Some? {
      var j := TerminalLeaseIsListed(s, a);
      var p := OpenEntryOf(env, s, j);
      IdIsUnique(s.history, p);
      hide Inv, HistoryIds;
    } else {
      assert s.history[k].id == TerminalRunId(a, s);
      hide Inv, HistoryIds;
    }
  }

  /** The daemon's finalizer, whether or not terminals are shared: it loses the step of leases and
      unfinished runs exactly when it releases a run that has not ended. */
  lemma FinalizeTerminalKeeps(env: Env, a: Action, s: State)
    requires Inv(env, s) && a.FinalizeTerminal?
    ensures var m := MutateFinalizeTerminal(a, s); m.Changed? ==>
      && Inv(env, m.content) && Forward(s, m.content)
      && (InStep(s) ==> (InStep(m.content) <==> !ReleasesUnfinished(a, s)))
  {
    var m := MutateFinalizeTerminal(a, s);
    if m.Changed? {
      TerminalFinalizationIsRelease(s, a);
      TerminalFinalizationTouchesOnly(env, s, a);
      var runId := TerminalRunId(a, s).value;
      hide MutateFinalizeTerminal, TerminalRunId, ReleasesUnfinished, Inv, Forward, InStep, Without;
      assert m.content == ReleaseLease(s.(history := m.content.history, updatedAt := s.updatedAt), runId);
      ReleaseKeepsInv(env, s, m.content.history, runId, s.updatedAt);
      if !HasEnded(m.content.history, runId) {
        UnfinishedReleaseIsOutOfStep(s.runs, m.content, runId);
      }
    }
  }

  lemma UnfinishedReleaseIsOutOfStep(runs: seq<Lease>, t: State, runId: string)
    requires t.runs == Without(runs, runId) && !HasEnded(t.history, runId)
    ensures !InStep(t)
  {
    LeaseIdsWithout(runs, runId);
    var k :| 0 <= k < |t.history| && t.history[k].id == Some(runId) && t.history[k].endedAt.None?;
    assert Some(runId) in OpenIds(t.history);
  }

  /** With unshared terminals that never happens: the terminal leads to one and the same run. */
  lemma UnsharedTerminalsKeepStep(env: Env, a: Action, s: State)
    requires UnsharedTerminals(env) && Inv(env, s)
    ensures !ReleasesUnfinished(a, s)
  {
    if ReleasesUnfinished(a, s) {
      var j := TerminalLeaseIsListed(s, a);
      var k := TerminalRunIsListed(s, a);
      assert s.runs[j].terminalId == env.terminalOf(s.runs[j].runId);
      assert s.history[k].id == Some(s.runs[j].runId);
      LeasedRunIsOpen(env, s, j, k);
    }
  }

  lemma RecoverOrphanedKeeps(env: Env, s: State, runId: string, now: nat)
    requires Inv(env, s)
    ensures var m := MutateRecoverOrphaned(runId, now, s); m.Changed? ==> Keeps(env, s, m.content)
  {
    hide Inv, Forward, InStep, FindLease, Without;
    var m := MutateRecoverOrphaned(runId, now, s);
    if m.Changed? {
      ReleaseKeepsInv(env, s, m.content.history, runId, now);
    }
  }

  lemma RecoverStaleKeeps(env: Env, s: State, now: nat)
    requires Inv(env, s)
    ensures var m := MutateRecoverStale(now, s); m.Changed? ==> Keeps(env, s, m.content)
  {
    var m := MutateRecoverStale(now, s);
    if m.Changed? {
      var k := StaleIndex(s);
      IdIsUnique(s.history, k);
      assert s.history[k].id.Some?;
      hide StaleIndex, Without, Inv, Forward, InStep, HistoryIds;
      var runId := s.history[k].id.value;
      assert TouchesOnly(s, m.content.history, runId) && HasEnded(m.content.history, runId);
      ReleaseKeepsInv(env, s, m.content.history, runId, now);
    }
  }

  /** Every mutator keeps the invariant and moves the task forward, in every environment, and keeps
      leases and unfinished runs in step except when it releases a run that has not ended. */
  lemma MutateKeeps(env: Env, a: Action, s: State)
    requires Inv(env, s)
    ensures var m := Mutate(env, a, s); m.Changed? ==>
      && Inv(env, m.content) && Forward(s, m.content)
      && (InStep(s) ==> (InStep(m.content) <==> !ReleasesUnfinished(a, s)))
  {
    hide Inv, Forward, InStep, MutateLaunch, MutateObserve, MutateRegister, MutateTouch, MutateBid, MutateFinalize,
      MutateFinalizeTerminal, MutateRecoverOrphaned, MutateRecoverStale, MutateRename, ReconcileEach, OrphanEach;
    match a
    case Launch(_, _, _, _, _, _, _, _) => LaunchKeeps(env, a, s);
    case Observe(_, _, _, _, _, _, _) => ObserveKeeps(env, a, s);
    case RegisterBridge(terminalId, bridge) => RegisterKeeps(env, s, terminalId, bridge);
    case Touch(controllerId, now) => TouchKeeps(env, s, controllerId, now);
    case OrphanOwned(controllerId, now) => OrphanEachKeeps(env, s, s.runs, controllerId, now);
    case OrphanRun(runId, now) => OrphanKeeps(env, s, runId, now);
    case Reconcile(evidence, now) => ReconcileKeeps(env, s, evidence, s.runs, now);
    case SubmitBid(runId, bid) => BidKeeps(env, s, runId, bid);
    case Finalize(_, _, _, _, _, _, _) => FinalizeKeeps(env, a, s);
    case FinalizeTerminal(_, _, _, _, _, _) => FinalizeTerminalKeeps(env, a, s);
    case RecoverOrphaned(runId, now) => RecoverOrphanedKeeps(env, s, runId, now);
    case RecoverStale(now) => RecoverStaleKeeps(env, s, now);
    case Rename(runId, displayLabel) => RenameKeeps(env, s, runId, displayLabel);
    case Finish(now) => EditKeeps(env, s, s.(status := CompletedTask, updatedAt := now));
    case Edit(other, now) => EditKeeps(env, s, s.(other := other, updatedAt := now));
    case StartTask(_, _) =>
  }
}
