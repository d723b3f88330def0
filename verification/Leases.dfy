/** The lease operations of src/state/leases.ts. Every function returns a new state. */
module Leases {
  import opened Wrappers
  import opened TaskState

  /** `find` over the leases: the first one on the same canonical worktree. Every lease status
      the schema admits is an active one. */
  function LeaseForWorktree(resolve: string -> string, runs: seq<Lease>, worktree: string): Option<Lease> {
    if runs == [] then None
    else if resolve(runs[0].worktree) == resolve(worktree) then Some(runs[0])
    else LeaseForWorktree(resolve, runs[1..], worktree)
  }

  function WithDerivedFields(s: State): State {
    if s.runs == [] then s.(currentAgent := None, currentRunId := None)
    else s.(currentAgent := Some(s.runs[0].agent), currentRunId := Some(s.runs[0].runId))
  }

  predicate HasLease(runs: seq<Lease>, runId: string) {
    exists k | 0 <= k < |runs| :: runs[k].runId == runId
  }

  /** Claim a worktree; absent when another run already writes there. */
  function AcquireLease(resolve: string -> string, s: State, lease: Lease): Option<State> {
    var existing := LeaseForWorktree(resolve, s.runs, lease.worktree);
    if existing.Some? && existing.value.runId != lease.runId then None
    else if HasLease(s.runs, lease.runId) then Some(WithDerivedFields(s))
    else Some(WithDerivedFields(s.(runs := s.runs + [lease])))
  }

  function Without(runs: seq<Lease>, runId: string): seq<Lease> {
    if runs == [] then []
    else (if runs[0].runId == runId then [] else [runs[0]]) + Without(runs[1..], runId)
  }

  function ReleaseLease(s: State, runId: string): State {
    WithDerivedFields(s.(runs := Without(s.runs, runId)))
  }

  function FindLease(runs: seq<Lease>, runId: string): Option<Lease> {
    if runs == [] then None
    else if runs[0].runId == runId then Some(runs[0])
    else FindLease(runs[1..], runId)
  }

  function OrphanedLeaseOf(lease: Lease, now: nat): Lease {
    lease.(status := OrphanedLease, lifecycle := Orphaned, attention := Some(UnknownWait), lastSeenAt := now)
  }

  function OrphanedRunOf(run: Run, target: Option<Lease>): Run {
    var seconds := if target.Some? then target.value.seconds else 0;
    var sequence := if target.Some? then target.value.sequence else 0;
    run.(lifecycle := Some(Orphaned), attention := Some(UnknownWait),
         seconds := Some(Max(run.seconds.GetOr(0), seconds)),
         sequence := Some(Max(run.sequence.GetOr(0), sequence)))
  }

  /** The owner is gone; that is not evidence that the provider process has ended. */
  function MarkLeaseOrphaned(s: State, runId: string, now: nat): State {
    var target := FindLease(s.runs, runId);
    WithDerivedFields(s.(
      runs := seq(|s.runs|, k requires 0 <= k < |s.runs| =>
        if s.runs[k].runId == runId then OrphanedLeaseOf(s.runs[k], now) else s.runs[k]),
      history := seq(|s.history|, k requires 0 <= k < |s.history| =>
        if s.history[k].id == Some(runId) && s.history[k].endedAt.None?
        then OrphanedRunOf(s.history[k], target) else s.history[k])))
  }
}
