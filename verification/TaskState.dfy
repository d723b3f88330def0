/** The task state of src/state/schema.ts, as far as run leases and run history are concerned. */
module TaskState {
  import opened Wrappers

  datatype TaskStatus = ActiveTask | BlockedTask | CompletedTask | CancelledTask

  datatype LeaseStatus = StartingLease | RunningLease | WaitingLease | StoppingLease | OrphanedLease

  datatype Lifecycle =
    | Starting | Working | NeedsPermission | WaitingForInput | Stopping
    | Completed | Failed | Cancelled | Orphaned

  datatype Attention = PermissionWait | InputWait | UnknownWait

  datatype ExitReason =
    | CompletedExit | UserCancelled | UsageLimit | RateLimit | AuthenticationError | PermissionError
    | CommandNotFound | ProviderUnavailable | ContextLimit | NetworkError | Interrupted | UnknownFailure

  datatype ControllerKind = Cli | Desktop | Daemon

  /** A boot identity names the host first. */
  datatype Boot = Boot(host: string, minute: int)

  datatype ControllerId = ControllerId(kind: ControllerKind, boot: Boot, instanceId: string)

  datatype Controller = Controller(kind: ControllerKind, instanceId: string, pid: Option<nat>, boot: Boot)

  datatype Bridge = Bridge(instanceId: string, pid: nat)

  datatype Bid = Bid(controllerId: ControllerId, priority: nat, at: nat)

  datatype Lease = Lease(
    runId: string,
    displayLabel: string,
    terminalId: Option<string>,
    worktree: string,
    agent: string,
    controller: Controller,
    controllerId: ControllerId,
    bridge: Option<Bridge>,
    lifecycle: Lifecycle,
    attention: Option<Attention>,
    seconds: nat,
    sequence: nat,
    bids: seq<Bid>,
    lastSeenAt: nat,
    status: LeaseStatus)

  /** One entry of `agentHistory`; a null exit code and an absent one are both `None`. */
  datatype Run = Run(
    id: Option<string>,
    displayLabel: string,
    agent: string,
    terminalId: Option<string>,
    endedAt: Option<nat>,
    exitCode: Option<int>,
    exitReason: Option<ExitReason>,
    lifecycle: Option<Lifecycle>,
    attention: Option<Attention>,
    seconds: Option<nat>,
    sequence: Option<nat>)

  /** `other` stands for notes, tests, checkpoints, decisions and the git anchor. */
  datatype State = State(
    sessionId: string,
    status: TaskStatus,
    updatedAt: nat,
    runs: seq<Lease>,
    currentAgent: Option<string>,
    currentRunId: Option<string>,
    history: seq<Run>,
    other: string)

  function Max(a: nat, b: nat): nat {
    if a < b then b else a
  }
}
