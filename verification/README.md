# Rirei, verified

Rirei lets several coding agents, started from several processes, work on one repository without
stepping on each other. There is no server: the processes coordinate through files, and a few exact
algorithms sit on top. This project models those protocols and algorithms in Dafny and proves what
they keep in every interleaving and for every input.

| file | what it models |
|---|---|
| `DirectoryLock.dfy` | the two-level directory lock: any number of calls, one filesystem action per step, crashes anywhere, pids reused |
| `LockOutcomes.dfy` | how calls of the lock end: why they give up, and that they get in and out when nothing is in the way |
| `SerialStore.dfy` | the read-modify-write store under that lock, with revisions and the operation ledger |
| `TaskState.dfy`, `Leases.dfy`, `RunMachine.dfy` | run leases and run history, and the sixteen mutators that work on them |
| `RunSafety.dfy`, `RunTheorems.dfy` | what every mutator keeps, and what holds in every reachable state of the store |
| `RunOutcomes.dfy` | which mutators go through, and what exactly they leave |
| `Threads.dfy`, `ThreadService.dfy` | the message journal, its validity check, and the operations on it |
| `ThreadOutcomes.dfy` | which message operations go through, and what exactly they leave |
| `ThreadSafety.dfy`, `ThreadViews.dfy` | validity over the life of a journal, exactly-once sending, two-party threads, inboxes |
| `AttachPump.dfy` | the output pump of an attached terminal, with its callbacks in every order |
| `StreamScanners.dfy` | the detach-key scanner and the frame reader, on every way of cutting the input |
| `CivilDates.dfy` | date strings, day numbers, shifts, sequences and windows |
| `TokenReport.dfy` | normalizing token usage and deriving a report from the cache |
| `CacheRefresh.dfy`, `CacheLocks.dfy` | refreshing the token cache from many processes, first with locks that are free or not, then over the directory lock |
| `Handoff.dfy`, `HandoffText.dfy` | the budgeted handoff text, on UTF-16 code units, and what its pieces say |
| `ProcessTree.dfy` | finding and signalling the descendants of a process |
| `StableSort.dfy`, `Wrappers.dfy` | the stable sort and the optional values the others share |

Where the program changes fields step by step (`StateFile`, `JournalFile`, `AttachSession`,
`KeyScanner`, `FrameReader`, `CacheFile`) the model is a class whose methods are tied to functions of
the old state; the lemmas are about those functions. Protocols between processes are transition
systems over event lists, so that a lemma about all lists is a lemma about all interleavings.

Five statements one might expect turned out false of the program. Each is kept as a concrete
counterexample or an exact condition, never as a silent assumption:

- `src/state/lock.ts:205-206` says that the owner cannot change between check and removal. That holds
  if removing an owned directory is one atomic action; the program reads the token and deletes in two.
  `DirectoryLock.SplitRemovalAdmitsTwo` gives a run in which two calls are inside the lock at once,
  and `DirectoryLock.DeletionSafeIff` says exactly when a separate deletion is harmless. The harmful
  one is always the reclaim of a dead owner's gate that now carries another token than the one
  compared (`DirectoryLock.OvertakenIsReclaim`), so a run without a crash is safe either way
  (`DirectoryLock.CrashFreeRunsAreCareful`).
- `generateDateSequence` compares date strings, and year 10000 sorts before year 9999:
  `CivilDates.LoopOverrunsIff`.
- Writing the token cache from two timezones loses entries: `CacheRefresh.RefreshKeepsOthersIff`,
  `CacheRefresh.ErrorReplacesAvailableIff`.
- A terminal shared by two runs, which the `--terminal-id` option allows, makes the daemon's finalizer
  look at the wrong history entry and release a lease whose run goes on unfinished:
  `RunTheorems.SharedTerminalLosesLease` is such a run, `RunTheorems.TerminalFinalizationKeepsStepIff`
  says exactly when it happens.
- A chunk of terminal input that arrives after the detach key, before the listener is gone, is still
  sent on: `StreamScanners.LateChunkIsSentUnlessSilent`.

One exported function is wider than its callers: asked for less than one day,
`deriveReportFromCache` would compare one day with an empty window
(`CivilDates.WindowsAreAdjacent`, `TokenReport.WithoutDaysPreviousIsNothing`). Its only caller never
asks for less than one, so every report compares ranges of equal length
(`TokenReport.GetCachedTokenUsage`).

## Model

| member | source | states |
|---|---|---|
| DirectoryLock.MutualExclusion | src/state/lock.ts:109-259 | after any list of spawns, steps and crashes, at most one live call is inside the protected function, and its token is the one on disk |
| DirectoryLock.AdvanceKeepsInv | src/state/lock.ts:163-235 | each single step of acquiring, reclaiming and releasing keeps gate and lock exclusive and every held record on disk, unless it deletes what another call has come to hold |
| DirectoryLock.CrashKeepsInv | src/state/lock.ts:71-107 | the death of a process at any point keeps the protocol's invariant |
| DirectoryLock.LiveOwnersKeepTheirDirectories | src/state/lock.ts:134-235 | no event of another call ever takes away a gate or lock that a live call relies on |
| DirectoryLock.ReclaimIsUndisturbed | src/state/lock.ts:203-208 | between the staleness check and the removal the lock still belongs to the dead owner, and the second creation never finds its place taken |
| DirectoryLock.DeletionSafeIff | src/state/lock.ts:134-151 | a deletion that follows its token read in a later step keeps the invariant if and only if nobody else has come to hold the directory |
| DirectoryLock.OvertakenIsReclaim | src/state/lock.ts:134-176 | the only deletion that can hit a directory another call has come to hold is the reclaim of a gate whose token is no longer the one compared |
| DirectoryLock.CrashFreeRunsAreCareful | src/state/lock.ts:134-176 | without a crash no deletion is ever overtaken, even with read and deletion apart |
| DirectoryLock.SplitRemovalExcludesWhenNotOvertaken | src/state/lock.ts:134-151 | with the read and the deletion apart, every run without an overtaken deletion still excludes |
| DirectoryLock.SplitRemovalAdmitsTwo | src/state/lock.ts:163-176 | with the read and the deletion apart, some run has two calls inside the lock |
| DirectoryLock.StepsAreBounded | src/state/lock.ts:168-221 | every call makes a bounded number of filesystem actions in every run, whatever the others do |
| DirectoryLock.FinishedCallGaveBackIff | src/state/lock.ts:227-259 | a call that was inside and has finished, its process alive, has given its lock back if and only if it returned; if it failed for want of the gate, the lock is still on disk |
| DirectoryLock.DeadOwnersAreReplaced | src/state/lock.ts:173-211 | whatever dead processes of its host left on disk, a call that is left alone is inside the lock after at most eleven actions |
| LockOutcomes.GivingUpHasCause | src/state/lock.ts:163-221 | a call that fails, its process alive, met in each attempt it was given an owner it had no proof to be dead, or a taken gate in all forty tries of one attempt, or was inside and met a taken gate in all tries of its release; a call that returns was inside |
| LockOutcomes.EntersWhenLeftAlone | src/state/lock.ts:163-215 | from any point on its way in, whatever it met before, a call that is left alone is inside after at most thirteen steps once nothing is in its way and it has a try left |
| LockOutcomes.ReturnsWhenLeftAlone | src/state/lock.ts:223-259 | from the body on, a call that is left alone returns after at most nine steps once nothing is in its way at the gate and it has a try left |
| LockOutcomes.ForeignOwnersAreKept | src/state/lock.ts:101-107 | no call takes away a gate or lock whose owner is on another host, dead or alive |
| SerialStore.StateFile.Perform | src/state/store.ts:52-127 | one locked update or replacement leaves the file that the specification says, and each outcome has its cause in the file, the expected revision and what the mutator did: a mutator that throws leaves the file alone, and what is committed is what the mutator made |
| SerialStore.OutcomesAreExplained | src/state/store.ts:57-127 | an update is missing, known, in conflict, thrown, unneeded or committed exactly for its own cause; a replacement goes through exactly when it is made and the task before is closed |
| SerialStore.ConcurrentCallsAreExplained | src/state/store.ts:57-127 | in every concurrent run each call ended for its own cause, judged by what the calls before it had left |
| SerialStore.RecordedMeansDone | src/state/store.ts:62-85 | behind every record that the ledger gained is a request of that id whose mutator did not throw and whose result was committed |
| SerialStore.RetryAfterThrowsTakesEffect | src/state/store.ts:62-85 | as long as every call under an id has thrown, a retry commits what its mutator makes as soon as it makes something |
| SerialStore.UncommittedCallsLeaveNoTrace | src/state/store.ts:57-89 | a call that committed nothing might as well not have been made |
| SerialStore.FindOperation | src/state/store.ts:62-66 | the ledger search answers yes exactly when an entry has the id |
| SerialStore.EachCommitRaisesRevisionByOne | src/state/store.ts:78-85 | every commit, a replaced task included, raises the revision by exactly one, nothing else moves it, and the ledger stays bounded and strictly ordered |
| SerialStore.RevisionCountsCommits | src/state/store.ts:78-119 | over any list of requests and tasks the revision is the number of commits |
| SerialStore.CommittedOperationIsKept | src/state/store.ts:62-84 | after a commit with an operation id and any updates that record fewer than fifty others, repeating the operation changes nothing; after more it is known if and only if it is among the last fifty recorded since |
| SerialStore.LedgerIsAWindow | src/state/store.ts:79-84 | the ledger is always the last fifty records ever added to the task |
| SerialStore.RecordsComeLater | src/state/store.ts:78-84 | revisions rise strictly along all records ever added and never pass the current one |
| SerialStore.RememberedUntilFiftyLater | src/state/store.ts:79-84 | a record is still known if and only if fewer than fifty have been added behind it |
| SerialStore.ConcurrentRunsAreSerial | src/state/store.ts:57-89 | any concurrent run over the lock, with crashes anywhere, leaves what applying the calls one at a time in their order of effect leaves; every call reports what it would have reported then |
| SerialStore.ProcessesAre | src/state/lock.ts:71-107 | a call that begins, and a process that dies, do to the lock what they do there |
| SerialStore.SerialRunsHappen | src/state/store.ts:57-89 | and conversely every list of calls is the log of some run over the lock |
| SerialStore.ConcurrentRunsKeep | src/state/store.ts:57-89 | a property that every mutator keeps holds of the file in every concurrent run |
| RunMachine.ReconcileRuns | src/application/reconciliation.ts:69-214 | each lease gets the verdict that the inventory, its host, boot and processes demand; with distinct run ids a lease is orphaned, adopted or left as it was exactly accordingly, and the open entries of orphaned runs catch up; the candidates are, in order, one for each lease that is gone for good |
| RunMachine.JudgementIsRight | src/application/reconciliation.ts:97-209 | each verdict and each reason is given exactly when inventory, controller and bridge are as it says |
| RunTheorems.ReconciliationIsRight | src/application/reconciliation.ts:69-214 | in every reachable state reconciliation changes each lease and entry as the evidence demands, and keeps the mirrors |
| RunOutcomes.AcquireExplained | src/state/leases.ts:63-76 | a working tree is refused exactly when another run has it; a run that has it changes nothing, and any other adds its lease |
| RunOutcomes.LaunchExplained | src/application/sessions.ts:659-704 | a launch throws exactly for a wrong or closed task, or when new and the working tree is taken or the approved handoff outdated; repeated it changes nothing; else it adds exactly its running lease and open entry |
| RunOutcomes.ObserveExplained | src/cli/bridge.ts:222-283 | an observation throws exactly for an unknown terminal, and is noted by exactly the leases and entries on it that it is not too late for, with the status, lifecycle and attention seen |
| RunOutcomes.TouchExplained | src/application/heartbeat.ts:28-45 | a heartbeat touches exactly the leases of its controller that are neither stopping nor orphaned |
| RunOutcomes.RegisterExplained | src/cli/bridge.ts:313-335 | a bridge is registered with exactly the leases on its terminal, and must find one |
| RunOutcomes.RenameExplained | src/state/run-labels.ts:43-70 | a rename must find the run and changes its label everywhere, and nothing else |
| RunOutcomes.BidExplained | src/application/sessions.ts:1013-1035 | a bid needs an orphaned lease and joins its bids, of which the last eight are kept |
| RunOutcomes.BidNeedsLease | src/application/sessions.ts:1013-1020 | without a lease there is neither bid nor recovery |
| RunOutcomes.OrphanOwnedExplained | src/application/heartbeat.ts:123-140 | a controller that leaves orphans exactly the leases it owns, and their open entries catch up |
| RunOutcomes.FinalizeExplained | src/application/sessions.ts:796-829 | the session manager's finalizer releases the run's lease and closes its entry with how it ended, unless it has ended, or adds a closed entry if there is none; nothing else changes |
| RunOutcomes.FinalizeTerminalExplained | src/application/sessions.ts:255-310 | the daemon's finalizer throws exactly when no entry belongs to the terminal; else it releases the run of the lease on it, or of the first entry, and closes that run unless the first entry had ended |
| RunOutcomes.CandidateIsFinalizedAs | src/application/reconciliation.ts:125-137 | a lease that is gone for good is finalized as interrupted, or as cancelled by the user if it was stopping, with the runtime and sequence it had |
| RunOutcomes.RecoverOrphanedExplained | src/application/sessions.ts:933-959 | recovering needs an orphaned lease, ends its open entry and releases it |
| RunOutcomes.RecoverStaleExplained | src/state/recovery.ts:19-63 | a forced recovery ends the run of the first lease, or without leases the last open one, and does nothing exactly when there is neither |
| RunOutcomes.TaskChangesExplained | src/application/project-setup.ts:64-76 | a task is finished exactly when no run holds a lease, and replaced exactly when it is closed and none does |
| RunOutcomes.ArchivingExplained | src/state/store.ts:129-151 | a closed task without leases is archived with every open run ended as interrupted and no current run, any other one as it is |
| RunSafety.LaunchKeeps | src/application/sessions.ts:659-704 | a launch keeps the invariant and moves the task forward |
| RunSafety.ObserveKeeps | src/cli/bridge.ts:222-283 | an observation keeps the invariant and never takes a lease backwards |
| RunSafety.ObservationKeepsClaim | src/cli/bridge.ts:228-261 | an observed lease keeps its claim and its agreement of status and lifecycle; sequence and runtime do not fall, and a stopping or orphaned lease is not active again |
| RunSafety.ObservationKeepsSequence | src/cli/bridge.ts:228-281 | one observation leaves an open history entry at least as far as its lease |
| RunSafety.OrphanKeeps | src/state/leases.ts:91-127 | orphaning keeps the invariant, and the history catches up with the lease |
| RunSafety.OrphanEachKeeps | src/application/heartbeat.ts:123-140 | orphaning every lease of a controller keeps the invariant |
| RunSafety.TouchKeeps | src/application/heartbeat.ts:28-45 | a heartbeat keeps the invariant |
| RunSafety.ReconcileKeeps | src/application/reconciliation.ts:69-214 | reconciliation keeps the invariant, whatever the evidence |
| RunSafety.RegisterKeeps | src/cli/bridge.ts:313-335 | registering a bridge keeps the invariant |
| RunSafety.BidKeeps | src/application/sessions.ts:1013-1035 | an orphan bid keeps the invariant |
| RunSafety.FinalizeKeeps | src/application/sessions.ts:796-829 | the session manager's finalizer keeps the invariant and every end already set, also when the daemon was first |
| RunSafety.LeaseInBetween | src/state/leases.ts:63-127 | a run that has a lease at both ends of two forward steps has one in between |
| RunSafety.UnsharedTerminalsKeepStep | src/application/sessions.ts:257-270 | with unshared terminals no mutator in any safe state releases a lease and leaves its run unfinished |
| RunSafety.FinalizeTerminalKeeps | src/application/sessions.ts:255-310 | whatever the environment, the daemon's finalizer keeps the invariant and every end already set, also when the session manager was first; it takes leases and unfinished runs out of step if and only if it releases a lease on finding an ended run |
| RunSafety.RecoverOrphanedKeeps | src/application/sessions.ts:933-959 | ending an orphaned run keeps the invariant |
| RunSafety.RecoverStaleKeeps | src/state/recovery.ts:19-63 | a forced recovery closes exactly the run whose lease it releases |
| RunSafety.RenameKeeps | src/state/run-labels.ts:43-70 | a rename keeps the invariant |
| RunSafety.MutateKeeps | src/application/sessions.ts:255-310 | in every environment every one of the mutators keeps the invariant and moves the task forward; only the finalizer of a terminal can take leases and unfinished runs out of step, in exactly the stated case |
| RunSafety.ForwardTransitive | src/state/leases.ts:63-127 | forward steps compose: a released run never gets its lease back in between |
| RunTheorems.ReachableStatesAreSafe | src/state/leases.ts:26-127 | in every environment and every reachable state leases have distinct runs and canonical worktrees, a leased run is unfinished, and the current agent and run mirror the first lease |
| RunTheorems.LeasesAreUnfinishedRuns | src/state/leases.ts:26-127 | with unshared terminals, in every reachable state a run has a lease if and only if its history entry has no end |
| RunTheorems.StepIsKept | src/application/sessions.ts:255-310 | over any requests in any environment an unfinished run keeps its lease as long as no daemon finalization meets an ended run under a lease |
| RunTheorems.TasksMoveForward | src/cli/bridge.ts:222-283 | in every environment, over any updates of a task: history only grows, an end once set is never changed, lease sequences and runtimes never fall, a settled lease never becomes active, and a run already in the history never gains a lease |
| RunTheorems.NormalizingIsIdentityIff | src/state/store.ts:129-151 | normalizing a task for its archive changes something in a safe state if and only if the task is closed and an unfinished run has lost its lease |
| RunTheorems.ArchiveIsTheFinalStateIff | src/state/store.ts:115-121 | what a replacement archives is the very state the closed task ended in if and only if no unfinished run had lost its lease, which unshared terminals guarantee |
| RunTheorems.TerminalFinalizationKeepsStepIff | src/application/sessions.ts:257-308 | in any safe state in step a daemon finalization keeps leases and unfinished runs in step if and only if no lease is on the terminal or the first history entry found for it is unfinished |
| RunTheorems.SharedTerminalLosesLease | src/application/sessions.ts:257-308 | with two runs on one terminal, a run of the program from an empty disk leaves an unfinished run without a lease |
| RunTheorems.CandidateIsFinalized | src/application/reconciliation.ts:69-214 | finalizing a lease whose provider reconciliation knows to be gone releases exactly that lease and ends exactly that run, whatever was decided about the others |
| RunTheorems.LaunchedAtMostOnce | src/application/sessions.ts:659-704 | in every environment, with fresh session ids, among any requests at most one launch of a session and operation inserts a run, however long the ledger has forgotten it |
| RunTheorems.ConcurrentLaunchesInsertOnce | src/application/sessions.ts:136-141 | the same for every interleaving of concurrent launches |
| Threads.ActorKeyIsInjective | src/messages/schema.ts:398-406 | two actors have the same ledger key if and only if they are the same |
| Threads.CheckJournal | src/messages/schema.ts:273-395 | the schema's loop accepts a journal if and only if ids, sequences, reply trees, acknowledgements, limits and ledger references are as declared |
| ThreadService.ExpirePass | src/messages/service.ts:589-622 | the pass rewrites each message as specified, counts those it expires, and reports a change exactly when there is one; which ones these are is ThreadService.ExpiresTheConcerned |
| ThreadService.JournalFile.Update | src/messages/store.ts:290-342 | the locked update leaves the journal and gives the answer that the specification says |
| ThreadService.JournalFile.Expire | src/messages/service.ts:580-622 | after a run has ended no queued message is addressed to it, after the task is closed or the time is up none is queued at all; exactly those messages have expired, all others are as they were, and the number returned is theirs; nothing is written if there are none |
| ThreadService.ExpiresTheConcerned | src/messages/service.ts:589-613 | the pass expires exactly the queued messages that are addressed to the run that ended, or all queued ones |
| ThreadOutcomes.SendExplained | src/messages/service.ts:206-320 | a send fails exactly when it is not allowed or is new and finds no room; repeated it is answered from its record; else it adds exactly its fresh message and records the operation |
| ThreadOutcomes.ReplyExplained | src/messages/service.ts:322-470 | a reply goes to the other actor of its parent, in its thread; an acknowledgement is only the recipient's to give, not of an expired parent, and acknowledges the parent with it; nothing else changes |
| ThreadOutcomes.ReplyToNothingFails | src/messages/service.ts:65-86 | a reply to a message that is not there fails |
| ThreadOutcomes.MarkReadExplained | src/messages/service.ts:487-519 | a recipient and nobody else may mark a message read; the first time counts and nothing else changes |
| ThreadOutcomes.AcknowledgeExplained | src/messages/service.ts:537-575 | a recipient and nobody else may acknowledge a message that has not expired; the first time counts, and counts as read |
| ThreadOutcomes.TargetMustExist | src/messages/service.ts:487-545 | marking or acknowledging a message that is not there fails |
| ThreadOutcomes.InboxExplained | src/messages/service.ts:643-671 | reading an inbox reads exactly its owner's unread messages, touches nothing else, and writes nothing if there are none |
| ThreadOutcomes.InboxShows | src/messages/service.ts:643-671 | an inbox shows exactly the messages to its owner, or those of them that were unread, and shows them as read |
| ThreadOutcomes.DeliveryOkIff | src/messages/schema.ts:180-217 | a delivery is valid exactly when its state and its times agree and it was tried at most sixteen times |
| ThreadOutcomes.GoodReplyIff | src/messages/schema.ts:324-372 | a reply fits its parent exactly when it stays in its thread and between its actors, and as an acknowledgement comes from the recipient of an acknowledged parent |
| ThreadSafety.SendIsSound | src/messages/service.ts:265-307 | a send with a fresh id leads to a valid list that extends the old one |
| ThreadSafety.ReplyIsSound | src/messages/service.ts:383-457 | a reply has its parent before it in its thread, and an acknowledging reply has an acknowledged parent |
| ThreadSafety.MarkReadIsSound | src/messages/service.ts:487-519 | marking read keeps validity and writes a read time once |
| ThreadSafety.AcknowledgeIsSound | src/messages/service.ts:537-575 | acknowledging keeps validity and never leaves the expired state |
| ThreadSafety.PassesAreSound | src/messages/service.ts:589-671 | expiry and inbox passes keep validity and every final delivery state |
| ThreadSafety.UpdateKeepsJournal | src/messages/store.ts:315-338 | the ledger is never cut, because it is never longer than the messages |
| ThreadSafety.PerformKeepsJournal | src/messages/service.ts:206-622 | every operation maps a good journal to a good one and moves it forward |
| ThreadSafety.JournalsStayOk | src/messages/schema.ts:180-395 | from a good journal every list of operations stays good; acknowledged and expired are final and read times are written once |
| ThreadSafety.EmptyJournalIsOk | src/messages/store.ts:38-48 | the journal a task starts with is good |
| ThreadSafety.RecordedKeyIsFinal | src/messages/store.ts:294-309 | a recorded key answers with its message, or with a conflict for another payload, and never adds a message |
| ThreadSafety.LaterJournal | src/messages/store.ts:334-338 | later journals of one life extend earlier ones |
| ThreadSafety.SentExactlyOnce | src/messages/store.ts:294-341 | for the life of a journal each actor and operation id yields at most one message, and an admitted retry with the same payload returns that one |
| ThreadSafety.ReplyRouteIsStable | src/messages/service.ts:65-86 | the route a reply resolves before the lock is the one it has inside the lock |
| ThreadViews.ThreadsAreTwoParty | src/messages/projection.ts:32-62 | every message of a thread is between the two actors of its first message |
| ThreadViews.ThreadStartsWithRoot | src/messages/projection.ts:47-52 | the first message of a thread in journal order is its root |
| ThreadViews.ThreadsAreSorted | src/messages/projection.ts:47-48 | a thread in journal order is sorted by sequence |
| ThreadViews.ListAndViewAgree | src/messages/service.ts:673-706 | the list's access rule, by the first message, and the view's, by any message, agree for every viewer |
| ThreadViews.GroupByThread | src/messages/projection.ts:37-43 | the grouping loop puts each thread's messages under its id, in order, and lists the threads by their first messages |
| ThreadViews.SummarizeThreads | src/messages/projection.ts:32-88 | the list has exactly one summary, with its counts, excerpt and times, for each thread that its viewer may read and the filter lets through, newest activity first and ties in the order of first messages |
| ThreadViews.LineIsRight | src/messages/projection.ts:45-84 | a thread's line gives the actors and time of its first message, the beginning, intent, state and time of its last one, and the numbers of its messages and of the viewer's unread ones; it is due exactly when the viewer takes part and the query is found |
| ThreadViews.ReadingInboxSettlesIt | src/messages/service.ts:643-670 | after reading an inbox its owner has nothing unread and everybody else's count is unchanged |
| AttachPump.AttachSession.PumpOutput | src/tui/attach.ts:198-203 | starting the pump has the specified effect and does nothing while one runs |
| AttachPump.AttachSession.OutputAvailable | src/tui/attach.ts:129-137 | the announcement callback has the specified effect |
| AttachPump.AttachSession.Exit | src/tui/attach.ts:138-154 | the exit callback drains first if output is missing |
| AttachPump.AttachSession.SliceArrived | src/tui/attach.ts:204-219 | an answered fetch has the specified effect, up to the next one |
| AttachPump.AttachSession.Wound | src/tui/attach.ts:221-225 | the clearing callback starts the pump again if output was queued meanwhile |
| AttachPump.AttachSession.ReplayArrived | src/tui/attach.ts:298-330 | the replay has the specified effect, with every announcement made before it |
| AttachPump.HappenKeepsInv | src/tui/attach.ts:129-226 | every callback keeps written output, cursor and pump in step |
| AttachPump.NothingIsLost | src/tui/attach.ts:129-330 | in every order of callbacks the output written is the log up to the cursor; the furthest cursor ever told is noted, and so is an exit; output that was told of, or an exit, always finds a pump that will look again |
| AttachPump.DrainedMeansCaughtUp | src/tui/attach.ts:146-153 | a session that begins to end either breaks off for a cause or has drained, and then was told of an exit and has written everything it was ever told of |
| AttachPump.EverythingIsNoted | src/tui/attach.ts:129-154 | all that any event told the session before it began to end is in its variables |
| AttachPump.EndHasCause | src/tui/attach.ts:124-226 | a session breaks off exactly when it is interrupted, a fetch is rejected or brings nothing although output is missing, and else ends only when all is written and an exit is known |
| AttachPump.EndedStaysQuiet | src/tui/attach.ts:133-226 | an ended session writes nothing more from fetches, notes no announcement and starts no fetch |
| AttachPump.ProducedIsLogged | src/tui/attach.ts:129-137 | what the terminal produces is news to the session only when it is announced or fetched |
| AttachPump.FetchIsOver | src/tui/attach.ts:204-221 | after an answer the next fetch starts exactly when output is missing or was announced meanwhile |
| AttachPump.WindingIsOver | src/tui/attach.ts:222-225 | the clearing callback starts the pump again exactly when output was queued meanwhile |
| AttachPump.AnnouncementIsFetched | src/tui/attach.ts:129-137 | an announcement starts an idle pump and is otherwise left for the running one |
| AttachPump.ExitEndsAtOnceIff | src/tui/attach.ts:138-154 | an exit ends the session at once exactly when nothing is missing |
| AttachPump.ReplayGoesOn | src/tui/attach.ts:276-330 | after the replay a fetch starts exactly when output is missing, was announced, or may have been produced before the terminal was found ended; else an exit ends the session |
| AttachPump.DrainingEnds | src/tui/attach.ts:198-226 | after the exit a helpful daemon's answers end the session, in at most one fetch more than bytes are missing |
| AttachPump.FetchingRests | src/tui/attach.ts:198-226 | while the terminal runs, answers bring the pump to rest with all announced output written, in boundedly many fetches |
| StreamScanners.KeyScanner.OnData | src/tui/attach.ts:171-196 | one chunk forwards and holds back exactly what scanning it byte by byte does |
| StreamScanners.ScanIgnoresChunks | src/tui/attach.ts:171-196 | how input is cut into chunks makes no difference, up to the chunk that ends the session |
| StreamScanners.LateChunkIsSentUnlessSilent | src/tui/attach.ts:171-196 | of a chunk after the end nothing is sent if and only if it is empty, ends the session at once, or is a bare prefix |
| StreamScanners.EndIsForGood | src/tui/attach.ts:171-196 | a session once ended stays so, and a detach command uses up its prefix byte |
| StreamScanners.ForwardsEverything | src/tui/attach.ts:171-196 | without a detach key the bytes sent and a held prefix are the input |
| StreamScanners.ForwardsUpToDetach | src/tui/attach.ts:171-196 | with a first detach key exactly the input before it is sent, less a held prefix |
| StreamScanners.FrameReader.OnChunk | src/cli/bridge.ts:412-434 | one chunk handles and keeps exactly what reading it byte by byte does |
| StreamScanners.FrameReader.OnEnd | src/cli/bridge.ts:436-437 | the end of input handles an unterminated last line |
| StreamScanners.ReadIgnoresChunks | src/cli/bridge.ts:412-434 | how the stream is cut makes no difference to the reader |
| StreamScanners.HandlesLinesBeforeLongOne | src/cli/bridge.ts:412-434 | exactly the newline-terminated lines before the first one over the limit are handled, and the reader fails if and only if some line, finished or not, is over it |
| StreamScanners.LinesRejoin | src/cli/bridge.ts:412-434 | lines and rest, with their newlines, are the input again |
| CivilDates.OrderIsDayOrder | src/token-usage/timezone.ts:26-50 | calendar order is the order of day numbers, which identify dates |
| CivilDates.FromDayOfNumber | src/token-usage/timezone.ts:33-37 | the date of a date's day number is that date |
| CivilDates.ParseFormat | src/token-usage/timezone.ts:27-38 | reading a written date gives it back |
| CivilDates.StringOrderIsDayOrder | src/token-usage/timezone.ts:42-45 | with four-digit years, comparing date strings compares days |
| CivilDates.ShiftMovesDay | src/token-usage/timezone.ts:26-39 | a shift moves the day number by its delta and stays a date string |
| CivilDates.ShiftsAddUp | src/token-usage/timezone.ts:26-39 | shifts add up, and shifting back undoes a shift |
| CivilDates.GenerateDateSequence | src/token-usage/timezone.ts:41-50 | the loop ends with exactly the consecutive days from one date to the other, or none |
| CivilDates.LoopOverrunsIff | src/token-usage/timezone.ts:45-48 | the day after the end still compares as not later if and only if the end is 9999-12-31 |
| CivilDates.WindowsAreAdjacent | src/token-usage/normalize.ts:389-411 | current and previous window are adjacent and disjoint, and equally long if and only if at least one day was asked for |
| CivilDates.HeatmapStartsOnMonday | src/token-usage/normalize.ts:397-402 | the heatmap starts on the Monday twelve weeks before the current week's Monday |
| CivilDates.EpochWasThursday | src/token-usage/normalize.ts:398-398 | the weekday numbering is that of the calendar |
| TokenReport.Reconcile | src/token-usage/normalize.ts:56-65 | parts count as a breakdown if and only if at most one percent is missing; parts and remainder are then the total, and otherwise the whole total is the remainder |
| TokenReport.SumModelUsage | src/token-usage/normalize.ts:95-102 | the loop merges entries as the specification does |
| TokenReport.MergingKeepsTokens | src/token-usage/normalize.ts:95-109 | merging entries of equal name keeps the tokens overall and for each name, and leaves one entry for each name |
| TokenReport.ModelTotalsAddUp | src/token-usage/normalize.ts:471-484 | each model's total over days is the sum of its entries |
| TokenReport.NormalizeStandardDaily | src/token-usage/normalize.ts:217-292 | the loop takes over each day with its date, tokens and components, each part is the sum of its own kind, models, total and itemization are those of the days, and the earliest date is one of theirs that no other precedes |
| TokenReport.NormalDayKeeps | src/token-usage/normalize.ts:232-257 | a normal day keeps what was reported, and its models exactly when at most one percent is missing from them |
| TokenReport.ModelTokensAreKnown | src/token-usage/normalize.ts:241-244 | a model's tokens are the sum of the four counts its breakdown knows |
| TokenReport.EachPartIsItsSum | src/token-usage/normalize.ts:465-484 | each part is the sum of what the days report of its own kind |
| TokenReport.ReachingBackIsHavingDays | src/token-usage/normalize.ts:503-504 | coverage reaches back to a day if and only if there is no data at all or some on that day or before it |
| TokenReport.StandardDaysFit | src/token-usage/normalize.ts:235-250 | a normalized day shows models only as a breakdown of its total, within one percent, each with its own tokens |
| TokenReport.CodexDaysNeedNotFit | src/token-usage/normalize.ts:163-175 | a Codex day may show models that exceed its total |
| TokenReport.ModelsFitEveryRangeIff | src/token-usage/normalize.ts:471-484 | model totals stay within the agent's total on every set of dates if and only if they do on every single date |
| TokenReport.StandardModelsFitEveryRange | src/token-usage/normalize.ts:471-484 | for an agent with standard output model totals never exceed the agent's total, in any window |
| TokenReport.SequenceCoversWindow | src/token-usage/normalize.ts:390-391 | the generated dates are exactly those of the window |
| TokenReport.SumDays | src/token-usage/normalize.ts:465-484 | the loop over a window's days sums parts and models |
| TokenReport.AgentTokensAreParts | src/token-usage/normalize.ts:486-500 | what an agent shows is its itemized parts plus its remainder |
| TokenReport.AgentReportReads | src/token-usage/normalize.ts:435-610 | what an agent shows in each of its states: no figures, none used, or its days, totals of both windows, each kind of token, itemization and coverage |
| TokenReport.DeriveReport | src/token-usage/normalize.ts:378-659 | summed components plus unitemized tokens are the total, each kind by itself, which is what the agents show and what the days of the window hold; failures are no zeros; the comparison and partial flags are raised exactly when their reasons exist; the percentage is there exactly when there is something to compare with, and is the nearest whole one; the heatmap holds the days between its ends |
| TokenReport.SquaresAre | src/token-usage/normalize.ts:540-545 | an agent's squares are its days between the heatmap's ends, and no others |
| TokenReport.HeatmapExceedsTotals | src/token-usage/normalize.ts:459-545 | on any window inside it the heatmap, which compares date strings, and the total, which looks dates up, differ exactly by the tokens recorded on strings that are no dates |
| TokenReport.ThirtiethOfFebruaryIsNoDate | src/token-usage/schema.ts:47-47 | the date pattern admits a string that is no date and yet compares as a day between two others |
| TokenReport.PreviousIsAnEarlierRangeIff | src/token-usage/normalize.ts:406-411 | the previous window is the range that would have been asked for on its last day if and only if at least one day was asked for |
| TokenReport.PreviousTokensAreAnEarlierReports | src/token-usage/normalize.ts:579-648 | asked for at least one day, previous-window tokens are the tokens the same derivation gives for the earlier day |
| TokenReport.WithoutDaysPreviousIsNothing | src/token-usage/normalize.ts:406-411 | asked for less than one day, the derivation would find no previous tokens |
| TokenReport.GetCachedTokenUsage | src/token-usage/cache.ts:96-137 | whatever number of days a caller passes, current and previous range are equally long and adjacent, the previous one is what the same request covers on its last day, and data of another timezone counts as none |
| TokenReport.ReportedModelsFit | src/token-usage/normalize.ts:565-576 | the models shown, largest first, are all of the window's and never exceed the agent's total |
| StableSort.SortIsStablePermutation | src/token-usage/normalize.ts:574-576 | sorting gives a descending permutation and keeps the order of equal keys |
| CacheRefresh.RefreshKeepsOthersIff | src/token-usage/cache.ts:199-213 | a refresh keeps all other agents' entries if and only if the file is of its timezone or has none to lose |
| CacheRefresh.ErrorReplacesAvailableIff | src/token-usage/cache.ts:183-213 | an available entry becomes an error if and only if a failed scan of another timezone replaces it |
| CacheRefresh.CacheFile.RefreshAgent | src/token-usage/cache.ts:156-217 | an undisturbed refresh is spared exactly for an available snapshot of this timezone less than fifteen seconds old; else the entry is the scan, or the good snapshot that a failed scan leaves, and all other entries of the timezone are as they were |
| CacheRefresh.OneAgentAlone | src/token-usage/cache.ts:156-217 | left alone, a refresher leaves for each agent exactly what an undisturbed refresh leaves, and goes on to the next |
| CacheRefresh.TimeOutSkipsAgent | src/token-usage/cache.ts:146-154 | a lock wait that runs out costs one agent its refresh and writes nothing |
| CacheRefresh.RefreshesAreNeeded | src/token-usage/cache.ts:164-176 | in one timezone no run scans and writes an agent whose snapshot was fresh at that moment |
| CacheRefresh.RefreshesAreSerial | src/token-usage/cache.ts:146-217 | in one timezone any interleaving of refreshes, with crashes and lock timeouts, leaves what the refreshes leave one after the other |
| CacheRefresh.AgentsDoNotInterfere | src/token-usage/cache.ts:203-210 | in one timezone an agent's entry depends on that agent's refreshes alone |
| CacheRefresh.ConcurrentRefreshesKeepResults | src/token-usage/cache.ts:146-217 | concurrent refreshes of other agents never lose an agent's result |
| CacheRefresh.AvailableNeverBecomesError | src/token-usage/cache.ts:183-213 | no step of such a run puts an error where an available snapshot was |
| CacheLocks.LockedRunsAreRuns | src/token-usage/cache.ts:156-219 | over the directory lock, with processes dying anywhere and locks left behind and reclaimed, every run of the refreshers is a run of the refreshes with exclusive locks |
| CacheLocks.SeenIs | src/token-usage/cache.ts:146-219 | a refresher goes on exactly when it needs no lock, its call is inside, or the call it gives back is over; it gives up an agent exactly when the call it waits for failed |
| CacheLocks.LockStepIs | src/token-usage/cache.ts:159-219 | otherwise it makes the call of the lock it needs, or goes one step on with it, and nothing else happens |
| CacheLocks.RefreshStepIs | src/token-usage/cache.ts:156-219 | a step of the refresh touches no lock, and the next agent needs new calls |
| CacheLocks.ProcessesAre | src/state/lock.ts:71-107 | a process that starts is alive to every lock, and its death ends all its calls and refreshers |
| CacheLocks.LockedRefreshesAreSerial | src/token-usage/cache.ts:146-217 | so over the directory lock too, in one timezone, the file is what the refreshes leave one after the other, and an entry is what its own refreshes made of it |
| CacheLocks.LockedActsKeepAvailable | src/token-usage/cache.ts:183-213 | and no act of such a run puts an error where an available snapshot was |
| Handoff.Truncate | src/handoff.ts:94-101 | the result is at most as long as allowed, is the text itself if that fits, and else a prefix and an ellipsis |
| Handoff.TruncateKeepsPairs | src/handoff.ts:94-101 | cutting well-formed text never leaves half a surrogate pair |
| Handoff.WellFormedNeighbours | src/handoff.ts:98-99 | in well-formed text a first half is followed by a second half and only then |
| HandoffText.WellFormedIff | src/handoff.ts:98-99 | text is well formed exactly when all its surrogate halves are paired |
| Handoff.BuildBlocks | src/handoff.ts:219-247 | the loop over kinds builds the specified blocks |
| Handoff.PackBlocks | src/handoff.ts:249-274 | the nested loops build the specified text, and the number they report is that of the omitted items |
| Handoff.BlocksFit | src/handoff.ts:249-274 | packing never passes the limit |
| Handoff.LinesStandInOrder | src/handoff.ts:252-273 | blocks stand in the text in order, each as one line that joins what it shows: its items in order and whole, but for a first one of a block that must say something |
| Handoff.MandatoryIsShownIff | src/handoff.ts:259-270 | the newest next step and blocker are left out if and only if neither they nor a two-character stump has room |
| Handoff.BlocksHoldEverything | src/handoff.ts:186-247 | the items of the blocks are, with multiplicity, the unresolved continuation notes formatted, and the latest failed test |
| Handoff.SharesAreAllItems | src/handoff.ts:249-274 | whole, cut and omitted items together are, with multiplicity, the items of the blocks |
| Handoff.PackedShares | src/handoff.ts:249-274 | every whole item stands unbroken in the packed text, and of every cut item a stump with its ellipsis does |
| Handoff.MandatoryFits | src/handoff.ts:192-217 | the head of the text keeps to the limit, however small |
| Handoff.RenderCompactHandoff | src/handoff.ts:175-320 | text and token estimate keep to their limits; the unresolved continuation notes and the latest failed test fall, each once, into those that stand whole in the text, those of which a stump stands there, and the omitted ones, which are counted |
| Handoff.EveryNoteIsAccountedFor | src/handoff.ts:175-320 | so each unresolved continuation note is in the text, cut in the text, or among the omitted ones |
| HandoffText.ItemsAreNewestFirst | src/handoff.ts:186-190 | the items of a kind are its unresolved notes, formatted, from the newest to the oldest |
| HandoffText.LatestFailedIsShown | src/handoff.ts:164-169 | the test shown is the last of the failed ones, and none is shown exactly when none failed |
| HandoffText.BlocksAre | src/handoff.ts:219-247 | first the newest note of each kind, then the others of each kind, both in the order of the kinds, then the latest failed test; next steps and blockers must say something |
| HandoffText.TitlesAre | src/handoff.ts:141-156 | each kind has its title |
| HandoffText.CompactKeepsWords | src/handoff.ts:90-92 | a compacted text has the same words, one space between each two, and nothing around |
| HandoffText.TruncateKeepsMost | src/handoff.ts:94-101 | a cut text loses only what has no room, white space before the ellipsis, and the first half of a pair |
| HandoffText.NoteReads | src/handoff.ts:158-162 | a note is its text, a dash and its reason if it has one, and a mark if it is out of date |
| HandoffText.TestReads | src/handoff.ts:164-169 | a failed test is named with its command, and its summary if it has one |
| HandoffText.LimitsAreTightest | src/handoff.ts:179-184 | the limits respect every configured one and are one of them |
| HandoffText.HeadKeepsAnchor | src/handoff.ts:192-217 | Git anchor and safety line stand whole whenever there is room for more than them, below as much of the request as has room |
| HandoffText.AnchorReads | src/handoff.ts:197-199 | the anchor names branch and the first seven characters of the commit, and says whether anything has changed |
| HandoffText.ClosingLinesAre | src/handoff.ts:275-285 | the number of omitted items and the coordination line are added exactly when there is room |
| HandoffText.OmissionReads | src/handoff.ts:275-278 | the omission line gives the number, of one item or of several |
| HandoffText.SurrogateHalves | src/handoff.ts:98-99 | the halves of pairs are the two blocks of 1024 code units from 0xd800 on |
| HandoffText.WhiteSpaceIs | src/handoff.ts:90-92 | white space is what regular expressions take for it |
| Handoff.RenderedTextIsWellFormed | src/handoff.ts:175-286 | from well-formed texts the whole rendering is well formed |
| ProcessTree.GroupChildren | src/platform/process-control.ts:77-89 | the loop over the table gives each parent its children in order |
| ProcessTree.EndsIff | src/platform/process-control.ts:91-98 | the traversal ends if and only if the root is not its own descendant |
| ProcessTree.FindDescendants | src/platform/process-control.ts:71-102 | each descendant is returned exactly once, nothing else is, and every process comes before its ancestors |
| ProcessTree.SignalOrder | src/platform/process-control.ts:59-68 | every descendant and then the root is signalled once, each before its ancestors |

## Left out

- The filesystem, Git, sockets, child processes, timers and fsync: only their atomic effects are kept. Publishing a claim by rename is one atomic create-if-absent; removing an owned directory is one atomic compare-and-delete, except where the split form is studied; state, journal and cache files are replaced atomically.
- Unreadable owner metadata of a lock: a published directory always carries its owner record.
- LockOutcomes.EntersWhenLeftAlone: progress, here and in DirectoryLock.DeadOwnersAreReplaced, is shown for a call that is left alone, because with rivals the bounded retries may run out.
- Waiting between attempts: a pause is not a step of the lock; a stale gate and a live one differ only in what is done before the next attempt.
- JSON, schema parsing, hashes, identifiers and clocks: hashes are compared through what they are taken of, new identifiers are parameters, times are integers, and path canonicalisation is an arbitrary function.
- RunTheorems.LeasesAreUnfinishedRuns: that every unfinished run has a lease is claimed for unshared terminals, because a shared one breaks it (RunTheorems.SharedTerminalLosesLease); RunTheorems.CandidateIsFinalized needs the same.
- RunTheorems.LaunchedAtMostOnce: session ids of new tasks are taken to be fresh.
- ThreadSafety.SentExactlyOnce: message ids are taken to be fresh, as random identifiers are.
- Agreement of the history's lifecycle with its lease after an orphan: the observation's history branch lacks the lease's guard (`src/cli/bridge.ts:262-267`), so it is not a property of the program.
- A unique winner among orphan bids: bids are kept in a window of eight and a later one may win too.
- A label changed by a rename is lost when the session manager finalizes, because it writes back the record it launched with; the model does the same, and no property is claimed.
- A new task's ledger starts empty (`src/application/project-setup.ts:83`), so a record outlives no replacement.
- Option parsing of the bridge commands, privacy and redaction rules, byte limits on message bodies and cards, and prefix stripping of message ids.
- CivilDates.GenerateDateSequence: dates have four-digit years from 1000 on, and the end is not 9999-12-31, where the loop overruns (CivilDates.LoopOverrunsIff).
- Reasoning tokens, which no total counts, and the codes and texts of failures.
- Token counts are whole numbers, and the one percent tolerance and the seven tenths of the handoff's task line and the comparison's percentage are computed exactly; the program uses floating point.
- TokenReport.DeriveReport: dates of both windows and of the heatmap have four-digit years and today is not 9999-12-31; sessions, freshness, notes and the wording of the comparison are not derived.
- ThreadViews.SummarizeThreads: lower-casing and substring search of the filter are an arbitrary predicate of text.
- CacheLocks.LockedRunsAreRuns: a refresh ends by finishing, by a lock wait that runs out or by the death of its process; other exceptions are only in CacheRefresh, and an unreadable cache file does not occur.
- Handoff.RenderCompactHandoff: the duplicate-task and note-instruction checks on the finished text are left out; note times are integers.
- ProcessTree.FindDescendants: pids are unique in the table, as `ps` lists them, and rows that do not parse are gone already; the Windows branch is left out.
- The activity lock (`src/state/activity.ts`) repeats the lock modelled here; migrations, provider adapters, usage collectors, model catalogs, exit classification and all user interface would only add easy members.
