/** How calls of the directory lock end: what a call that gives up has met on its way, and that a
    call which meets nothing gets in from wherever it stands. */
module LockOutcomes {
  import opened Wrappers
  import opened DirectoryLock

  function Reached(es: seq<Event>): State {
    Exec(false, Initial(), es)
  }

  /** How many attempts each call was given, in the order in which the calls were made. */
  function Grants(es: seq<Event>): seq<nat> {
    if es == [] then []
    else
      var n := |es| - 1;
      Grants(es[..n]) + (if es[n].Spawn? then [es[n].attempts] else [])
  }

  // ---------------------------------------------------------------- what a call has met

  /** In its attempt `a` call `i` has the gate and finds an owner of the lock that it has no proof to
      be dead. */
  ghost predicate FindsOwner(es: seq<Event>, n: nat, i: nat, a: nat) {
    && n < |es| && es[n] == Run(i)
    && var s := Reached(es[..n]);
       && i < |s.tasks| && s.tasks[i].pc.LockCheck? && s.tasks[i].pc.attempt == a
       && s.lock.Some? && !IsStale(s, s.tasks[i].place, s.lock)
  }

  ghost predicate MetOwner(es: seq<Event>, i: nat, a: nat) {
    exists n: nat :: FindsOwner(es, n, i, a)
  }

  /** In try `u` of taking the gate for its attempt `a`, or for its release, call `i` finds it taken. */
  ghost predicate FindsGate(es: seq<Event>, n: nat, i: nat, a: Option<nat>, u: nat) {
    && n < |es| && es[n] == Run(i)
    && var s := Reached(es[..n]);
       && i < |s.tasks| && s.gate.Some?
       && s.tasks[i].pc.GateClaim? && AttemptOf(s.tasks[i].pc.why) == a && s.tasks[i].pc.tries == u
  }

  function AttemptOf(why: Purpose): Option<nat> {
    match why
    case ToAcquire(a, _) => Some(a)
    case ToRelease(_) => None
  }

  ghost predicate MetGate(es: seq<Event>, i: nat, a: Option<nat>, u: nat) {
    exists n: nat :: FindsGate(es, n, i, a, u)
  }

  ghost predicate InsideAt(es: seq<Event>, n: nat, i: nat) {
    n <= |es| && i < |Reached(es[..n]).tasks| && Reached(es[..n]).tasks[i].pc.Body?
  }

  ghost predicate WasInside(es: seq<Event>, i: nat) {
    exists n: nat :: InsideAt(es, n, i)
  }

  ghost predicate MetOwners(es: seq<Event>, i: nat, k: nat) {
    forall a: nat | a < k :: MetOwner(es, i, a)
  }

  ghost predicate MetGates(es: seq<Event>, i: nat, a: Option<nat>, k: nat) {
    forall u: nat | u < k :: MetGate(es, i, a, u)
  }

  /** Every one of its attempts met an owner, or in one attempt every try met a taken gate. */
  ghost predicate Exhausted(es: seq<Event>, i: nat, attempts: nat) {
    MetOwners(es, i, attempts) || exists a: nat :: a < attempts && MetGates(es, i, Some(a), ACQUIRE_ATTEMPTS)
  }

  /** The call was inside, and every try to take the gate for its release met a taken one. */
  ghost predicate Stranded(es: seq<Event>, i: nat) {
    WasInside(es, i) && MetGates(es, i, None, ACQUIRE_ATTEMPTS)
  }

  // ---------------------------------------------------------------- what a position tells of the past

  ghost predicate WhyExplained(es: seq<Event>, i: nat, grant: nat, why: Purpose, tries: nat) {
    && MetGates(es, i, AttemptOf(why), tries) && tries <= ACQUIRE_ATTEMPTS
    && match why
       case ToAcquire(a, attempts) => a < attempts == grant && MetOwners(es, i, a)
       case ToRelease(_) => WasInside(es, i)
  }

  ghost predicate ResumeExplained(es: seq<Event>, i: nat, grant: nat, resume: Resume) {
    match resume
    case RetryGate(why, tries) => WhyExplained(es, i, grant, why, tries + 1)
    case DropGate(_) => WasInside(es, i)
    case EnterBody(_) => true
    case RetryAcquire(a, attempts) => a < attempts == grant && MetOwners(es, i, a + 1)
    case Return => WasInside(es, i)
    case Raise => false
  }

  ghost predicate Explained(es: seq<Event>, i: nat, grant: nat, pc: Pc) {
    match pc
    case GateClaim(why, tries) => tries < ACQUIRE_ATTEMPTS && WhyExplained(es, i, grant, why, tries)
    case GateRead(why, tries) => WhyExplained(es, i, grant, why, tries + 1)
    case GateCheck(why, tries, _) => WhyExplained(es, i, grant, why, tries + 1)
    case LockClaim(a, attempts, _) => a < attempts == grant && MetOwners(es, i, a)
    case LockRead(a, attempts, _) => a < attempts == grant && MetOwners(es, i, a)
    case LockCheck(a, attempts, _, _) => a < attempts == grant && MetOwners(es, i, a)
    case LockRemove(a, attempts, _, _) => a < attempts == grant && MetOwners(es, i, a)
    case LockRecreate(a, attempts, _) => a < attempts == grant && MetOwners(es, i, a)
    case Compare(_, _, resume) => ResumeExplained(es, i, grant, resume)
    case Delete(_, _, resume) => ResumeExplained(es, i, grant, resume)
    case Body(_) => WasInside(es, i)
    case Returned => WasInside(es, i)
    case Failed => Stranded(es, i) || Exhausted(es, i, grant)
    case Dead => true
  }

  lemma EventsRemain(es: seq<Event>, e: Event, i: nat)
    ensures WasInside(es, i) ==> WasInside(es + [e], i)
    ensures forall a | MetOwner(es, i, a) :: MetOwner(es + [e], i, a)
    ensures forall a, u | MetGate(es, i, a, u) :: MetGate(es + [e], i, a, u)
  {
    hide Exec, IsStale;
    var longer := es + [e];
    assert forall n | 0 <= n <= |es| :: longer[..n] == es[..n];
    if WasInside(es, i) {
      var n: nat :| InsideAt(es, n, i);
      assert InsideAt(longer, n, i);
    }
    forall a | MetOwner(es, i, a) ensures MetOwner(longer, i, a) {
      var n: nat :| FindsOwner(es, n, i, a);
      assert FindsOwner(longer, n, i, a);
    }
    forall a, u | MetGate(es, i, a, u) ensures MetGate(longer, i, a, u) {
      var n: nat :| FindsGate(es, n, i, a, u);
      assert FindsGate(longer, n, i, a, u);
    }
  }

  lemma StaysExplained(es: seq<Event>, e: Event, i: nat, grant: nat, pc: Pc)
    requires Explained(es, i, grant, pc)
    ensures Explained(es + [e], i, grant, pc)
  {
    EventsRemain(es, e, i);
    hide MetOwner, MetGate, WasInside;
    if Exhausted(es, i, grant) {
      ExhaustionRemains(es, e, i, grant);
    }
    hide Exhausted;
  }

  lemma ExhaustionRemains(es: seq<Event>, e: Event, i: nat, attempts: nat)
    requires Exhausted(es, i, attempts)
    ensures Exhausted(es + [e], i, attempts)
  {
    EventsRemain(es, e, i);
    hide MetOwner, MetGate, WasInside;
    if !MetOwners(es, i, attempts) {
      var a: nat :| a < attempts && MetGates(es, i, Some(a), ACQUIRE_ATTEMPTS);
      assert MetGates(es + [e], i, Some(a), ACQUIRE_ATTEMPTS);
    }
  }

  // ---------------------------------------------------------------- own steps

  lemma InsideNow(es: seq<Event>, i: nat)
    requires i < |Reached(es).tasks| && Reached(es).tasks[i].pc.Body?
    ensures WasInside(es, i)
  {
    assert es[..|es|] == es;
    assert InsideAt(es, |es|, i);
  }

  lemma OwnerIsMet(es: seq<Event>, i: nat, a: nat)
    requires var s := Reached(es);
      && i < |s.tasks| && s.tasks[i].pc.LockCheck? && s.tasks[i].pc.attempt == a
      && s.lock.Some? && !IsStale(s, s.tasks[i].place, s.lock)
    ensures MetOwner(es + [Run(i)], i, a)
  {
    assert (es + [Run(i)])[..|es|] == es;
    assert FindsOwner(es + [Run(i)], |es|, i, a);
  }

  lemma GateIsMet(es: seq<Event>, i: nat, why: Purpose, u: nat)
    requires var s := Reached(es); i < |s.tasks| && s.tasks[i].pc == GateClaim(why, u) && s.gate.Some?
    ensures MetGate(es + [Run(i)], i, AttemptOf(why), u)
  {
    assert (es + [Run(i)])[..|es|] == es;
    assert FindsGate(es + [Run(i)], |es|, i, AttemptOf(why), u);
  }

  lemma NextTryIsExplained(es: seq<Event>, i: nat, grant: nat, why: Purpose, tries: nat)
    requires WhyExplained(es, i, grant, why, tries + 1)
    ensures Explained(es, i, grant, NextGateTry(why, tries))
  {
    hide MetOwners, WasInside;
  }

  lemma NextAttemptIsExplained(es: seq<Event>, i: nat, grant: nat, a: nat)
    requires a < grant && MetOwners(es, i, a + 1)
    ensures Explained(es, i, grant, NextAcquire(a, grant))
  {
    hide MetGate, MetOwner;
  }

  lemma GateStepIsExplained(es: seq<Event>, i: nat, grant: nat)
    requires var s := Reached(es); i < |s.tasks| && Explained(es, i, grant, s.tasks[i].pc) && TakesTheGate(s.tasks[i].pc)
    ensures Explained(es + [Run(i)], i, grant, Advance(false, Reached(es), i).tasks[i].pc)
  {
    var s := Reached(es);
    var pc := s.tasks[i].pc;
    EventsRemain(es, Run(i), i);
    if pc.GateClaim? && s.gate.Some? {
      GateIsMet(es, i, pc.why, pc.tries);
    } else if pc.GateCheck? {
      StaysExplained(es, Run(i), i, grant, pc);
      NextTryIsExplained(es + [Run(i)], i, grant, pc.why, pc.tries);
    }
    hide MetOwner, MetGate, WasInside, Reached, IsStale;
  }

  /** Whether the lock is taken while a call that has found it so looks at it. */
  ghost predicate LookedAt(s: State, pc: Pc) {
    (pc.LockRead? ==> s.lock.Some?) && (pc.LockCheck? ==> pc.seen == s.lock && s.lock.Some?)
      && (pc.LockRecreate? ==> s.lock.None?)
  }

  lemma LockStepIsExplained(es: seq<Event>, i: nat, grant: nat)
    requires var s := Reached(es); i < |s.tasks| && Explained(es, i, grant, s.tasks[i].pc) && TakesTheLock(s.tasks[i].pc)
    requires LookedAt(Reached(es), Reached(es).tasks[i].pc)
    ensures Explained(es + [Run(i)], i, grant, Advance(false, Reached(es), i).tasks[i].pc)
  {
    var s := Reached(es);
    var pc := s.tasks[i].pc;
    EventsRemain(es, Run(i), i);
    if pc.LockCheck? && !IsStale(s, s.tasks[i].place, s.lock) {
      OwnerIsMet(es, i, pc.attempt);
    }
    hide MetOwner, MetGate, WasInside, Reached, IsStale;
  }

  lemma RemovalIsExplained(es: seq<Event>, i: nat, grant: nat)
    requires var s := Reached(es); i < |s.tasks| && Explained(es, i, grant, s.tasks[i].pc) && s.tasks[i].pc.Compare?
    ensures Explained(es + [Run(i)], i, grant, Advance(false, Reached(es), i).tasks[i].pc)
  {
    var s := Reached(es);
    var longer := es + [Run(i)];
    var resume := s.tasks[i].pc.resume;
    StaysExplained(es, Run(i), i, grant, s.tasks[i].pc);
    assert longer[..|es|] == es;
    var pc := Advance(false, s, i).tasks[i].pc;
    assert pc == Continue(resume);
    match resume
    case RetryGate(why, tries) => NextTryIsExplained(longer, i, grant, why, tries);
    case RetryAcquire(a, _) => NextAttemptIsExplained(longer, i, grant, a);
    case EnterBody(_) => InsideNow(longer, i);
    case _ =>
  }

  lemma OwnStepIsExplained(es: seq<Event>, i: nat, grant: nat)
    requires var s := Reached(es); i < |s.tasks| && Explained(es, i, grant, s.tasks[i].pc) && !s.tasks[i].pc.Delete?
    requires LookedAt(Reached(es), Reached(es).tasks[i].pc)
    ensures Explained(es + [Run(i)], i, grant, Advance(false, Reached(es), i).tasks[i].pc)
  {
    var pc := Reached(es).tasks[i].pc;
    hide Reached;
    if TakesTheGate(pc) {
      GateStepIsExplained(es, i, grant);
    } else if TakesTheLock(pc) {
      LockStepIsExplained(es, i, grant);
    } else if pc.Compare? {
      RemovalIsExplained(es, i, grant);
    } else {
      StaysExplained(es, Run(i), i, grant, pc);
      hide WasInside, Exhausted;
    }
  }

  // ---------------------------------------------------------------- over every run

  /** The gate keeps the lock as it is for the call that looks at it. */
  ghost predicate AllLookedAt(s: State) {
    forall k | 0 <= k < |s.tasks| :: LookedAt(s, s.tasks[k].pc)
  }

  lemma OwnLook(s: State, i: nat)
    requires i < |s.tasks| && TaskOk(s, s.tasks[i]) && LookedAt(s, s.tasks[i].pc)
    ensures var t := Advance(false, s, i); LookedAt(t, t.tasks[i].pc)
  {
    hide Unheld, Issued, IsStale;
  }

  /** A step changes the lock only if the acting call holds the gate. */
  lemma LockChangesUnderGate(s: State, i: nat)
    requires i < |s.tasks| && TaskOk(s, s.tasks[i]) && !s.tasks[i].pc.Delete?
    ensures Advance(false, s, i).lock == s.lock || GateHeld(s.tasks[i].pc).Some?
  {
    hide Unheld, Issued, IsStale;
  }

  lemma StepKeepsLooks(s: State, i: nat)
    requires Inv(s) && NoPendingDelete(s) && AllLookedAt(s) && i < |s.tasks|
    ensures AllLookedAt(Advance(false, s, i))
  {
    var t := Advance(false, s, i);
    assert TaskOk(s, s.tasks[i]);
    OwnLook(s, i);
    LockChangesUnderGate(s, i);
    AdvanceMovesOneTask(false, s, i);
    hide Advance, TaskOk;
    forall k | 0 <= k < |t.tasks| ensures LookedAt(t, t.tasks[k].pc) {
      if k != i && TakesTheLock(s.tasks[k].pc) {
        assert Held(s.tasks[k].pc, Gate).Some?;
        assert Held(s.tasks[i].pc, Gate).None?;
      }
    }
  }

  lemma EventKeepsLooks(s: State, e: Event)
    requires Inv(s) && NoPendingDelete(s) && AllLookedAt(s)
    ensures AllLookedAt(Do(false, s, e))
  {
    hide Inv;
    match e
    case Run(i) => if i < |s.tasks| { StepKeepsLooks(s, i); }
    case Spawn(_, _) =>
    case Crash(_) =>
  }

  lemma ReachedIsSafe(es: seq<Event>)
    ensures Inv(Reached(es)) && NoPendingDelete(Reached(es))
  {
    RunsKeepInv(es);
    AtomicRunsAreCareful(Initial(), es);
  }

  lemma {:induction false} LooksAreRight(es: seq<Event>)
    ensures AllLookedAt(Reached(es))
  {
    if es != [] {
      var n := |es| - 1;
      LooksAreRight(es[..n]);
      ReachedIsSafe(es[..n]);
      EventKeepsLooks(Reached(es[..n]), es[n]);
    }
  }

  lemma NewCallIsExplained(es: seq<Event>, e: Event)
    requires e.Spawn?
    ensures var t := Do(false, Reached(es), e); var i := |Reached(es).tasks|;
      Explained(es + [e], i, e.attempts, t.tasks[i].pc)
  {
    hide MetOwner, MetGate;
  }

  lemma EventIsExplained(es: seq<Event>, e: Event, i: nat, grant: nat)
    requires var s := Reached(es); i < |s.tasks| && Explained(es, i, grant, s.tasks[i].pc) && LookedAt(s, s.tasks[i].pc)
    requires NoPendingDelete(Reached(es))
    ensures var t := Do(false, Reached(es), e); i < |t.tasks| && Explained(es + [e], i, grant, t.tasks[i].pc)
  {
    var s := Reached(es);
    hide Reached, LookedAt;
    StaysExplained(es, e, i, grant, s.tasks[i].pc);
    if e == Run(i) {
      assert !s.tasks[i].pc.Delete?;
      AdvanceMovesOneTask(false, s, i);
      OwnStepIsExplained(es, i, grant);
    } else if e.Run? && e.task < |s.tasks| {
      AdvanceMovesOneTask(false, s, e.task);
    }
    hide Explained, Advance;
  }

  lemma {:induction false} CallsAreExplained(es: seq<Event>, i: nat)
    requires i < |Reached(es).tasks|
    ensures |Grants(es)| == |Reached(es).tasks|
    ensures Explained(es, i, Grants(es)[i], Reached(es).tasks[i].pc)
  {
    if es != [] {
      var n := |es| - 1;
      var s := Reached(es[..n]);
      assert Reached(es) == Do(false, s, es[n]) && es[..n] + [es[n]] == es;
      hide Reached, Explained;
      GrantsAreCalls(es[..n]);
      if i < |s.tasks| {
        CallsAreExplained(es[..n], i);
        ReachedIsSafe(es[..n]);
        LooksAreRight(es[..n]);
        EventIsExplained(es[..n], es[n], i, Grants(es[..n])[i]);
      } else {
        OnlySpawnsAdd(s, es[n]);
        NewCallIsExplained(es[..n], es[n]);
      }
      GrantsAreCalls(es);
    }
  }

  lemma OnlySpawnsAdd(s: State, e: Event)
    ensures |Do(false, s, e).tasks| == |s.tasks| + if e.Spawn? then 1 else 0
  {
    if e.Run? && e.task < |s.tasks| {
      AdvanceMovesOneTask(false, s, e.task);
      hide Advance;
    }
  }

  lemma {:induction false} GrantsAreCalls(es: seq<Event>)
    ensures |Grants(es)| == |Reached(es).tasks|
  {
    if es != [] {
      var n := |es| - 1;
      GrantsAreCalls(es[..n]);
      OnlySpawnsAdd(Reached(es[..n]), es[n]);
      hide Do;
    }
  }

  /** A call that has failed, its process alive, has met in each of the attempts it was given an owner
      that it had no proof to be dead, or a taken gate in all the tries of one attempt; or it was
      inside and has met a taken gate in all the tries of its release. A call that has returned was
      inside. */
  lemma GivingUpHasCause(es: seq<Event>, i: nat)
    requires i < |Reached(es).tasks|
    ensures i < |Grants(es)|
    ensures Reached(es).tasks[i].pc.Failed? ==> Exhausted(es, i, Grants(es)[i]) || Stranded(es, i)
    ensures Reached(es).tasks[i].pc.Returned? ==> WasInside(es, i)
  {
    CallsAreExplained(es, i);
    hide Reached, WasInside, Exhausted, Stranded;
  }

  // ---------------------------------------------------------------- a call that is left alone gets in

  /** Neither directory stands in the way of call `i`: free, its own, or left by a dead process. */
  predicate Unblocked(s: State, i: nat)
    requires i < |s.tasks|
  {
    && (s.gate.None? || IsStale(s, s.tasks[i].place, s.gate) || GateHeld(s.tasks[i].pc) == s.gate)
    && (s.lock.None? || IsStale(s, s.tasks[i].place, s.lock) || LockHeld(s.tasks[i].pc) == s.lock)
  }

  /** What the call read of the gate is still so, or the gate is free. */
  predicate UpToDate(s: State, seen: Option<Owner>) {
    s.gate.None? || seen == s.gate
  }

  /** The call is on its way in, with a further try or attempt where it will need one. */
  predicate OnItsWay(s: State, pc: Pc) {
    match pc
    case GateClaim(why, tries) => why.ToAcquire? && (s.gate.None? || tries + 1 < ACQUIRE_ATTEMPTS)
    case GateRead(why, tries) => why.ToAcquire? && tries + 1 < ACQUIRE_ATTEMPTS
    case GateCheck(why, tries, seen) =>
      why.ToAcquire? && (if UpToDate(s, seen) then tries + 1 else tries + 2) < ACQUIRE_ATTEMPTS
    case Compare(_, expected, resume) => (
      match resume
      case RetryGate(why, tries) =>
        why.ToAcquire? && (if UpToDate(s, Some(expected)) then tries + 1 else tries + 2) < ACQUIRE_ATTEMPTS
      case EnterBody(_) => true
      case RetryAcquire(attempt, attempts) => attempt + 1 < attempts
      case _ => false
    )
    case _ => TakesTheLock(pc)
  }

  datatype Goal = Inside | Over

  /** The call is in the body, or has returned. */
  ghost predicate Arrived(s: State, i: nat, goal: Goal) {
    match goal
    case Inside => EnteredOnDisk(s, i)
    case Over => i < |s.tasks| && s.tasks[i].pc.Returned?
  }

  ghost predicate ArrivesWithin(s: State, i: nat, goal: Goal, bound: nat) {
    exists n: nat | n <= bound :: Arrived(Exec(false, s, Alone(i, n)), i, goal)
  }

  ghost predicate Sound(s: State) {
    Inv(s) && NoPendingDelete(s)
  }

  lemma StepIsSound(s: State, i: nat)
    requires Sound(s) && i < |s.tasks|
    ensures Sound(Advance(false, s, i)) && i < |Advance(false, s, i).tasks|
    ensures Advance(false, s, i).alive == s.alive && Advance(false, s, i).tasks[i].place == s.tasks[i].place
  {
    AdvanceMovesOneTask(false, s, i);
    DoKeepsInv(false, s, Run(i));
    AtomicStepLeavesNoPendingDelete(s, Run(i));
  }

  /** One step more on the way in. */
  lemma StepFirst(s: State, i: nat, goal: Goal, bound: nat)
    requires i < |s.tasks| && ArrivesWithin(Advance(false, s, i), i, goal, bound)
    ensures ArrivesWithin(s, i, goal, bound + 1)
  {
    hide Exec, Advance, Arrived;
    NoneYet(s, i);
    OneMore(s, i, 0);
    var t := Advance(false, s, i);
    var n: nat :| n <= bound && Arrived(Exec(false, t, Alone(i, n)), i, goal);
    ExecAppends(false, s, Alone(i, 1), Alone(i, n));
    assert Alone(i, 1) + Alone(i, n) == Alone(i, n + 1);
  }

  lemma Within(s: State, i: nat, goal: Goal, bound: nat, wider: nat)
    requires ArrivesWithin(s, i, goal, bound) && bound <= wider
    ensures ArrivesWithin(s, i, goal, wider)
  {
    hide Arrived;
  }

  lemma Now(s: State, i: nat, goal: Goal)
    requires Arrived(s, i, goal)
    ensures ArrivesWithin(s, i, goal, 0)
  {
    NoneYet(s, i);
    hide Exec;
  }

  lemma EntersFromClaim(s: State, i: nat)
    requires Sound(s) && i < |s.tasks| && Unblocked(s, i)
    requires s.tasks[i].pc.Compare? && s.tasks[i].pc.resume.EnterBody?
    ensures ArrivesWithin(s, i, Inside, 1)
  {
    assert TaskOk(s, s.tasks[i]);
    Now(Advance(false, s, i), i, Inside);
    StepFirst(s, i, Inside, 0);
  }

  /** The steps left from a position that holds the gate. */
  function LockStepsLeft(pc: Pc): nat {
    match pc
    case LockClaim(_, _, _) => 6
    case LockRead(_, _, _) => 5
    case LockCheck(_, _, _, _) => 4
    case LockRemove(_, _, _, _) => 3
    case _ => 2
  }

  lemma LockStepGoesOn(s: State, i: nat)
    requires i < |s.tasks| && TaskOk(s, s.tasks[i]) && Unblocked(s, i) && LookedAt(s, s.tasks[i].pc)
    requires TakesTheLock(s.tasks[i].pc)
    ensures var t := Advance(false, s, i); var pc := t.tasks[i].pc;
      && Unblocked(t, i) && LookedAt(t, pc)
      && ((pc.Compare? && pc.resume.EnterBody?) || (TakesTheLock(pc) && LockStepsLeft(pc) < LockStepsLeft(s.tasks[i].pc)))
  {
    hide Unheld, Issued;
  }

  lemma {:induction false} EntersFromLockBy(s: State, i: nat)
    requires Sound(s) && i < |s.tasks| && Unblocked(s, i) && LookedAt(s, s.tasks[i].pc) && TakesTheLock(s.tasks[i].pc)
    ensures ArrivesWithin(s, i, Inside, LockStepsLeft(s.tasks[i].pc))
    decreases LockStepsLeft(s.tasks[i].pc)
  {
    assert TaskOk(s, s.tasks[i]);
    var t := Advance(false, s, i);
    StepIsSound(s, i);
    LockStepGoesOn(s, i);
    hide Sound, TaskOk, Unblocked, LookedAt, Advance;
    var pc := t.tasks[i].pc;
    if pc.Compare? {
      EntersFromClaim(t, i);
      Within(t, i, Inside, 1, LockStepsLeft(s.tasks[i].pc) - 1);
    } else {
      EntersFromLockBy(t, i);
      Within(t, i, Inside, LockStepsLeft(pc), LockStepsLeft(s.tasks[i].pc) - 1);
    }
    StepFirst(s, i, Inside, LockStepsLeft(s.tasks[i].pc) - 1);
  }

  /** The steps left on the way in. */
  function EntryStepsLeft(s: State, place: Place, pc: Pc): nat {
    match pc
    case GateClaim(_, _) => if s.gate.None? then 7 else 11
    case GateRead(_, _) => if s.gate.None? then 9 else 10
    case GateCheck(_, _, seen) =>
      if UpToDate(s, seen) then (if IsStale(s, place, seen) then 9 else 8)
      else if IsStale(s, place, seen) then 13 else 12
    case Compare(_, expected, resume) =>
      if resume.EnterBody? then 1 else if resume.RetryAcquire? || UpToDate(s, Some(expected)) then 8 else 12
    case _ => LockStepsLeft(pc)
  }

  lemma GateStepGoesOn(s: State, i: nat)
    requires i < |s.tasks| && TaskOk(s, s.tasks[i]) && Unblocked(s, i) && OnItsWay(s, s.tasks[i].pc)
    requires TakesTheGate(s.tasks[i].pc)
    ensures var t := Advance(false, s, i); var task := t.tasks[i];
      && Unblocked(t, i) && OnItsWay(t, task.pc) && LookedAt(t, task.pc)
      && EntryStepsLeft(t, task.place, task.pc) < EntryStepsLeft(s, task.place, s.tasks[i].pc)
  {
    hide Unheld, Issued;
  }

  lemma RemovalGoesOn(s: State, i: nat)
    requires i < |s.tasks| && TaskOk(s, s.tasks[i]) && Unblocked(s, i) && OnItsWay(s, s.tasks[i].pc)
    requires s.tasks[i].pc.Compare? && !s.tasks[i].pc.resume.EnterBody?
    ensures var t := Advance(false, s, i); var task := t.tasks[i];
      && Unblocked(t, i) && OnItsWay(t, task.pc) && LookedAt(t, task.pc)
      && EntryStepsLeft(t, task.place, task.pc) < EntryStepsLeft(s, task.place, s.tasks[i].pc)
  {
    hide Unheld, Issued;
  }

  lemma {:induction false} EntersFrom(s: State, i: nat)
    requires Sound(s) && i < |s.tasks| && Unblocked(s, i) && LookedAt(s, s.tasks[i].pc) && OnItsWay(s, s.tasks[i].pc)
    ensures ArrivesWithin(s, i, Inside, EntryStepsLeft(s, s.tasks[i].place, s.tasks[i].pc))
    decreases EntryStepsLeft(s, s.tasks[i].place, s.tasks[i].pc)
  {
    var pc := s.tasks[i].pc;
    if TakesTheLock(pc) {
      EntersFromLockBy(s, i);
    } else if pc.Compare? && pc.resume.EnterBody? {
      EntersFromClaim(s, i);
    } else {
      var t := Advance(false, s, i);
      assert TaskOk(s, s.tasks[i]);
      StepIsSound(s, i);
      if TakesTheGate(pc) {
        GateStepGoesOn(s, i);
      } else {
        RemovalGoesOn(s, i);
      }
      var left := EntryStepsLeft(s, s.tasks[i].place, pc);
      hide Sound, TaskOk, Unblocked, LookedAt, OnItsWay, Advance, EntryStepsLeft, ArrivesWithin;
      EntersFrom(t, i);
      Within(t, i, Inside, EntryStepsLeft(t, t.tasks[i].place, t.tasks[i].pc), left - 1);
      StepFirst(s, i, Inside, left - 1);
    }
  }

  /** From wherever it stands on its way in, and whatever it met before, a call that is left alone
      enters within thirteen steps once nothing is in its way and it has a try left. */
  lemma EntersWhenLeftAlone(es: seq<Event>, i: nat)
    requires i < |Reached(es).tasks| && OnItsWay(Reached(es), Reached(es).tasks[i].pc) && Unblocked(Reached(es), i)
    ensures ArrivesWithin(Reached(es), i, Inside, 13)
  {
    var s := Reached(es);
    ReachedIsSafe(es);
    LooksAreRight(es);
    assert LookedAt(s, s.tasks[i].pc);
    hide Reached, Unblocked, OnItsWay, LookedAt, ArrivesWithin;
    EntersFrom(s, i);
    Within(s, i, Inside, EntryStepsLeft(s, s.tasks[i].place, s.tasks[i].pc), 13);
  }

  // ---------------------------------------------------------------- a call that is left alone gets out

  /** The call is on its way out, with a further try where it will need one. */
  predicate OnItsWayOut(s: State, pc: Pc) {
    match pc
    case Body(_) => true
    case GateClaim(why, tries) => why.ToRelease? && (s.gate.None? || tries + 1 < ACQUIRE_ATTEMPTS)
    case GateRead(why, tries) => why.ToRelease? && tries + 1 < ACQUIRE_ATTEMPTS
    case GateCheck(why, tries, seen) =>
      why.ToRelease? && (if UpToDate(s, seen) then tries + 1 else tries + 2) < ACQUIRE_ATTEMPTS
    case Compare(_, expected, resume) => (
      match resume
      case RetryGate(why, tries) =>
        why.ToRelease? && (if UpToDate(s, Some(expected)) then tries + 1 else tries + 2) < ACQUIRE_ATTEMPTS
      case DropGate(_) => true
      case Return => true
      case _ => false
    )
    case _ => false
  }

  function ExitStepsLeft(s: State, place: Place, pc: Pc): nat {
    match pc
    case Body(_) => 8
    case GateClaim(_, _) => if s.gate.None? then 3 else 7
    case GateRead(_, _) => if s.gate.None? then 5 else 6
    case GateCheck(_, _, seen) =>
      if UpToDate(s, seen) then (if IsStale(s, place, seen) then 5 else 4)
      else if IsStale(s, place, seen) then 9 else 8
    case Compare(_, expected, resume) =>
      if resume.Return? then 1 else if resume.DropGate? then 2 else if UpToDate(s, Some(expected)) then 4 else 8
    case _ => 0
  }

  predicate GateUnblocked(s: State, i: nat)
    requires i < |s.tasks|
  {
    s.gate.None? || IsStale(s, s.tasks[i].place, s.gate) || GateHeld(s.tasks[i].pc) == s.gate
  }

  lemma ExitStepGoesOn(s: State, i: nat)
    requires i < |s.tasks| && TaskOk(s, s.tasks[i]) && GateUnblocked(s, i) && OnItsWayOut(s, s.tasks[i].pc)
    ensures var t := Advance(false, s, i); var task := t.tasks[i];
      || task.pc.Returned?
      || (GateUnblocked(t, i) && OnItsWayOut(t, task.pc)
          && ExitLeft(t, task) < ExitLeft(s, s.tasks[i]))
    ensures ExitLeft(s, s.tasks[i]) > 0
  {
    hide Unheld, Issued;
  }

  function ExitLeft(s: State, task: Task): nat {
    ExitStepsLeft(s, task.place, task.pc)
  }

  lemma {:induction false} ReturnsFrom(s: State, i: nat)
    requires Sound(s) && i < |s.tasks| && GateUnblocked(s, i) && OnItsWayOut(s, s.tasks[i].pc)
    ensures ArrivesWithin(s, i, Over, ExitLeft(s, s.tasks[i]))
    decreases ExitLeft(s, s.tasks[i])
  {
    var t := Advance(false, s, i);
    assert TaskOk(s, s.tasks[i]);
    StepIsSound(s, i);
    ExitStepGoesOn(s, i);
    var left := ExitLeft(s, s.tasks[i]);
    if t.tasks[i].pc.Returned? {
      Now(t, i, Over);
      Within(t, i, Over, 0, left - 1);
    } else {
      hide Sound, TaskOk, GateUnblocked, OnItsWayOut, Advance, ExitLeft, ArrivesWithin;
      ReturnsFrom(t, i);
      Within(t, i, Over, ExitLeft(t, t.tasks[i]), left - 1);
    }
    StepFirst(s, i, Over, left - 1);
  }

  /** From the body on, a call that is left alone returns within nine steps once nothing is in its way
      at the gate and it has a try left. */
  lemma ReturnsWhenLeftAlone(es: seq<Event>, i: nat)
    requires i < |Reached(es).tasks| && OnItsWayOut(Reached(es), Reached(es).tasks[i].pc) && GateUnblocked(Reached(es), i)
    ensures ArrivesWithin(Reached(es), i, Over, 9)
  {
    var s := Reached(es);
    ReachedIsSafe(es);
    hide Reached, GateUnblocked, OnItsWayOut, ArrivesWithin;
    ReturnsFrom(s, i);
    Within(s, i, Over, ExitLeft(s, s.tasks[i]), 9);
  }

  // ---------------------------------------------------------------- owners on other hosts

  /** What the call is about to take away from a dead owner belonged to its own host. */
  ghost predicate TakesFromOwnHost(task: Task) {
    match task.pc
    case LockRemove(_, _, _, stale) => stale.place.host == task.place.host
    case Compare(_, expected, resume) => resume.RetryGate? ==> expected.place.host == task.place.host
    case _ => true
  }

  ghost predicate AllTakeFromOwnHost(s: State) {
    forall k | 0 <= k < |s.tasks| :: TakesFromOwnHost(s.tasks[k])
  }

  lemma OwnStepTakesFromOwnHost(s: State, i: nat)
    requires i < |s.tasks| && TakesFromOwnHost(s.tasks[i])
    ensures TakesFromOwnHost(Advance(false, s, i).tasks[i])
  {
  }

  lemma EventKeepsOwnHost(s: State, e: Event)
    requires AllTakeFromOwnHost(s)
    ensures AllTakeFromOwnHost(Do(false, s, e))
  {
    if e.Run? && e.task < |s.tasks| {
      AdvanceMovesOneTask(false, s, e.task);
      OwnStepTakesFromOwnHost(s, e.task);
      hide Advance, TakesFromOwnHost;
    }
  }

  lemma {:induction false} RunsTakeFromOwnHost(es: seq<Event>)
    ensures AllTakeFromOwnHost(Reached(es))
  {
    if es != [] {
      var n := |es| - 1;
      RunsTakeFromOwnHost(es[..n]);
      EventKeepsOwnHost(Reached(es[..n]), es[n]);
      hide Do;
    }
  }

  lemma StepLeavesForeignOwner(s: State, i: nat, dir: Directory, owner: Owner)
    requires i < |s.tasks| && TaskOk(s, s.tasks[i]) && LookedAt(s, s.tasks[i].pc) && TakesFromOwnHost(s.tasks[i])
    requires !s.tasks[i].pc.Delete? && At(s, dir) == Some(owner) && owner.place.host != s.tasks[i].place.host
    ensures At(Advance(false, s, i), dir) == Some(owner)
  {
    hide Unheld, Issued;
  }

  /** No call ever takes away a gate or lock whose owner is on another host, dead or alive. */
  lemma ForeignOwnersAreKept(es: seq<Event>, i: nat, dir: Directory, owner: Owner)
    requires i < |Reached(es).tasks| && At(Reached(es), dir) == Some(owner)
    requires owner.place.host != Reached(es).tasks[i].place.host
    ensures At(Do(false, Reached(es), Run(i)), dir) == Some(owner)
  {
    var s := Reached(es);
    ReachedIsSafe(es);
    LooksAreRight(es);
    RunsTakeFromOwnHost(es);
    assert TaskOk(s, s.tasks[i]) && LookedAt(s, s.tasks[i].pc) && TakesFromOwnHost(s.tasks[i]);
    hide Reached, TaskOk, LookedAt, TakesFromOwnHost, Advance;
    StepLeavesForeignOwner(s, i, dir, owner);
  }
}
