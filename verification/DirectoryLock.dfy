/** The two-level directory lock of src/state/lock.ts.

    A task is one call of `withDirectoryLock`; any number of tasks run at once, several of
    them possibly in one operating-system process. A task makes one filesystem action, or one
    liveness probe, per step. A gate directory serialises acquiring, releasing and reclaiming;
    the lock directory is what the caller's function runs under. Publishing a claim is an
    atomic create-if-absent. Removing an owned directory is an atomic compare-and-delete when
    `split` is false; when `split` is true the token is read in one step and the directory is
    deleted in a later one. */
module DirectoryLock {
  import opened Wrappers

  const ACQUIRE_ATTEMPTS: nat := 40

  /** A process as an owner record names it: its host and its pid. */
  datatype Place = Place(host: nat, pid: nat)

  datatype Owner = Owner(token: nat, place: Place)

  datatype Directory = Gate | Lock

  /** Why a task is taking the gate. */
  datatype Purpose = ToAcquire(attempt: nat, attempts: nat) | ToRelease(lock: Owner)

  /** What a task does after it has removed a directory it compared. */
  datatype Resume =
    | RetryGate(why: Purpose, tries: nat)
    | DropGate(gate: Owner)
    | EnterBody(lock: Owner)
    | RetryAcquire(attempt: nat, attempts: nat)
    | Return
    | Raise

  datatype Pc =
    | GateClaim(why: Purpose, tries: nat)
    | GateRead(why: Purpose, tries: nat)
    | GateCheck(why: Purpose, tries: nat, seen: Option<Owner>)
    | LockClaim(attempt: nat, attempts: nat, gate: Owner)
    | LockRead(attempt: nat, attempts: nat, gate: Owner)
    | LockCheck(attempt: nat, attempts: nat, gate: Owner, seen: Option<Owner>)
    | LockRemove(attempt: nat, attempts: nat, gate: Owner, stale: Owner)
    | LockRecreate(attempt: nat, attempts: nat, gate: Owner)
    | Compare(dir: Directory, expected: Owner, resume: Resume)
    | Delete(dir: Directory, expected: Owner, resume: Resume)
    | Body(lock: Owner)
    | Returned
    | Failed
    | Dead

  datatype Task = Task(place: Place, pc: Pc)

  /** `issued[t]` is the owner record written with token `t`; tokens are never reused. */
  datatype State = State(
    gate: Option<Owner>,
    lock: Option<Owner>,
    issued: seq<Owner>,
    alive: set<Place>,
    tasks: seq<Task>)

  datatype Event = Spawn(place: Place, attempts: nat) | Crash(place: Place) | Run(task: nat)

  // ---------------------------------------------------------------- the protocol

  function Initial(): State {
    State(None, None, [], {}, [])
  }

  function NextGateTry(why: Purpose, tries: nat): Pc {
    if tries + 1 < ACQUIRE_ATTEMPTS then GateClaim(why, tries + 1) else Failed
  }

  function NextAcquire(attempt: nat, attempts: nat): Pc {
    if attempt + 1 < attempts then GateClaim(ToAcquire(attempt + 1, attempts), 0) else Failed
  }

  function Continue(resume: Resume): Pc {
    match resume
    case RetryGate(why, tries) => NextGateTry(why, tries)
    case DropGate(gate) => Compare(Gate, gate, Return)
    case EnterBody(lock) => Body(lock)
    case RetryAcquire(attempt, attempts) => NextAcquire(attempt, attempts)
    case Return => Returned
    case Raise => Failed
  }

  function Gated(why: Purpose, gate: Owner): Pc {
    match why
    case ToAcquire(attempt, attempts) => LockClaim(attempt, attempts, gate)
    case ToRelease(lock) => Compare(Lock, lock, DropGate(gate))
  }

  function At(s: State, dir: Directory): Option<Owner> {
    match dir case Gate => s.gate case Lock => s.lock
  }

  function Put(s: State, dir: Directory, content: Option<Owner>): State {
    match dir case Gate => s.(gate := content) case Lock => s.(lock := content)
  }

  function WithPc(s: State, i: nat, pc: Pc): State
    requires i < |s.tasks|
  {
    s.(tasks := s.tasks[i := s.tasks[i].(pc := pc)])
  }

  /** The owner record the next claim of task `i` carries. */
  function FreshOwner(s: State, i: nat): Owner
    requires i < |s.tasks|
  {
    Owner(|s.issued|, s.tasks[i].place)
  }

  /** A claim was published: the directory now carries a new owner record. */
  function Published(s: State, i: nat, dir: Directory, pc: Pc): State
    requires i < |s.tasks|
  {
    var owner := FreshOwner(s, i);
    WithPc(Put(s, dir, Some(owner)).(issued := s.issued + [owner]), i, pc)
  }

  /** Age is never proof of death: only a dead process of the prober's own host is stale. */
  predicate IsStale(s: State, prober: Place, seen: Option<Owner>) {
    && seen.Some?
    && seen.value.place.host == prober.host
    && seen.value.place !in s.alive
  }

  /** One step of task `i`. */
  function Advance(split: bool, s: State, i: nat): State
    requires i < |s.tasks|
  {
    var me := s.tasks[i].place;
    match s.tasks[i].pc
    case GateClaim(why, tries) =>
      if s.gate.None? then Published(s, i, Gate, Gated(why, FreshOwner(s, i)))
      else WithPc(s, i, GateRead(why, tries))
    case GateRead(why, tries) =>
      WithPc(s, i, GateCheck(why, tries, s.gate))
    case GateCheck(why, tries, seen) =>
      WithPc(s, i, if IsStale(s, me, seen) then Compare(Gate, seen.value, RetryGate(why, tries))
                   else NextGateTry(why, tries))
    case LockClaim(attempt, attempts, gate) =>
      if s.lock.None? then Published(s, i, Lock, Compare(Gate, gate, EnterBody(FreshOwner(s, i))))
      else WithPc(s, i, LockRead(attempt, attempts, gate))
    case LockRead(attempt, attempts, gate) =>
      WithPc(s, i, LockCheck(attempt, attempts, gate, s.lock))
    case LockCheck(attempt, attempts, gate, seen) =>
      WithPc(s, i, if IsStale(s, me, seen) then LockRemove(attempt, attempts, gate, seen.value)
                   else Compare(Gate, gate, RetryAcquire(attempt, attempts)))
    case LockRemove(attempt, attempts, gate, _) =>
      WithPc(Put(s, Lock, None), i, LockRecreate(attempt, attempts, gate))
    case LockRecreate(attempt, attempts, gate) =>
      if s.lock.None? then Published(s, i, Lock, Compare(Gate, gate, EnterBody(FreshOwner(s, i))))
      else WithPc(s, i, Compare(Gate, gate, Raise))
    case Compare(dir, expected, resume) =>
      if At(s, dir) != Some(expected) then WithPc(s, i, Continue(resume))
      else if split then WithPc(s, i, Delete(dir, expected, resume))
      else WithPc(Put(s, dir, None), i, Continue(resume))
    case Delete(dir, expected, resume) =>
      WithPc(Put(s, dir, None), i, Continue(resume))
    case Body(lock) =>
      WithPc(s, i, GateClaim(ToRelease(lock), 0))
    case Returned => s
    case Failed => s
    case Dead => s
  }

  /** Every task of the process dies where it stands; the disk keeps what it left there. */
  function Crashed(s: State, place: Place): State {
    s.(alive := s.alive - {place},
       tasks := seq(|s.tasks|, k requires 0 <= k < |s.tasks| =>
         if s.tasks[k].place == place then s.tasks[k].(pc := Dead) else s.tasks[k]))
  }

  /** A new call of `withDirectoryLock`; its pid may be one that an earlier process had. */
  function Spawned(s: State, place: Place, attempts: nat): State {
    s.(alive := s.alive + {place},
       tasks := s.tasks + [Task(place, if attempts == 0 then Failed else GateClaim(ToAcquire(0, attempts), 0))])
  }

  function Do(split: bool, s: State, e: Event): State {
    match e
    case Spawn(place, attempts) => Spawned(s, place, attempts)
    case Crash(place) => Crashed(s, place)
    case Run(i) => if i < |s.tasks| then Advance(split, s, i) else s
  }

  /** The state after the events `es`, in order, from `s`. */
  function Exec(split: bool, s: State, es: seq<Event>): State {
    if es == [] then s
    else Do(split, Exec(split, s, es[..|es| - 1]), es[|es| - 1])
  }

  predicate TakesTheGate(pc: Pc) {
    pc.GateClaim? || pc.GateRead? || pc.GateCheck?
  }

  predicate TakesTheLock(pc: Pc) {
    pc.LockClaim? || pc.LockRead? || pc.LockCheck? || pc.LockRemove? || pc.LockRecreate?
  }

  predicate Removes(pc: Pc) {
    pc.Compare? || pc.Delete?
  }

  /** A step moves one task, claims at most one new owner record and no process starts or dies. */
  lemma AdvanceMovesOneTask(split: bool, s: State, i: nat)
    requires i < |s.tasks|
    ensures var t := Advance(split, s, i);
      && |t.tasks| == |s.tasks| && t.alive == s.alive && t.tasks[i].place == s.tasks[i].place
      && (t.issued == s.issued || t.issued == s.issued + [FreshOwner(s, i)])
      && (forall k | 0 <= k < |s.tasks| && k != i :: t.tasks[k] == s.tasks[k])
  {
  }

  // ---------------------------------------------------------------- what tasks hold

  /** The gate record a task at `pc` relies on having on disk. */
  function GateHeld(pc: Pc): Option<Owner> {
    match pc
    case LockClaim(_, _, gate) => Some(gate)
    case LockRead(_, _, gate) => Some(gate)
    case LockCheck(_, _, gate, _) => Some(gate)
    case LockRemove(_, _, gate, _) => Some(gate)
    case LockRecreate(_, _, gate) => Some(gate)
    case Compare(dir, expected, resume) => GateHeldRemoving(dir, expected, resume)
    case Delete(dir, expected, resume) => GateHeldRemoving(dir, expected, resume)
    case _ => None
  }

  function GateHeldRemoving(dir: Directory, expected: Owner, resume: Resume): Option<Owner> {
    match resume
    case RetryGate(_, _) => None
    case DropGate(gate) => Some(gate)
    case _ => if dir == Gate then Some(expected) else None
  }

  /** The lock record a task at `pc` relies on having on disk. */
  function LockHeld(pc: Pc): Option<Owner> {
    match pc
    case GateClaim(why, _) => LockHeldFor(why)
    case GateRead(why, _) => LockHeldFor(why)
    case GateCheck(why, _, _) => LockHeldFor(why)
    case Compare(dir, expected, resume) => LockHeldRemoving(dir, expected, resume)
    case Delete(dir, expected, resume) => LockHeldRemoving(dir, expected, resume)
    case Body(lock) => Some(lock)
    case _ => None
  }

  function LockHeldFor(why: Purpose): Option<Owner> {
    match why
    case ToAcquire(_, _) => None
    case ToRelease(lock) => Some(lock)
  }

  function LockHeldRemoving(dir: Directory, expected: Owner, resume: Resume): Option<Owner> {
    if dir == Lock then Some(expected)
    else match resume
      case RetryGate(why, _) => LockHeldFor(why)
      case EnterBody(lock) => Some(lock)
      case _ => None
  }

  function Held(pc: Pc, dir: Directory): Option<Owner> {
    match dir case Gate => GateHeld(pc) case Lock => LockHeld(pc)
  }

  // ---------------------------------------------------------------- the invariant

  ghost predicate Issued(s: State, owner: Owner) {
    owner.token < |s.issued| && s.issued[owner.token] == owner
  }

  /** No task holds `owner` for directory `dir`. */
  ghost predicate Unheld(s: State, dir: Directory, owner: Owner) {
    forall k | 0 <= k < |s.tasks| :: Held(s.tasks[k].pc, dir) != Some(owner)
  }

  /** What a task's position promises about the disk beyond what it holds. */
  ghost predicate Justified(s: State, pc: Pc) {
    match pc
    case GateCheck(_, _, seen) => seen.Some? ==> Issued(s, seen.value)
    case LockCheck(_, _, _, seen) => seen == s.lock
    case LockRemove(_, _, _, stale) => s.lock == Some(stale) && Unheld(s, Lock, stale)
    case LockRecreate(_, _, _) => s.lock.None?
    case Compare(dir, expected, resume) => RemovalJustified(s, dir, expected, resume)
    case Delete(dir, expected, resume) => RemovalJustified(s, dir, expected, resume)
    case _ => true
  }

  ghost predicate RemovalJustified(s: State, dir: Directory, expected: Owner, resume: Resume) {
    match resume
    case RetryGate(_, _) => dir == Gate && Issued(s, expected) && Unheld(s, Gate, expected)
    case DropGate(_) => dir == Lock
    case _ => dir == Gate
  }

  /** What a task holds is on disk, was issued, and names the process that the task runs in. */
  ghost predicate HeldOk(s: State, task: Task, dir: Directory) {
    match Held(task.pc, dir)
    case None => true
    case Some(owner) => At(s, dir) == Some(owner) && Issued(s, owner) && owner.place == task.place
  }

  /** What one task's position entails. */
  ghost predicate TaskOk(s: State, task: Task) {
    && (!task.pc.Dead? ==> task.place in s.alive)
    && Justified(s, task.pc)
    && HeldOk(s, task, Gate)
    && HeldOk(s, task, Lock)
  }

  /** At most one task holds the directory. */
  ghost predicate Exclusive(s: State, dir: Directory) {
    forall j, k | 0 <= j < |s.tasks| && 0 <= k < |s.tasks| && j != k ::
      Held(s.tasks[j].pc, dir).None? || Held(s.tasks[k].pc, dir).None?
  }

  ghost predicate Inv(s: State) {
    && (s.gate.Some? ==> Issued(s, s.gate.value))
    && (s.lock.Some? ==> Issued(s, s.lock.value))
    && (forall k | 0 <= k < |s.tasks| :: TaskOk(s, s.tasks[k]))
    && Exclusive(s, Gate)
    && Exclusive(s, Lock)
  }

  // ---------------------------------------------------------------- preservation

  /** Nobody but task `i` holds directory `dir`. */
  ghost predicate OnlyMine(s: State, i: nat, dir: Directory) {
    forall k | 0 <= k < |s.tasks| && k != i :: Held(s.tasks[k].pc, dir).None?
  }

  /** A task moving from `pc` to `pc'` holds nothing in `dir` that it did not hold before. */
  ghost predicate KeepsAtMost(pc: Pc, pc': Pc, dir: Directory) {
    Held(pc', dir).None? || Held(pc', dir) == Held(pc, dir)
  }

  /** `t` has the same disk and live processes as `s`, and no more records are held in it. */
  ghost predicate HoldsNoMore(s: State, t: State) {
    && t.gate == s.gate && t.lock == s.lock && t.issued == s.issued && s.alive <= t.alive
    && (forall dir, owner :: Unheld(s, dir, owner) ==> Unheld(t, dir, owner))
  }

  lemma TaskStaysOk(s: State, t: State, task: Task)
    requires HoldsNoMore(s, t) && TaskOk(s, task)
    ensures TaskOk(t, task)
  {
    hide Unheld;
  }

  lemma HeldAfterMove(s: State, i: nat, pc: Pc)
    requires i < |s.tasks|
    requires KeepsAtMost(s.tasks[i].pc, pc, Gate) && KeepsAtMost(s.tasks[i].pc, pc, Lock)
    ensures HoldsNoMore(s, WithPc(s, i, pc))
  {
    hide GateHeld, LockHeld;
    var t := WithPc(s, i, pc);
    forall dir, owner | Unheld(s, dir, owner) ensures Unheld(t, dir, owner) {
      assert KeepsAtMost(s.tasks[i].pc, pc, dir);
    }
  }

  /** Moving one task to a new position, with no other change, needs only that task's case. */
  lemma MoveKeepsInv(s: State, i: nat, pc: Pc)
    requires Inv(s) && i < |s.tasks|
    requires !s.tasks[i].pc.Dead?
    requires TaskOk(s, s.tasks[i].(pc := pc))
    requires KeepsAtMost(s.tasks[i].pc, pc, Gate) && KeepsAtMost(s.tasks[i].pc, pc, Lock)
    ensures Inv(WithPc(s, i, pc))
  {
    var t := WithPc(s, i, pc);
    HeldAfterMove(s, i, pc);
    hide TaskOk, Unheld, Held, HoldsNoMore;
    forall k | 0 <= k < |t.tasks| ensures TaskOk(t, t.tasks[k]) {
      assert TaskOk(s, s.tasks[k]);
      TaskStaysOk(s, t, t.tasks[k]);
    }
  }

  /** Publishing a claim on a free directory makes its publisher the one holder. */
  lemma PublishKeepsInv(s: State, i: nat, dir: Directory, pc: Pc)
    requires Inv(s) && i < |s.tasks| && !s.tasks[i].pc.Dead?
    requires At(s, dir).None?
    requires dir == Lock ==> GateHeld(s.tasks[i].pc).Some?
    requires TaskOk(Published(s, i, dir, pc), s.tasks[i].(pc := pc))
    requires KeepsAtMost(s.tasks[i].pc, pc, if dir == Gate then Lock else Gate)
    ensures Inv(Published(s, i, dir, pc))
  {
    var t := Published(s, i, dir, pc);
    forall k | 0 <= k < |t.tasks| ensures TaskOk(t, t.tasks[k]) {
      assert TaskOk(s, s.tasks[k]);
    }
  }

  /** Removing a directory that no other task holds leaves every other task as it was. */
  lemma RemoveKeepsInv(s: State, i: nat, dir: Directory, pc: Pc)
    requires Inv(s) && i < |s.tasks| && !s.tasks[i].pc.Dead?
    requires OnlyMine(s, i, dir)
    requires dir == Lock ==> GateHeld(s.tasks[i].pc).Some?
    requires TaskOk(WithPc(Put(s, dir, None), i, pc), s.tasks[i].(pc := pc))
    requires KeepsAtMost(s.tasks[i].pc, pc, Gate) && KeepsAtMost(s.tasks[i].pc, pc, Lock)
    ensures Inv(WithPc(Put(s, dir, None), i, pc))
  {
    var t := WithPc(Put(s, dir, None), i, pc);
    forall k | 0 <= k < |t.tasks| ensures TaskOk(t, t.tasks[k]) {
      assert TaskOk(s, s.tasks[k]);
    }
  }

  lemma GateStepKeepsInv(split: bool, s: State, i: nat)
    requires Inv(s) && i < |s.tasks|
    requires s.tasks[i].pc.GateClaim? || s.tasks[i].pc.GateRead? || s.tasks[i].pc.GateCheck?
    ensures Inv(Advance(split, s, i))
  {
    var me := s.tasks[i];
    assert TaskOk(s, me);
    match me.pc
    case GateClaim(why, tries) =>
      if s.gate.None? {
        PublishKeepsInv(s, i, Gate, Gated(why, FreshOwner(s, i)));
      } else {
        MoveKeepsInv(s, i, GateRead(why, tries));
      }
    case GateRead(why, tries) => MoveKeepsInv(s, i, GateCheck(why, tries, s.gate));
    case GateCheck(why, tries, seen) =>
      if IsStale(s, me.place, seen) {
        DeadOwnerIsUnheld(s, Gate, seen.value);
        MoveKeepsInv(s, i, Compare(Gate, seen.value, RetryGate(why, tries)));
      } else {
        MoveKeepsInv(s, i, NextGateTry(why, tries));
      }
  }

  /** An owner record of a dead process is relied on by nobody. */
  lemma DeadOwnerIsUnheld(s: State, dir: Directory, owner: Owner)
    requires Inv(s) && owner.place !in s.alive
    ensures Unheld(s, dir, owner)
  {
    forall k | 0 <= k < |s.tasks| ensures Held(s.tasks[k].pc, dir) != Some(owner) {
      assert TaskOk(s, s.tasks[k]);
    }
  }

  lemma LockStepKeepsInv(split: bool, s: State, i: nat)
    requires Inv(s) && i < |s.tasks|
    requires s.tasks[i].pc.LockClaim? || s.tasks[i].pc.LockRead? || s.tasks[i].pc.LockCheck?
    ensures Inv(Advance(split, s, i))
  {
    var me := s.tasks[i];
    assert TaskOk(s, me);
    match me.pc
    case LockClaim(attempt, attempts, gate) =>
      if s.lock.None? {
        PublishKeepsInv(s, i, Lock, Compare(Gate, gate, EnterBody(FreshOwner(s, i))));
      } else {
        MoveKeepsInv(s, i, LockRead(attempt, attempts, gate));
      }
    case LockRead(attempt, attempts, gate) => MoveKeepsInv(s, i, LockCheck(attempt, attempts, gate, s.lock));
    case LockCheck(attempt, attempts, gate, seen) =>
      if IsStale(s, me.place, seen) {
        DeadOwnerIsUnheld(s, Lock, seen.value);
        MoveKeepsInv(s, i, LockRemove(attempt, attempts, gate, seen.value));
      } else {
        MoveKeepsInv(s, i, Compare(Gate, gate, RetryAcquire(attempt, attempts)));
      }
  }

  lemma ReclaimStepKeepsInv(split: bool, s: State, i: nat)
    requires Inv(s) && i < |s.tasks|
    requires s.tasks[i].pc.LockRemove? || s.tasks[i].pc.LockRecreate?
    ensures Inv(Advance(split, s, i))
  {
    var me := s.tasks[i];
    assert TaskOk(s, me);
    match me.pc
    case LockRemove(attempt, attempts, gate, stale) =>
      assert OnlyMine(s, i, Lock) by {
        forall k | 0 <= k < |s.tasks| && k != i ensures Held(s.tasks[k].pc, Lock).None? {
          assert TaskOk(s, s.tasks[k]);
        }
      }
      RemoveKeepsInv(s, i, Lock, LockRecreate(attempt, attempts, gate));
    case LockRecreate(attempt, attempts, gate) =>
      PublishKeepsInv(s, i, Lock, Compare(Gate, gate, EnterBody(FreshOwner(s, i))));
  }

  lemma RemovalStepKeepsInv(split: bool, s: State, i: nat)
    requires Inv(s) && i < |s.tasks|
    requires s.tasks[i].pc.Compare? || s.tasks[i].pc.Delete?
    requires s.tasks[i].pc.Delete? ==> OnlyMine(s, i, s.tasks[i].pc.dir)
    ensures Inv(Advance(split, s, i))
  {
    var me := s.tasks[i];
    assert TaskOk(s, me);
    match me.pc
    case Compare(dir, expected, resume) =>
      if At(s, dir) != Some(expected) {
        MoveKeepsInv(s, i, Continue(resume));
      } else if split {
        MoveKeepsInv(s, i, Delete(dir, expected, resume));
      } else {
        assert OnlyMine(s, i, dir) by {
          forall k | 0 <= k < |s.tasks| && k != i ensures Held(s.tasks[k].pc, dir).None? {
            assert TaskOk(s, s.tasks[k]);
          }
        }
        RemovingKeepsInv(s, i);
      }
    case Delete(dir, expected, resume) => RemovingKeepsInv(s, i);
  }

  /** The deletion itself, whether it follows its comparison in the same step or a later one. */
  lemma RemovingKeepsInv(s: State, i: nat)
    requires Inv(s) && i < |s.tasks|
    requires s.tasks[i].pc.Compare? || s.tasks[i].pc.Delete?
    requires OnlyMine(s, i, s.tasks[i].pc.dir)
    ensures Inv(WithPc(Put(s, s.tasks[i].pc.dir, None), i, Continue(s.tasks[i].pc.resume)))
  {
    assert TaskOk(s, s.tasks[i]);
    hide Inv, OnlyMine;
    RemoveKeepsInv(s, i, s.tasks[i].pc.dir, Continue(s.tasks[i].pc.resume));
  }

  lemma AdvanceKeepsInv(split: bool, s: State, i: nat)
    requires Inv(s) && i < |s.tasks|
    requires s.tasks[i].pc.Delete? ==> OnlyMine(s, i, s.tasks[i].pc.dir)
    ensures Inv(Advance(split, s, i))
  {
    match s.tasks[i].pc
    case GateClaim(_, _) => GateStepKeepsInv(split, s, i);
    case GateRead(_, _) => GateStepKeepsInv(split, s, i);
    case GateCheck(_, _, _) => GateStepKeepsInv(split, s, i);
    case LockClaim(_, _, _) => LockStepKeepsInv(split, s, i);
    case LockRead(_, _, _) => LockStepKeepsInv(split, s, i);
    case LockCheck(_, _, _, _) => LockStepKeepsInv(split, s, i);
    case LockRemove(_, _, _, _) => ReclaimStepKeepsInv(split, s, i);
    case LockRecreate(_, _, _) => ReclaimStepKeepsInv(split, s, i);
    case Compare(_, _, _) => RemovalStepKeepsInv(split, s, i);
    case Delete(_, _, _) => RemovalStepKeepsInv(split, s, i);
    case Body(lock) => MoveKeepsInv(s, i, GateClaim(ToRelease(lock), 0));
    case Returned =>
    case Failed =>
    case Dead =>
  }

  lemma CrashKeepsInv(s: State, place: Place)
    requires Inv(s)
    ensures Inv(Crashed(s, place))
  {
    var t := Crashed(s, place);
    forall k | 0 <= k < |t.tasks| ensures TaskOk(t, t.tasks[k]) {
      assert TaskOk(s, s.tasks[k]);
      SurvivorStaysOk(s, place, k);
    }
    hide TaskOk;
  }

  lemma SurvivorStaysOk(s: State, place: Place, k: nat)
    requires k < |s.tasks| && TaskOk(s, s.tasks[k])
    ensures var t := Crashed(s, place); TaskOk(t, t.tasks[k])
  {
    UnheldAfterCrash(s, place);
    hide Unheld;
  }

  lemma UnheldAfterCrash(s: State, place: Place)
    ensures forall dir, owner | Unheld(s, dir, owner) :: Unheld(Crashed(s, place), dir, owner)
  {
  }

  lemma SpawnKeepsInv(s: State, place: Place, attempts: nat)
    requires Inv(s)
    ensures Inv(Spawned(s, place, attempts))
  {
    var t := Spawned(s, place, attempts);
    assert HoldsNoMore(s, t);
    assert TaskOk(t, t.tasks[|s.tasks|]);
    hide TaskOk, HoldsNoMore;
    forall k | 0 <= k < |t.tasks| ensures TaskOk(t, t.tasks[k]) {
      if k < |s.tasks| {
        assert TaskOk(s, s.tasks[k]);
        TaskStaysOk(s, t, s.tasks[k]);
      }
    }
  }

  // ---------------------------------------------------------------- every run

  /** The event deletes a directory some other task has come to hold since its token was read. */
  ghost predicate Overtaken(s: State, e: Event) {
    && e.Run? && e.task < |s.tasks| && s.tasks[e.task].pc.Delete?
    && !OnlyMine(s, e.task, s.tasks[e.task].pc.dir)
  }

  /** No deletion of the run is overtaken. */
  ghost predicate Careful(split: bool, s: State, es: seq<Event>) {
    forall n | 0 <= n < |es| :: !Overtaken(Exec(split, s, es[..n]), es[n])
  }

  lemma DoKeepsInv(split: bool, s: State, e: Event)
    requires Inv(s) && !Overtaken(s, e)
    ensures Inv(Do(split, s, e))
  {
    match e
    case Spawn(place, attempts) => SpawnKeepsInv(s, place, attempts);
    case Crash(place) => CrashKeepsInv(s, place);
    case Run(i) => if i < |s.tasks| { AdvanceKeepsInv(split, s, i); }
  }

  lemma {:induction false} CarefulRunsKeepInv(split: bool, s: State, es: seq<Event>)
    requires Inv(s) && Careful(split, s, es)
    ensures Inv(Exec(split, s, es))
  {
    hide Inv, Do, Overtaken;
    if es != [] {
      var n := |es| - 1;
      assert Careful(split, s, es[..n]) by {
        forall m | 0 <= m < n ensures !Overtaken(Exec(split, s, es[..n][..m]), es[..n][m]) {
          assert es[..n][..m] == es[..m];
        }
      }
      CarefulRunsKeepInv(split, s, es[..n]);
      DoKeepsInv(split, Exec(split, s, es[..n]), es[n]);
    }
  }

  /** No task is between a comparison and a deletion. */
  ghost predicate NoPendingDelete(s: State) {
    forall k | 0 <= k < |s.tasks| :: !s.tasks[k].pc.Delete?
  }

  lemma AtomicStepLeavesNoPendingDelete(s: State, e: Event)
    requires NoPendingDelete(s)
    ensures NoPendingDelete(Do(false, s, e))
  {
    if e.Run? && e.task < |s.tasks| {
      var t := Advance(false, s, e.task);
      assert !t.tasks[e.task].pc.Delete?;
      assert forall k | 0 <= k < |s.tasks| && k != e.task :: t.tasks[k] == s.tasks[k];
    }
  }

  /** With an atomic compare-and-delete no deletion is ever pending, so none is overtaken. */
  lemma {:induction false} AtomicRunsAreCareful(s: State, es: seq<Event>)
    requires NoPendingDelete(s)
    ensures NoPendingDelete(Exec(false, s, es))
    ensures Careful(false, s, es)
  {
    forall n | 0 <= n < |es| ensures !Overtaken(Exec(false, s, es[..n]), es[n]) {
      AtomicRunsAreCareful(s, es[..n]);
    }
    if es != [] {
      var n := |es| - 1;
      AtomicRunsAreCareful(s, es[..n]);
      AtomicStepLeavesNoPendingDelete(Exec(false, s, es[..n]), es[n]);
    }
  }

  /** At most one live task is inside the protected body, and its record is the one on disk. */
  ghost predicate MutuallyExclusive(s: State) {
    && (forall j, k | 0 <= j < |s.tasks| && 0 <= k < |s.tasks| ::
          s.tasks[j].pc.Body? && s.tasks[k].pc.Body? ==> j == k)
    && (forall k | 0 <= k < |s.tasks| && s.tasks[k].pc.Body? ::
          && s.lock == Some(s.tasks[k].pc.lock)
          && s.tasks[k].pc.lock.place == s.tasks[k].place)
  }

  lemma InvExcludes(s: State)
    requires Inv(s)
    ensures MutuallyExclusive(s)
  {
    forall k | 0 <= k < |s.tasks| && s.tasks[k].pc.Body?
      ensures s.lock == Some(s.tasks[k].pc.lock) && s.tasks[k].pc.lock.place == s.tasks[k].place
    {
      assert TaskOk(s, s.tasks[k]);
    }
    forall j, k | 0 <= j < |s.tasks| && 0 <= k < |s.tasks| && s.tasks[j].pc.Body? && s.tasks[k].pc.Body?
      ensures j == k
    {
      assert Held(s.tasks[j].pc, Lock).Some? && Held(s.tasks[k].pc, Lock).Some?;
    }
  }

  lemma RunsKeepInv(es: seq<Event>)
    ensures Inv(Exec(false, Initial(), es))
  {
    AtomicRunsAreCareful(Initial(), es);
    CarefulRunsKeepInv(false, Initial(), es);
  }

  /** Mutual exclusion over every interleaving, crash and reuse of a pid. */
  lemma MutualExclusion(es: seq<Event>)
    ensures MutuallyExclusive(Exec(false, Initial(), es))
  {
    RunsKeepInv(es);
    InvExcludes(Exec(false, Initial(), es));
  }

  /** When a removal is a read and a later deletion, the runs without an overtaken deletion
      still exclude each other. */
  lemma SplitRemovalExcludesWhenNotOvertaken(es: seq<Event>)
    requires Careful(true, Initial(), es)
    ensures MutuallyExclusive(Exec(true, Initial(), es))
  {
    CarefulRunsKeepInv(true, Initial(), es);
    InvExcludes(Exec(true, Initial(), es));
  }

  /** A deletion keeps the protocol's invariant exactly when no other task has come to hold
      the directory since the token was read. */
  lemma DeletionSafeIff(s: State, i: nat)
    requires Inv(s) && i < |s.tasks| && s.tasks[i].pc.Delete?
    ensures Inv(Advance(true, s, i)) <==> OnlyMine(s, i, s.tasks[i].pc.dir)
  {
    var dir := s.tasks[i].pc.dir;
    if OnlyMine(s, i, dir) {
      AdvanceKeepsInv(true, s, i);
    } else {
      var k :| 0 <= k < |s.tasks| && k != i && Held(s.tasks[k].pc, dir).Some?;
      var t := Advance(true, s, i);
      assert t.tasks[k] == s.tasks[k] && At(t, dir).None?;
      assert !TaskOk(t, t.tasks[k]);
    }
  }

  /** An overtaken deletion is always the reclaim of a gate whose record has been replaced since it
      was read: no other removal can be overtaken, and none whose directory is empty or still carries
      the token that was compared. */
  lemma OvertakenIsReclaim(s: State, e: Event)
    requires Inv(s) && Overtaken(s, e)
    ensures var pc := s.tasks[e.task].pc;
      pc.dir == Gate && pc.resume.RetryGate? && s.gate.Some? && s.gate != Some(pc.expected)
  {
    var i := e.task;
    var dir := s.tasks[i].pc.dir;
    var k :| 0 <= k < |s.tasks| && k != i && Held(s.tasks[k].pc, dir).Some?;
    assert TaskOk(s, s.tasks[i]) && TaskOk(s, s.tasks[k]);
    assert Held(s.tasks[i].pc, dir).None?;
  }

  predicate Reclaims(pc: Pc) {
    (pc.Compare? || pc.Delete?) && pc.resume.RetryGate?
  }

  /** Every process that ever started is alive, and nobody reclaims a gate. */
  ghost predicate Undisturbed(s: State) {
    && (forall n | 0 <= n < |s.issued| :: s.issued[n].place in s.alive)
    && (forall k | 0 <= k < |s.tasks| :: s.tasks[k].place in s.alive && !Reclaims(s.tasks[k].pc))
  }

  lemma StepReclaimsNothing(s: State, i: nat)
    requires i < |s.tasks| && TaskOk(s, s.tasks[i]) && !Reclaims(s.tasks[i].pc)
    requires forall n | 0 <= n < |s.issued| :: s.issued[n].place in s.alive
    ensures !Reclaims(Advance(true, s, i).tasks[i].pc)
  {
    hide Held, Unheld, HeldOk;
    if TakesTheGate(s.tasks[i].pc) {
    } else if TakesTheLock(s.tasks[i].pc) {
    }
  }

  lemma AdvanceStaysUndisturbed(s: State, i: nat)
    requires Inv(s) && Undisturbed(s) && i < |s.tasks|
    ensures Undisturbed(Advance(true, s, i))
  {
    assert TaskOk(s, s.tasks[i]);
    StepReclaimsNothing(s, i);
    AdvanceMovesOneTask(true, s, i);
    hide Inv, TaskOk, Advance, Reclaims;
  }

  lemma DoStaysUndisturbed(s: State, e: Event)
    requires Inv(s) && Undisturbed(s) && !e.Crash?
    ensures Undisturbed(Do(true, s, e))
  {
    if e.Run? && e.task < |s.tasks| {
      AdvanceStaysUndisturbed(s, e.task);
    }
  }

  /** Without a crash the split removal is safe too: only a dead owner's gate is ever reclaimed. */
  lemma {:induction false} CrashFreeRunsAreCareful(es: seq<Event>)
    requires forall n | 0 <= n < |es| :: !es[n].Crash?
    ensures Careful(true, Initial(), es)
    ensures Inv(Exec(true, Initial(), es)) && Undisturbed(Exec(true, Initial(), es))
  {
    hide Inv, Undisturbed, Do, Overtaken;
    if es == [] {
      InitialIsUndisturbed();
    } else {
      var n := |es| - 1;
      CrashFreeRunsAreCareful(es[..n]);
      var s := Exec(true, Initial(), es[..n]);
      UndisturbedIsNotOvertaken(s, es[n]);
      forall m | 0 <= m < |es| ensures !Overtaken(Exec(true, Initial(), es[..m]), es[m]) {
        if m < n {
          assert es[..n][..m] == es[..m] && es[..n][m] == es[m];
        }
      }
      DoKeepsInv(true, s, es[n]);
      DoStaysUndisturbed(s, es[n]);
    }
  }

  lemma InitialIsUndisturbed()
    ensures Inv(Initial()) && Undisturbed(Initial())
  {
  }

  lemma UndisturbedIsNotOvertaken(s: State, e: Event)
    requires Inv(s) && Undisturbed(s)
    ensures !Overtaken(s, e)
  {
    if Overtaken(s, e) {
      OvertakenIsReclaim(s, e);
      assert Reclaims(s.tasks[e.task].pc);
    }
  }

  /** No event takes a directory away from a task, other than the acting one, that relies on it. */
  lemma LiveOwnersKeepTheirDirectories(es: seq<Event>, e: Event, dir: Directory, k: nat)
    requires k < |Exec(false, Initial(), es).tasks|
    requires Held(Exec(false, Initial(), es).tasks[k].pc, dir).Some?
    requires e != Run(k)
    ensures
      var s := Exec(false, Initial(), es);
      At(Do(false, s, e), dir) == Held(s.tasks[k].pc, dir)
  {
    var s := Exec(false, Initial(), es);
    RunsKeepInv(es);
    assert TaskOk(s, s.tasks[k]);
    if e.Run? && e.task < |s.tasks| {
      var i := e.task;
      AtomicRunsAreCareful(Initial(), es);
      assert TaskOk(s, s.tasks[i]) && Held(s.tasks[i].pc, dir).None?;
    }
  }

  /** The reclaimed lock still belongs to the dead owner when it is removed, and its place is
      still free when the reclaimer claims it: the second creation never finds it taken. */
  lemma ReclaimIsUndisturbed(es: seq<Event>, i: nat)
    requires i < |Exec(false, Initial(), es).tasks|
    ensures
      var s := Exec(false, Initial(), es);
      && (s.tasks[i].pc.LockRemove? ==> s.lock == Some(s.tasks[i].pc.stale) && Unheld(s, Lock, s.tasks[i].pc.stale))
      && (s.tasks[i].pc.LockRecreate? ==> s.lock.None?)
  {
    RunsKeepInv(es);
    var s := Exec(false, Initial(), es);
    assert TaskOk(s, s.tasks[i]);
  }

  // ---------------------------------------------------------------- giving the lock back

  /** Where task `i` is on its way from the body to its end, and what the disk says of its lock. */
  predicate HoldsOrGaveBack(s: State, pc: Pc, lock: Owner) {
    || LockHeld(pc) == Some(lock)
    || (pc.Failed? && s.lock == Some(lock))
    || ((pc.Returned? || (pc.Compare? && pc.dir == Gate && pc.resume.Return?)) && s.lock != Some(lock))
  }

  /** Nobody but task `i`, whose process lives, has anything to do with its lock. */
  ghost predicate OwnLock(s: State, i: nat, lock: Owner) {
    && i < |s.tasks| && s.tasks[i].place == lock.place && lock.place in s.alive && Issued(s, lock)
    && (forall k | 0 <= k < |s.tasks| && k != i :: LeavesAlone(s.tasks[k].pc, lock))
    && HoldsOrGaveBack(s, s.tasks[i].pc, lock)
  }

  lemma BodyOwnsLock(s: State, i: nat)
    requires Inv(s) && i < |s.tasks| && s.tasks[i].pc.Body?
    ensures OwnLock(s, i, s.tasks[i].pc.lock)
  {
    var lock := s.tasks[i].pc.lock;
    assert TaskOk(s, s.tasks[i]);
    assert Held(s.tasks[i].pc, Lock) == Some(lock);
    forall k | 0 <= k < |s.tasks| && k != i ensures LeavesAlone(s.tasks[k].pc, lock) {
      assert TaskOk(s, s.tasks[k]);
      assert Held(s.tasks[k].pc, Lock).None?;
    }
  }

  /** The task neither holds the lock nor is about to remove it. */
  predicate LeavesAlone(pc: Pc, lock: Owner) {
    LockHeld(pc) != Some(lock) && (pc.LockRemove? ==> pc.stale != lock)
  }

  lemma GateTakersLeaveLock(s: State, k: nat, lock: Owner)
    requires k < |s.tasks| && TaskOk(s, s.tasks[k]) && Issued(s, lock) && lock.place in s.alive
    requires TakesTheGate(s.tasks[k].pc) && LeavesAlone(s.tasks[k].pc, lock) && !s.tasks[k].pc.Delete?
    ensures var t := Advance(false, s, k);
      (t.lock == Some(lock) <==> s.lock == Some(lock)) && LeavesAlone(t.tasks[k].pc, lock)
  {
    hide Unheld;
  }

  lemma LockTakersLeaveLock(s: State, k: nat, lock: Owner)
    requires k < |s.tasks| && TaskOk(s, s.tasks[k]) && Issued(s, lock) && lock.place in s.alive
    requires TakesTheLock(s.tasks[k].pc) && LeavesAlone(s.tasks[k].pc, lock) && !s.tasks[k].pc.Delete?
    ensures var t := Advance(false, s, k);
      (t.lock == Some(lock) <==> s.lock == Some(lock)) && LeavesAlone(t.tasks[k].pc, lock)
  {
    hide Unheld;
  }

  lemma RemoversLeaveLock(s: State, k: nat, lock: Owner)
    requires k < |s.tasks| && TaskOk(s, s.tasks[k]) && Issued(s, lock) && lock.place in s.alive
    requires Removes(s.tasks[k].pc) && LeavesAlone(s.tasks[k].pc, lock) && !s.tasks[k].pc.Delete?
    ensures var t := Advance(false, s, k);
      (t.lock == Some(lock) <==> s.lock == Some(lock)) && LeavesAlone(t.tasks[k].pc, lock)
  {
    hide Unheld;
  }

  /** What another task's step can do to the lock of a live process: nothing. */
  lemma OthersLeaveLock(s: State, k: nat, lock: Owner)
    requires k < |s.tasks| && TaskOk(s, s.tasks[k]) && Issued(s, lock) && lock.place in s.alive
    requires LeavesAlone(s.tasks[k].pc, lock) && !s.tasks[k].pc.Delete?
    ensures var t := Advance(false, s, k);
      (t.lock == Some(lock) <==> s.lock == Some(lock)) && LeavesAlone(t.tasks[k].pc, lock)
  {
    hide TaskOk, Issued;
    if TakesTheGate(s.tasks[k].pc) {
      GateTakersLeaveLock(s, k, lock);
    } else if TakesTheLock(s.tasks[k].pc) {
      LockTakersLeaveLock(s, k, lock);
    } else if Removes(s.tasks[k].pc) {
      RemoversLeaveLock(s, k, lock);
    }
  }

  lemma OwnGateStepKeepsLock(s: State, i: nat, lock: Owner)
    requires i < |s.tasks| && TaskOk(s, s.tasks[i]) && Issued(s, lock) && HoldsOrGaveBack(s, s.tasks[i].pc, lock)
    requires TakesTheGate(s.tasks[i].pc)
    ensures var t := Advance(false, s, i); HoldsOrGaveBack(t, t.tasks[i].pc, lock)
  {
    hide Unheld, Issued, IsStale;
  }

  lemma OwnRemovalKeepsLock(s: State, i: nat, lock: Owner)
    requires i < |s.tasks| && TaskOk(s, s.tasks[i]) && Issued(s, lock) && HoldsOrGaveBack(s, s.tasks[i].pc, lock)
    requires s.tasks[i].pc.Compare?
    ensures var t := Advance(false, s, i); HoldsOrGaveBack(t, t.tasks[i].pc, lock)
  {
    hide Unheld, Issued;
  }

  lemma OwnStepKeepsLock(s: State, i: nat, lock: Owner)
    requires i < |s.tasks| && TaskOk(s, s.tasks[i]) && Issued(s, lock) && HoldsOrGaveBack(s, s.tasks[i].pc, lock)
    requires !s.tasks[i].pc.Delete?
    ensures var t := Advance(false, s, i); HoldsOrGaveBack(t, t.tasks[i].pc, lock)
  {
    hide TaskOk, Issued;
    if TakesTheGate(s.tasks[i].pc) {
      OwnGateStepKeepsLock(s, i, lock);
    } else if s.tasks[i].pc.Compare? {
      OwnRemovalKeepsLock(s, i, lock);
    }
  }

  lemma DoKeepsOwnLock(s: State, e: Event, i: nat, lock: Owner)
    requires Inv(s) && NoPendingDelete(s) && OwnLock(s, i, lock) && e != Crash(lock.place)
    ensures OwnLock(Do(false, s, e), i, lock)
  {
    if e.Run? && e.task < |s.tasks| {
      AdvanceKeepsOwnLock(s, e.task, i, lock);
    }
  }

  lemma AdvanceKeepsOwnLock(s: State, k: nat, i: nat, lock: Owner)
    requires Inv(s) && NoPendingDelete(s) && OwnLock(s, i, lock) && k < |s.tasks|
    ensures OwnLock(Advance(false, s, k), i, lock)
  {
    assert TaskOk(s, s.tasks[k]);
    AdvanceMovesOneTask(false, s, k);
    hide Inv, TaskOk, Advance, LeavesAlone;
    if k == i {
      OwnStepKeepsLock(s, i, lock);
    } else {
      OthersLeaveLock(s, k, lock);
    }
  }

  lemma {:induction false} OwnLockLasts(es: seq<Event>, m: nat, i: nat, lock: Owner)
    requires m <= |es| && OwnLock(Exec(false, Initial(), es[..m]), i, lock)
    requires forall n | m <= n < |es| :: es[n] != Crash(lock.place)
    ensures OwnLock(Exec(false, Initial(), es), i, lock)
    decreases |es|
  {
    hide Inv, OwnLock, Do, NoPendingDelete;
    if m == |es| {
      assert es[..m] == es;
    } else {
      var n := |es| - 1;
      assert es[..n][..m] == es[..m];
      OwnLockLasts(es[..n], m, i, lock);
      RunsKeepInv(es[..n]);
      assert NoPendingDelete(Initial()) by { NothingPending(); }
      AtomicRunsAreCareful(Initial(), es[..n]);
      DoKeepsOwnLock(Exec(false, Initial(), es[..n]), es[n], i, lock);
    }
  }

  lemma NothingPending()
    ensures NoPendingDelete(Initial())
  {
  }

  /** A call that was in the body and has finished while its process lives has given its lock back
      exactly when it returned. If its attempts to take the gate for the release ran out, it has
      failed and its lock is still on disk. */
  lemma FinishedCallGaveBackIff(es: seq<Event>, m: nat, i: nat)
    requires m <= |es| && i < |Exec(false, Initial(), es[..m]).tasks|
    requires Exec(false, Initial(), es[..m]).tasks[i].pc.Body?
    requires forall n | m <= n < |es| :: es[n] != Crash(Exec(false, Initial(), es[..m]).tasks[i].place)
    ensures var lock := Exec(false, Initial(), es[..m]).tasks[i].pc.lock;
      var s := Exec(false, Initial(), es);
      && i < |s.tasks|
      && (Finished(s.tasks[i].pc) ==> (s.tasks[i].pc.Returned? <==> s.lock != Some(lock)))
  {
    hide Exec, Inv;
    RunsKeepInv(es[..m]);
    BodyOwnsLock(Exec(false, Initial(), es[..m]), i);
    OwnLockLasts(es, m, i, Exec(false, Initial(), es[..m]).tasks[i].pc.lock);
  }

  // ---------------------------------------------------------------- bounded steps and progress

  /** The attempt counters are inside the bounds their loops keep. */
  predicate CountedWhy(why: Purpose) {
    why.ToAcquire? ==> why.attempt < why.attempts
  }

  predicate Counted(pc: Pc) {
    match pc
    case GateClaim(why, tries) => tries < ACQUIRE_ATTEMPTS && CountedWhy(why)
    case GateRead(why, tries) => tries < ACQUIRE_ATTEMPTS && CountedWhy(why)
    case GateCheck(why, tries, _) => tries < ACQUIRE_ATTEMPTS && CountedWhy(why)
    case LockClaim(attempt, attempts, _) => attempt < attempts
    case LockRead(attempt, attempts, _) => attempt < attempts
    case LockCheck(attempt, attempts, _, _) => attempt < attempts
    case LockRemove(attempt, attempts, _, _) => attempt < attempts
    case LockRecreate(attempt, attempts, _) => attempt < attempts
    case Compare(_, _, resume) => CountedResume(resume)
    case Delete(_, _, resume) => CountedResume(resume)
    case _ => true
  }

  predicate CountedResume(resume: Resume) {
    match resume
    case RetryGate(why, tries) => tries < ACQUIRE_ATTEMPTS && CountedWhy(why)
    case RetryAcquire(attempt, attempts) => attempt < attempts
    case _ => true
  }

  const STEPS_PER_GATE_TRY: nat := 5
  const GATE_STEPS: nat := ACQUIRE_ATTEMPTS * STEPS_PER_GATE_TRY
  const RELEASE_STEPS: nat := 4
  const LOCK_STEPS: nat := 7

  /** Steps left once the acquisition of attempt `attempt` has given up its gate. */
  function StepsAfterAttempt(attempt: nat, attempts: nat): nat
    requires attempt < attempts
  {
    1 + GATE_STEPS + RELEASE_STEPS + (attempts - attempt - 1) * (GATE_STEPS + LOCK_STEPS)
  }

  function StepsAfterGate(why: Purpose): nat
    requires CountedWhy(why)
  {
    match why
    case ToAcquire(attempt, attempts) => LOCK_STEPS + StepsAfterAttempt(attempt, attempts)
    case ToRelease(_) => RELEASE_STEPS
  }

  function StepsFromResume(resume: Resume): nat
    requires CountedResume(resume)
  {
    match resume
    case RetryGate(why, tries) => (ACQUIRE_ATTEMPTS - tries - 1) * STEPS_PER_GATE_TRY + StepsAfterGate(why)
    case DropGate(_) => 2
    case EnterBody(_) => 1 + GATE_STEPS + RELEASE_STEPS
    case RetryAcquire(attempt, attempts) => StepsAfterAttempt(attempt, attempts)
    case Return => 0
    case Raise => 0
  }

  /** How many steps a task at `pc` can still make. */
  function StepsLeft(pc: Pc): nat
    requires Counted(pc)
  {
    match pc
    case GateClaim(why, tries) => 5 + (ACQUIRE_ATTEMPTS - tries - 1) * STEPS_PER_GATE_TRY + StepsAfterGate(why)
    case GateRead(why, tries) => 4 + (ACQUIRE_ATTEMPTS - tries - 1) * STEPS_PER_GATE_TRY + StepsAfterGate(why)
    case GateCheck(why, tries, _) => 3 + (ACQUIRE_ATTEMPTS - tries - 1) * STEPS_PER_GATE_TRY + StepsAfterGate(why)
    case LockClaim(attempt, attempts, _) => 7 + StepsAfterAttempt(attempt, attempts)
    case LockRead(attempt, attempts, _) => 6 + StepsAfterAttempt(attempt, attempts)
    case LockCheck(attempt, attempts, _, _) => 5 + StepsAfterAttempt(attempt, attempts)
    case LockRemove(attempt, attempts, _, _) => 4 + StepsAfterAttempt(attempt, attempts)
    case LockRecreate(attempt, attempts, _) => 3 + StepsAfterAttempt(attempt, attempts)
    case Compare(_, _, resume) => 2 + StepsFromResume(resume)
    case Delete(_, _, resume) => 1 + StepsFromResume(resume)
    case Body(_) => 1 + GATE_STEPS + RELEASE_STEPS
    case Returned => 0
    case Failed => 0
    case Dead => 0
  }

  predicate Finished(pc: Pc) {
    pc.Returned? || pc.Failed? || pc.Dead?
  }

  lemma GateStepCounts(split: bool, s: State, i: nat)
    requires i < |s.tasks| && Counted(s.tasks[i].pc) && TakesTheGate(s.tasks[i].pc)
    ensures var pc := Advance(split, s, i).tasks[i].pc;
      Counted(pc) && StepsLeft(pc) < StepsLeft(s.tasks[i].pc)
  {
  }

  lemma LockStepCounts(split: bool, s: State, i: nat)
    requires i < |s.tasks| && Counted(s.tasks[i].pc) && TakesTheLock(s.tasks[i].pc)
    ensures var pc := Advance(split, s, i).tasks[i].pc;
      Counted(pc) && StepsLeft(pc) < StepsLeft(s.tasks[i].pc)
  {
  }

  lemma RemovalStepCounts(split: bool, s: State, i: nat)
    requires i < |s.tasks| && Counted(s.tasks[i].pc) && Removes(s.tasks[i].pc)
    ensures var pc := Advance(split, s, i).tasks[i].pc;
      Counted(pc) && StepsLeft(pc) < StepsLeft(s.tasks[i].pc)
  {
  }

  lemma OwnStepCounts(split: bool, s: State, i: nat)
    requires i < |s.tasks| && Counted(s.tasks[i].pc) && !Finished(s.tasks[i].pc)
    ensures var pc := Advance(split, s, i).tasks[i].pc;
      Counted(pc) && StepsLeft(pc) < StepsLeft(s.tasks[i].pc)
  {
    if TakesTheGate(s.tasks[i].pc) {
      GateStepCounts(split, s, i);
    } else if TakesTheLock(s.tasks[i].pc) {
      LockStepCounts(split, s, i);
    } else if Removes(s.tasks[i].pc) {
      RemovalStepCounts(split, s, i);
    }
  }

  /** Whether event `e` is a step that an unfinished task `i` makes. */
  predicate IsOwnStep(s: State, e: Event, i: nat) {
    e == Run(i) && i < |s.tasks| && !Finished(s.tasks[i].pc)
  }

  lemma EventCounts(split: bool, s: State, e: Event, i: nat)
    requires i < |s.tasks| && Counted(s.tasks[i].pc)
    ensures var t := Do(split, s, e);
      && |t.tasks| >= |s.tasks|
      && Counted(t.tasks[i].pc)
      && (if IsOwnStep(s, e, i) then 1 else 0) + StepsLeft(t.tasks[i].pc) <= StepsLeft(s.tasks[i].pc)
  {
    match e
    case Run(k) =>
      if k < |s.tasks| {
        AdvanceMovesOneTask(split, s, k);
        FinishedStays(split, s, k);
        hide Advance, StepsLeft, Counted;
        if IsOwnStep(s, e, i) {
          OwnStepCounts(split, s, i);
        }
      }
    case Spawn(_, _) =>
    case Crash(_) =>
  }

  lemma FinishedStays(split: bool, s: State, i: nat)
    requires i < |s.tasks|
    ensures Finished(s.tasks[i].pc) ==> Advance(split, s, i) == s
  {
  }

  /** How many steps task `i` makes in the run `es` before it has finished. */
  ghost function OwnSteps(split: bool, s: State, es: seq<Event>, i: nat): nat {
    if es == [] then 0
    else
      var n := |es| - 1;
      OwnSteps(split, s, es[..n], i) + (if IsOwnStep(Exec(split, s, es[..n]), es[n], i) then 1 else 0)
  }

  /** A call of `withDirectoryLock` makes a bounded number of filesystem actions in every run,
      whatever the other tasks do: it enters, gives up or dies, and never retries for ever. */
  lemma {:induction false} StepsAreBounded(split: bool, s: State, es: seq<Event>, i: nat)
    requires i < |s.tasks| && Counted(s.tasks[i].pc)
    ensures |Exec(split, s, es).tasks| >= |s.tasks|
    ensures Counted(Exec(split, s, es).tasks[i].pc)
    ensures OwnSteps(split, s, es, i) + StepsLeft(Exec(split, s, es).tasks[i].pc) <= StepsLeft(s.tasks[i].pc)
  {
    if es != [] {
      var n := |es| - 1;
      StepsAreBounded(split, s, es[..n], i);
      EventCounts(split, Exec(split, s, es[..n]), es[n], i);
    }
  }

  function Alone(i: nat, n: nat): seq<Event> {
    seq(n, _ => Run(i))
  }

  lemma NoneYet(s: State, i: nat)
    ensures Exec(false, s, Alone(i, 0)) == s
  {
  }

  lemma OneMore(s: State, i: nat, n: nat)
    requires i < |Exec(false, s, Alone(i, n)).tasks|
    ensures Exec(false, s, Alone(i, n + 1)) == Advance(false, Exec(false, s, Alone(i, n)), i)
  {
    hide Advance;
    assert Alone(i, n + 1)[..n] == Alone(i, n);
  }

  /** Left alone with a free or abandoned gate, a task takes the gate. */
  lemma TakesGate(s: State, i: nat, why: Purpose, tries: nat) returns (n: nat)
    requires i < |s.tasks| && s.tasks[i].pc == GateClaim(why, tries) && tries + 1 < ACQUIRE_ATTEMPTS
    requires s.gate.None? || IsStale(s, s.tasks[i].place, s.gate)
    ensures n == if s.gate.None? then 1 else 5
    ensures var t := Exec(false, s, Alone(i, n));
      && |t.tasks| == |s.tasks| && t.lock == s.lock && t.alive == s.alive
      && t.gate.Some? && t.tasks[i] == s.tasks[i].(pc := Gated(why, t.gate.value))
  {
    hide Exec, Alone;
    n := 0;
    NoneYet(s, i);
    if s.gate.Some? {
      OneMore(s, i, 0);
      OneMore(s, i, 1);
      OneMore(s, i, 2);
      OneMore(s, i, 3);
      n := 4;
    }
    OneMore(s, i, n);
    n := n + 1;
  }

  /** Holding the gate, a task takes a free or abandoned lock and enters the body. */
  lemma TakesLock(s: State, i: nat, attempt: nat, attempts: nat, gate: Owner) returns (n: nat)
    requires i < |s.tasks| && s.tasks[i].pc == LockClaim(attempt, attempts, gate) && s.gate == Some(gate)
    requires s.lock.None? || IsStale(s, s.tasks[i].place, s.lock)
    ensures n == if s.lock.None? then 2 else 6
    ensures var t := Exec(false, s, Alone(i, n));
      && |t.tasks| == |s.tasks| && t.gate.None?
      && t.lock.Some? && t.tasks[i] == s.tasks[i].(pc := Body(t.lock.value))
  {
    hide Exec, Alone;
    n := 0;
    NoneYet(s, i);
    if s.lock.Some? {
      OneMore(s, i, 0);
      OneMore(s, i, 1);
      OneMore(s, i, 2);
      OneMore(s, i, 3);
      n := 4;
    }
    OneMore(s, i, n);
    OneMore(s, i, n + 1);
    n := n + 2;
  }

  lemma {:induction false} ExecAppends(split: bool, s: State, es: seq<Event>, fs: seq<Event>)
    ensures Exec(split, s, es + fs) == Exec(split, Exec(split, s, es), fs)
  {
    if fs == [] {
      assert es + fs == es;
    } else {
      var n := |fs| - 1;
      ExecAppends(split, s, es, fs[..n]);
      assert (es + fs)[..|es| + n] == es + fs[..n];
    }
  }

  ghost predicate EnteredOnDisk(s: State, i: nat) {
    i < |s.tasks| && s.tasks[i].pc.Body? && s.lock == Some(s.tasks[i].pc.lock)
  }

  /** Whatever dead processes of its own host left on disk, a task that is left alone replaces
      it and enters the body within eleven steps. */
  lemma DeadOwnersAreReplaced(s: State, i: nat, attempt: nat, attempts: nat, tries: nat)
    requires i < |s.tasks| && tries + 1 < ACQUIRE_ATTEMPTS
    requires s.tasks[i].pc == GateClaim(ToAcquire(attempt, attempts), tries)
    requires s.gate.None? || IsStale(s, s.tasks[i].place, s.gate)
    requires s.lock.None? || IsStale(s, s.tasks[i].place, s.lock)
    ensures exists n | 0 <= n <= 11 :: EnteredOnDisk(Exec(false, s, Alone(i, n)), i)
  {
    hide Exec;
    var n := TakesGate(s, i, ToAcquire(attempt, attempts), tries);
    var t := Exec(false, s, Alone(i, n));
    var m := TakesLock(t, i, attempt, attempts, t.gate.value);
    ExecAppends(false, s, Alone(i, n), Alone(i, m));
    assert Alone(i, n) + Alone(i, m) == Alone(i, n + m);
  }

  // ---------------------------------------------------------------- the split removal

  /** The event list one longer leads to the state one step later. */
  lemma Next(es: seq<Event>, s: State, e: Event) returns (es': seq<Event>, s': State)
    requires s == Exec(true, Initial(), es)
    ensures es' == es + [e] && s' == Do(true, s, e) && s' == Exec(true, Initial(), es')
  {
    es', s' := es + [e], Do(true, s, e);
    assert es'[..|es|] == es;
  }

  /** A call has entered the body. */
  lemma HeldByOne() returns (es: seq<Event>, s: State)
    ensures s == Exec(true, Initial(), es)
    ensures s.alive == {Place(0, 1)} && |s.tasks| == 1 && |s.issued| == 2
    ensures s.gate.None? && s.lock == Some(Owner(1, Place(0, 1)))
  {
    es, s := [], Initial();
    assert s == Exec(true, Initial(), es);
    hide Exec;
    es, s := Next(es, s, Spawn(Place(0, 1), 1));
    es, s := Next(es, s, Run(0));
    es, s := Next(es, s, Run(0));
    es, s := Next(es, s, Run(0));
    es, s := Next(es, s, Run(0));
  }

  /** A process that held the lock, and a second call of it that held the gate, have died. */
  lemma AbandonedByOneProcess() returns (es: seq<Event>, s: State)
    ensures s == Exec(true, Initial(), es)
    ensures s.alive == {Place(0, 2), Place(0, 3)} && |s.tasks| == 4 && |s.issued| == 3
    ensures s.gate == Some(Owner(2, Place(0, 1))) && s.lock == Some(Owner(1, Place(0, 1)))
    ensures s.tasks[2] == Task(Place(0, 2), GateClaim(ToAcquire(0, 1), 0))
    ensures s.tasks[3] == Task(Place(0, 3), GateClaim(ToAcquire(0, 1), 0))
  {
    hide Exec;
    es, s := HeldByOne();
    es, s := Next(es, s, Spawn(Place(0, 1), 1));
    es, s := Next(es, s, Run(1));
    hide Advance;
    es, s := Next(es, s, Spawn(Place(0, 2), 1));
    es, s := Next(es, s, Spawn(Place(0, 3), 1));
    es, s := Next(es, s, Crash(Place(0, 1)));
  }

  /** Two reclaimers have both compared the dead gate owner's token. */
  lemma TwoReclaimers() returns (es: seq<Event>, s: State)
    ensures s == Exec(true, Initial(), es)
    ensures s.alive == {Place(0, 2), Place(0, 3)} && |s.tasks| == 4 && |s.issued| == 3
    ensures s.gate == Some(Owner(2, Place(0, 1))) && s.lock == Some(Owner(1, Place(0, 1)))
    ensures var pc := Delete(Gate, Owner(2, Place(0, 1)), RetryGate(ToAcquire(0, 1), 0));
      s.tasks[2] == Task(Place(0, 2), pc) && s.tasks[3] == Task(Place(0, 3), pc)
  {
    hide Exec;
    es, s := AbandonedByOneProcess();
    es, s := Next(es, s, Run(2));
    es, s := Next(es, s, Run(2));
    es, s := Next(es, s, Run(2));
    es, s := Next(es, s, Run(2));
    es, s := Next(es, s, Run(3));
    es, s := Next(es, s, Run(3));
    es, s := Next(es, s, Run(3));
    es, s := Next(es, s, Run(3));
  }

  /** Each deletes the gate and claims it, the second one deleting the first one's claim. */
  lemma TwoGateHolders() returns (es: seq<Event>, s: State)
    ensures s == Exec(true, Initial(), es)
    ensures s.alive == {Place(0, 2), Place(0, 3)} && |s.tasks| == 4 && |s.issued| == 5
    ensures s.gate == Some(Owner(4, Place(0, 3))) && s.lock == Some(Owner(1, Place(0, 1)))
    ensures s.tasks[2] == Task(Place(0, 2), LockClaim(0, 1, Owner(3, Place(0, 2))))
    ensures s.tasks[3] == Task(Place(0, 3), LockClaim(0, 1, Owner(4, Place(0, 3))))
  {
    hide Exec;
    es, s := TwoReclaimers();
    es, s := Next(es, s, Run(2));
    es, s := Next(es, s, Run(2));
    es, s := Next(es, s, Run(3));
    es, s := Next(es, s, Run(3));
  }

  /** Both gate holders have found the lock's owner dead. */
  lemma TwoLockReclaimers() returns (es: seq<Event>, s: State)
    ensures s == Exec(true, Initial(), es)
    ensures s.alive == {Place(0, 2), Place(0, 3)} && |s.tasks| == 4 && |s.issued| == 5
    ensures s.gate == Some(Owner(4, Place(0, 3))) && s.lock == Some(Owner(1, Place(0, 1)))
    ensures s.tasks[2] == Task(Place(0, 2), LockRemove(0, 1, Owner(3, Place(0, 2)), Owner(1, Place(0, 1))))
    ensures s.tasks[3] == Task(Place(0, 3), LockRemove(0, 1, Owner(4, Place(0, 3)), Owner(1, Place(0, 1))))
  {
    hide Exec;
    es, s := TwoGateHolders();
    es, s := Next(es, s, Run(2));
    es, s := Next(es, s, Run(2));
    es, s := Next(es, s, Run(2));
    es, s := Next(es, s, Run(3));
    es, s := Next(es, s, Run(3));
    es, s := Next(es, s, Run(3));
  }

  /** Each removes the lock and claims it, the second one removing the first one's claim. */
  lemma TwoLockClaims() returns (es: seq<Event>, s: State)
    ensures s == Exec(true, Initial(), es) && |s.tasks| == 4 && |s.issued| == 7
    ensures s.gate == Some(Owner(4, Place(0, 3)))
    ensures s.tasks[2] == Task(Place(0, 2), Compare(Gate, Owner(3, Place(0, 2)), EnterBody(Owner(5, Place(0, 2)))))
    ensures s.tasks[3] == Task(Place(0, 3), Compare(Gate, Owner(4, Place(0, 3)), EnterBody(Owner(6, Place(0, 3)))))
  {
    hide Exec;
    es, s := TwoLockReclaimers();
    es, s := Next(es, s, Run(2));
    es, s := Next(es, s, Run(2));
    es, s := Next(es, s, Run(3));
    es, s := Next(es, s, Run(3));
  }

  /** If a removal reads the token in one step and deletes the directory in a later one, two
      live processes can be inside the protected body at once. */
  lemma SplitRemovalAdmitsTwo() returns (es: seq<Event>)
    ensures !MutuallyExclusive(Exec(true, Initial(), es))
    ensures !Careful(true, Initial(), es)
  {
    hide Exec, Careful;
    var s;
    es, s := TwoLockClaims();
    es, s := Next(es, s, Run(2));
    es, s := Next(es, s, Run(3));
    es, s := Next(es, s, Run(3));
    assert s.tasks[2].pc.Body? && s.tasks[3].pc.Body?;
    if Careful(true, Initial(), es) {
      SplitRemovalExcludesWhenNotOvertaken(es);
    }
  }
}
