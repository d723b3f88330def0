/** The refreshes of CacheRefresh over the directory lock of DirectoryLock: one lock for each agent
    and one for the file. A refresher's steps are those of the lock while it takes or gives back a
    lock, and those of the refresh in between. Every such run is a run of CacheRefresh, whose locks
    are simply free or not. */
module CacheLocks {
  import opened Wrappers
  import opened CacheRefresh
  import L = DirectoryLock

  datatype LockName = AgentLock(agent: Agent) | FileLock

  /** A refresher in its process, with its calls of the two locks it may be waiting for or in. */
  datatype Holder = Holder(place: L.Place, r: Refresher, agentTask: Option<nat>, fileTask: Option<nat>)

  datatype Machine = Machine(locks: LockName -> L.State, disk: Option<Cache>, holders: seq<Holder>, log: seq<Refresh>)

  datatype Act =
    | Start(place: L.Place, timezone: string, now: int, todo: seq<Agent>)
    | Crash(place: L.Place)
    | Move(task: nat, scan: Snapshot, attempts: nat)

  /** The machine without its locks. */
  function Bare(m: Machine): World {
    World(m.disk, seq(|m.holders|, k requires 0 <= k < |m.holders| => m.holders[k].r), m.log)
  }

  function WithLock(m: Machine, name: LockName, s: L.State): Machine {
    m.(locks := other => if other == name then s else m.locks(other))
  }

  /** The refresher's phase is about taking a lock or giving it back. */
  predicate AtLock(r: Refresher) {
    r.phase.Waiting? || r.phase.Scanned? || r.phase.Stored? || r.phase.Leaving?
  }

  /** That lock. */
  function LockAt(r: Refresher): LockName
    requires Running(r)
  {
    if r.phase.Waiting? || r.phase.Leaving? then AgentLock(r.todo[0]) else FileLock
  }

  function TaskAt(h: Holder): Option<nat> {
    if h.r.phase.Waiting? || h.r.phase.Leaving? then h.agentTask else h.fileTask
  }

  function PcAt(m: Machine, h: Holder): Option<L.Pc>
    requires Running(h.r)
  {
    var tasks := m.locks(LockAt(h.r)).tasks;
    if TaskAt(h).Some? && TaskAt(h).value < |tasks| then Some(tasks[TaskAt(h).value].pc) else None
  }

  /** What the next step of a refresher is to the refresh; nothing while it works at a lock. */
  function Seen(m: Machine, i: nat, scan: Snapshot): Option<Event>
    requires i < |m.holders|
  {
    var h := m.holders[i];
    if !Running(h.r) then None
    else
      var pc := PcAt(m, h);
      match h.r.phase
      case Waiting => Taking(pc, i, scan)
      case Scanned(_, _) => Taking(pc, i, scan)
      case Stored => GivingBack(pc, i, scan)
      case Leaving => GivingBack(pc, i, scan)
      case _ => Some(Step(i, scan))
  }

  function Taking(pc: Option<L.Pc>, i: nat, scan: Snapshot): Option<Event> {
    if pc.Some? && pc.value.Body? then Some(Step(i, scan))
    else if pc.Some? && pc.value.Failed? then Some(TimeOut(i))
    else None
  }

  function GivingBack(pc: Option<L.Pc>, i: nat, scan: Snapshot): Option<Event> {
    if pc.Some? && (pc.value.Returned? || pc.value.Failed?) then Some(Step(i, scan)) else None
  }

  /** A step at a lock: the call is made, or moves on. */
  function LockStep(m: Machine, i: nat, attempts: nat): Machine
    requires i < |m.holders| && Running(m.holders[i].r)
  {
    var h := m.holders[i];
    var name := LockAt(h.r);
    var s := m.locks(name);
    match TaskAt(h)
    case None =>
      var task := Some(|s.tasks|);
      var called := if name.FileLock? then h.(fileTask := task) else h.(agentTask := task);
      WithLock(m, name, L.Spawned(s, h.place, attempts)).(holders := m.holders[i := called])
    case Some(task) => if task < |s.tasks| then WithLock(m, name, L.Advance(false, s, task)) else m
  }

  /** A step of the refresh; the next agent needs new calls of its locks. */
  function RefreshStep(m: Machine, i: nat, e: Event): Machine
    requires i < |m.holders| && Running(m.holders[i].r)
  {
    var h := m.holders[i];
    var w := if e.Step? then Acted(Bare(m), i, e.scan) else GaveUp(Bare(m), i);
    var r := w.refreshers[i];
    var h' := if r.todo == h.r.todo then h.(r := r) else Holder(h.place, r, None, None);
    m.(disk := w.disk, log := w.log, holders := m.holders[i := h'])
  }

  function Moved(m: Machine, i: nat, scan: Snapshot, attempts: nat): Machine
    requires i < |m.holders|
  {
    if !Running(m.holders[i].r) then m
    else match Seen(m, i, scan)
      case None => LockStep(m, i, attempts)
      case Some(e) => RefreshStep(m, i, e)
  }

  function Born(s: L.State, place: L.Place): L.State {
    s.(alive := s.alive + {place})
  }

  function DoAct(m: Machine, a: Act): Machine {
    match a
    case Start(place, timezone, now, todo) =>
      m.(locks := name => Born(m.locks(name), place),
         holders := m.holders + [Holder(place, Refresher(timezone, now, todo, Waiting, false), None, None)])
    case Crash(place) =>
      m.(locks := name => L.Crashed(m.locks(name), place),
         holders := seq(|m.holders|, k requires 0 <= k < |m.holders| =>
           if m.holders[k].place == place then m.holders[k].(r := m.holders[k].r.(dead := true)) else m.holders[k]))
    case Move(i, scan, attempts) => if i < |m.holders| then Moved(m, i, scan, attempts) else m
  }

  function DoActs(m: Machine, acts: seq<Act>): Machine {
    if acts == [] then m else DoAct(DoActs(m, acts[..|acts| - 1]), acts[|acts| - 1])
  }

  function Unused(disk: Option<Cache>): Machine {
    Machine(_ => L.Initial(), disk, [], [])
  }

  // ---------------------------------------------------------------- tickets and locks belong together

  ghost predicate LockOk(s: L.State) {
    L.Inv(s) && L.NoPendingDelete(s)
  }

  /** A call belongs to its refresher's process, and a refresher past the wait is in the body. */
  ghost predicate CallOk(s: L.State, task: Option<nat>, place: L.Place, holds: bool) {
    && (task.Some? ==> task.value < |s.tasks| && s.tasks[task.value].place == place)
    && (holds ==> task.Some? && s.tasks[task.value].pc.Body?)
  }

  ghost predicate HolderOk(m: Machine, h: Holder) {
    Running(h.r) ==>
      && CallOk(m.locks(AgentLock(h.r.todo[0])), h.agentTask, h.place, HoldsAgent(h.r, h.r.todo[0]))
      && CallOk(m.locks(FileLock), h.fileTask, h.place, HoldsFile(h.r))
  }

  ghost predicate Apart(h: Holder, g: Holder) {
    Running(h.r) && Running(g.r) ==>
      && (h.r.todo[0] == g.r.todo[0] && h.agentTask.Some? ==> h.agentTask != g.agentTask)
      && (h.fileTask.Some? ==> h.fileTask != g.fileTask)
  }

  ghost predicate Glued(m: Machine) {
    && (forall name :: LockOk(m.locks(name)))
    && (forall k | 0 <= k < |m.holders| :: HolderOk(m, m.holders[k]))
    && (forall j, k | 0 <= j < |m.holders| && 0 <= k < |m.holders| && j != k :: Apart(m.holders[j], m.holders[k]))
  }

  // ---------------------------------------------------------------- keeping them together

  lemma BirthKeepsLock(s: L.State, place: L.Place)
    requires LockOk(s)
    ensures LockOk(Born(s, place))
  {
    var t := Born(s, place);
    forall k | 0 <= k < |t.tasks| ensures L.TaskOk(t, t.tasks[k]) {
      assert L.TaskOk(s, s.tasks[k]);
    }
  }

  lemma LockEventKeepsLock(s: L.State, e: L.Event)
    requires LockOk(s)
    ensures LockOk(L.Do(false, s, e))
  {
    L.DoKeepsInv(false, s, e);
    L.AtomicStepLeavesNoPendingDelete(s, e);
  }

  /** Only the calls of holder `i` differ, all locks but one are as they were, and in that one only
      holder `i`'s call has moved. */
  ghost predicate Elsewhere(m: Machine, m': Machine, i: nat, name: LockName, own: Option<nat>) {
    && i < |m.holders| == |m'.holders|
    && (forall k | 0 <= k < |m.holders| && k != i :: m'.holders[k] == m.holders[k])
    && (forall other | other != name :: m'.locks(other) == m.locks(other))
    && |m.locks(name).tasks| <= |m'.locks(name).tasks|
    && (forall k | 0 <= k < |m.locks(name).tasks| && Some(k) != own :: m'.locks(name).tasks[k] == m.locks(name).tasks[k])
  }

  /** Another holder's call of the lock is not the one that moved. */
  ghost predicate NotTheirs(h: Holder, name: LockName, own: Option<nat>) {
    Running(h.r) && own.Some? ==>
      && (name == AgentLock(h.r.todo[0]) ==> h.agentTask != own)
      && (name.FileLock? ==> h.fileTask != own)
  }

  lemma OthersStayOk(m: Machine, m': Machine, i: nat, name: LockName, own: Option<nat>, h: Holder)
    requires Elsewhere(m, m', i, name, own) && HolderOk(m, h) && NotTheirs(h, name, own)
    ensures HolderOk(m', h)
  {
    if Running(h.r) {
      CallStaysOk(m, m', i, name, own, AgentLock(h.r.todo[0]), h.agentTask, h.place, HoldsAgent(h.r, h.r.todo[0]));
      CallStaysOk(m, m', i, name, own, FileLock, h.fileTask, h.place, HoldsFile(h.r));
    }
  }

  lemma CallStaysOk(m: Machine, m': Machine, i: nat, name: LockName, own: Option<nat>,
                    at: LockName, task: Option<nat>, place: L.Place, holds: bool)
    requires Elsewhere(m, m', i, name, own) && CallOk(m.locks(at), task, place, holds)
    requires at == name && own.Some? ==> task != own
    ensures CallOk(m'.locks(at), task, place, holds)
  {
  }

  lemma GluedAgain(m: Machine, m': Machine, i: nat, name: LockName, own: Option<nat>)
    requires Glued(m) && Elsewhere(m, m', i, name, own)
    requires LockOk(m'.locks(name)) && HolderOk(m', m'.holders[i])
    requires forall k | 0 <= k < |m.holders| && k != i :: NotTheirs(m.holders[k], name, own)
    requires forall k | 0 <= k < |m.holders| && k != i ::
      Apart(m.holders[k], m'.holders[i]) && Apart(m'.holders[i], m.holders[k])
    ensures Glued(m')
  {
    hide LockOk, HolderOk, Apart, NotTheirs;
    forall k | 0 <= k < |m'.holders| ensures HolderOk(m', m'.holders[k]) {
      if k != i {
        assert HolderOk(m, m.holders[k]);
        OthersStayOk(m, m', i, name, own, m.holders[k]);
      }
    }
    forall other ensures LockOk(m'.locks(other)) {
      assert LockOk(m.locks(other));
    }
  }

  lemma CallKeepsGlue(m: Machine, i: nat, attempts: nat)
    requires Glued(m) && i < |m.holders| && Running(m.holders[i].r) && TaskAt(m.holders[i]).None?
    requires AtLock(m.holders[i].r)
    ensures Glued(LockStep(m, i, attempts))
  {
    var h := m.holders[i];
    var name := LockAt(h.r);
    var m' := LockStep(m, i, attempts);
    LockEventKeepsLock(m.locks(name), L.Spawn(h.place, attempts));
    assert HolderOk(m, h);
    forall k | 0 <= k < |m.holders| && k != i
      ensures NotTheirs(m.holders[k], name, None)
      ensures Apart(m.holders[k], m'.holders[i]) && Apart(m'.holders[i], m.holders[k])
    {
      assert HolderOk(m, m.holders[k]) && Apart(m.holders[k], h) && Apart(h, m.holders[k]);
    }
    hide LockOk;
    GluedAgain(m, m', i, name, None);
  }

  lemma CallStepKeepsGlue(m: Machine, i: nat, attempts: nat)
    requires Glued(m) && i < |m.holders| && Running(m.holders[i].r) && TaskAt(m.holders[i]).Some?
    requires AtLock(m.holders[i].r)
    ensures Glued(LockStep(m, i, attempts))
  {
    var h := m.holders[i];
    var name := LockAt(h.r);
    var own := TaskAt(h);
    var m' := LockStep(m, i, attempts);
    assert HolderOk(m, h);
    LockEventKeepsLock(m.locks(name), L.Run(own.value));
    L.AdvanceMovesOneTask(false, m.locks(name), own.value);
    hide LockOk, L.Advance;
    forall k | 0 <= k < |m.holders| && k != i
      ensures NotTheirs(m.holders[k], name, own)
      ensures Apart(m.holders[k], m'.holders[i]) && Apart(m'.holders[i], m.holders[k])
    {
      assert Apart(m.holders[k], h) && Apart(h, m.holders[k]);
    }
    GluedAgain(m, m', i, name, own);
  }

  lemma RefreshStepKeepsGlue(m: Machine, i: nat, scan: Snapshot)
    requires Glued(m) && i < |m.holders| && Running(m.holders[i].r) && Seen(m, i, scan).Some?
    ensures Glued(RefreshStep(m, i, Seen(m, i, scan).value))
  {
    hide LockOk;
    var h := m.holders[i];
    var m' := RefreshStep(m, i, Seen(m, i, scan).value);
    assert HolderOk(m, h);
    forall k | 0 <= k < |m.holders| && k != i
      ensures Apart(m.holders[k], m'.holders[i]) && Apart(m'.holders[i], m.holders[k])
    {
      assert Apart(m.holders[k], h) && Apart(h, m.holders[k]);
    }
    GluedAgain(m, m', i, FileLock, None);
  }

  lemma StartKeepsGlue(m: Machine, a: Act)
    requires Glued(m) && a.Start?
    ensures Glued(DoAct(m, a))
  {
    var m' := DoAct(m, a);
    forall name ensures LockOk(m'.locks(name)) {
      BirthKeepsLock(m.locks(name), a.place);
    }
    hide LockOk;
    forall k | 0 <= k < |m'.holders| ensures HolderOk(m', m'.holders[k]) {
      if k < |m.holders| {
        assert HolderOk(m, m.holders[k]);
      }
    }
  }

  lemma CrashKeepsGlue(m: Machine, place: L.Place)
    requires Glued(m)
    ensures Glued(DoAct(m, Crash(place)))
  {
    var m' := DoAct(m, Crash(place));
    forall name ensures LockOk(m'.locks(name)) {
      LockEventKeepsLock(m.locks(name), L.Crash(place));
    }
    hide LockOk;
    forall k | 0 <= k < |m'.holders| ensures HolderOk(m', m'.holders[k]) {
      assert HolderOk(m, m.holders[k]);
    }
    forall j, k | 0 <= j < |m'.holders| && 0 <= k < |m'.holders| && j != k ensures Apart(m'.holders[j], m'.holders[k]) {
      assert Apart(m.holders[j], m.holders[k]);
    }
  }

  // ---------------------------------------------------------------- every run is a run of the refreshes

  /** A refresher in the body of a lock finds nobody else where that lock is held. */
  lemma BodyIsUnblocked(m: Machine, i: nat, scan: Snapshot)
    requires Glued(m) && i < |m.holders| && Running(m.holders[i].r)
    requires Seen(m, i, scan) == Some(Step(i, scan))
    ensures !Blocked(Bare(m), i)
  {
    var h := m.holders[i];
    var name := LockAt(h.r);
    if h.r.phase.Waiting? || h.r.phase.Scanned? {
      assert L.MutuallyExclusive(m.locks(name)) by {
        assert LockOk(m.locks(name));
        L.InvExcludes(m.locks(name));
      }
      forall k | 0 <= k < |m.holders| && k != i
        ensures !(h.r.phase.Waiting? && HoldsAgent(m.holders[k].r, h.r.todo[0]))
        ensures !(h.r.phase.Scanned? && HoldsFile(m.holders[k].r))
      {
        assert HolderOk(m, m.holders[k]) && Apart(h, m.holders[k]);
      }
    }
  }

  /** What an act is to the refreshes. */
  function EventsOf(m: Machine, a: Act): seq<Event> {
    match a
    case Start(_, timezone, now, todo) => [Begin(timezone, now, todo)]
    case Crash(place) => [Fail(set k | 0 <= k < |m.holders| && m.holders[k].place == place :: k)]
    case Move(i, scan, _) =>
      if i < |m.holders| && Seen(m, i, scan).Some? then [Seen(m, i, scan).value] else []
  }

  lemma MoveIsEvent(m: Machine, i: nat, scan: Snapshot, attempts: nat)
    requires Glued(m) && i < |m.holders| && Running(m.holders[i].r)
    ensures var m' := Moved(m, i, scan, attempts);
      && Glued(m')
      && Bare(m') == (if Seen(m, i, scan).Some? then Do(Bare(m), Seen(m, i, scan).value) else Bare(m))
  {
    if Seen(m, i, scan).Some? {
      RefreshStepKeepsGlue(m, i, scan);
      if Seen(m, i, scan).value.Step? {
        BodyIsUnblocked(m, i, scan);
      }
    } else if TaskAt(m.holders[i]).Some? {
      CallStepKeepsGlue(m, i, attempts);
    } else {
      CallKeepsGlue(m, i, attempts);
    }
  }

  lemma ActIsEvents(m: Machine, a: Act)
    requires Glued(m)
    ensures Glued(DoAct(m, a))
    ensures Bare(DoAct(m, a)) == DoAll(Bare(m), EventsOf(m, a))
  {
    hide Glued, Moved, Seen;
    OneEvent(Bare(m), EventsOf(m, a));
    match a
    case Start(place, timezone, now, todo) =>
      StartKeepsGlue(m, a);
      assert Bare(DoAct(m, a)).refreshers == Bare(m).refreshers + [Refresher(timezone, now, todo, Waiting, false)];
    case Crash(place) =>
      CrashKeepsGlue(m, place);
      assert Bare(DoAct(m, a)).refreshers == Do(Bare(m), EventsOf(m, a)[0]).refreshers;
    case Move(i, scan, attempts) =>
      if i < |m.holders| {
        if Running(m.holders[i].r) {
          MoveIsEvent(m, i, scan, attempts);
        } else {
          IdleIsUnseen(m, i, scan, attempts);
        }
      }
  }

  lemma IdleIsUnseen(m: Machine, i: nat, scan: Snapshot, attempts: nat)
    requires i < |m.holders| && !Running(m.holders[i].r)
    ensures Seen(m, i, scan).None? && Moved(m, i, scan, attempts) == m
  {
  }

  lemma OneEvent(w: World, es: seq<Event>)
    ensures |es| == 0 ==> DoAll(w, es) == w
    ensures |es| == 1 ==> DoAll(w, es) == Do(w, es[0])
  {
    hide Do;
    if |es| == 1 {
      assert es[..0] == [];
    }
  }

  lemma {:induction false} DoAllAppends(w: World, es: seq<Event>, more: seq<Event>)
    ensures DoAll(w, es + more) == DoAll(DoAll(w, es), more)
  {
    hide Do;
    if more == [] {
      assert es + more == es;
    } else {
      var n := |more| - 1;
      DoAllAppends(w, es, more[..n]);
      assert (es + more)[..|es| + n] == es + more[..n];
    }
  }

  /** What a run of acts is to the refreshes. */
  function Events(m: Machine, acts: seq<Act>): seq<Event> {
    if acts == [] then []
    else Events(m, acts[..|acts| - 1]) + EventsOf(DoActs(m, acts[..|acts| - 1]), acts[|acts| - 1])
  }

  ghost predicate StartInZone(acts: seq<Act>, timezone: string) {
    forall n | 0 <= n < |acts| && acts[n].Start? :: acts[n].timezone == timezone
  }

  lemma EventsOfActsInZone(m: Machine, a: Act, timezone: string)
    requires a.Start? ==> a.timezone == timezone
    ensures OneZone(EventsOf(m, a), timezone)
  {
  }

  /** Over the directory lock, with processes that die anywhere and locks left behind and reclaimed,
      the file, the refreshers and the log are those of a run of the refreshes. */
  lemma {:induction false} LockedRunsAreRuns(initial: Option<Cache>, acts: seq<Act>)
    ensures Glued(DoActs(Unused(initial), acts))
    ensures Bare(DoActs(Unused(initial), acts)) == DoAll(Opened(initial), Events(Unused(initial), acts))
  {
    var m := Unused(initial);
    if acts == [] {
      assert Bare(m) == Opened(initial);
    } else {
      var n := |acts| - 1;
      LockedRunsAreRuns(initial, acts[..n]);
      hide Glued, DoAct, EventsOf, Bare;
      ActIsEvents(DoActs(m, acts[..n]), acts[n]);
      DoAllAppends(Opened(initial), Events(m, acts[..n]), EventsOf(DoActs(m, acts[..n]), acts[n]));
    }
  }

  lemma {:induction false} EventsInZone(m: Machine, acts: seq<Act>, timezone: string)
    requires StartInZone(acts, timezone)
    ensures OneZone(Events(m, acts), timezone)
  {
    hide EventsOf, DoActs;
    if acts != [] {
      var n := |acts| - 1;
      EventsInZone(m, acts[..n], timezone);
      EventsOfActsInZone(DoActs(m, acts[..n]), acts[n], timezone);
    }
  }

  /** So with all writers in the file's timezone the file is what the refreshes leave one after the
      other, and each agent's entry is what its own refreshes made of it. */
  lemma LockedRefreshesAreSerial(initial: Option<Cache>, acts: seq<Act>, timezone: string, agent: Agent)
    requires (initial.Some? ==> initial.value.timezone == timezone) && StartInZone(acts, timezone)
    ensures var m := DoActs(Unused(initial), acts);
      && m.disk == Replay(initial, m.log)
      && Entry(m.disk, agent) == OwnEntry(Entry(initial, agent), RefreshesOf(m.log, agent))
  {
    hide DoActs, DoAll, Events, Replay, OwnEntry, RefreshesOf, Glued, Inv;
    var es := Events(Unused(initial), acts);
    LockedRunsAreRuns(initial, acts);
    EventsInZone(Unused(initial), acts, timezone);
    RefreshesAreSerial(initial, es, timezone);
    ConcurrentRefreshesKeepResults(initial, es, timezone, agent);
  }

  /** And no act puts an error where an available snapshot was. */
  lemma LockedActsKeepAvailable(initial: Option<Cache>, acts: seq<Act>, a: Act, timezone: string, agent: Agent)
    requires (initial.Some? ==> initial.value.timezone == timezone) && StartInZone(acts, timezone)
    requires a.Start? ==> a.timezone == timezone
    requires var before := Entry(DoActs(Unused(initial), acts).disk, agent); before.Some? && before.value.status.Available?
    ensures var after := Entry(DoAct(DoActs(Unused(initial), acts), a).disk, agent);
      after.Some? && !after.value.status.Error?
  {
    hide DoActs, DoAll, Do, DoAct, EventsOf, Events, Replay, Glued, Inv, Entry;
    var m := DoActs(Unused(initial), acts);
    var es := Events(Unused(initial), acts);
    LockedRunsAreRuns(initial, acts);
    EventsInZone(Unused(initial), acts, timezone);
    ActIsEvents(m, a);
    OneEvent(Bare(m), EventsOf(m, a));
    EventsOfActsInZone(m, a, timezone);
    AtMostOneEvent(m, a);
    if |EventsOf(m, a)| == 1 {
      AvailableNeverBecomesError(initial, es, EventsOf(m, a)[0], timezone, agent);
    }
  }

  lemma AtMostOneEvent(m: Machine, a: Act)
    ensures |EventsOf(m, a)| <= 1
  {
  }

  // ---------------------------------------------------------------- what a step is

  /** The call the refresher makes or goes on with stands at `pc`. */
  ghost predicate CallAt(m: Machine, i: nat, pc: L.Pc)
    requires i < |m.holders| && Running(m.holders[i].r)
  {
    var h := m.holders[i];
    var task := if h.r.phase.Waiting? || h.r.phase.Leaving? then h.agentTask else h.fileTask;
    var name := if h.r.phase.Waiting? || h.r.phase.Leaving? then AgentLock(h.r.todo[0]) else FileLock;
    task.Some? && task.value < |m.locks(name).tasks| && m.locks(name).tasks[task.value].pc == pc
  }

  /** A refresher goes on with its refresh when it needs no lock, when the call it waits for is inside,
      and when the call it gives back is over; it gives up when the call it waits for has failed. */
  lemma SeenIs(m: Machine, i: nat, scan: Snapshot)
    requires i < |m.holders| && Running(m.holders[i].r)
    ensures var phase := m.holders[i].r.phase;
      var seen := Seen(m, i, scan);
      && (!phase.Waiting? && !phase.Scanned? && !phase.Stored? && !phase.Leaving? ==> seen == Some(Step(i, scan)))
      && (phase.Waiting? || phase.Scanned? ==>
            && (seen == Some(Step(i, scan)) <==> exists lock :: CallAt(m, i, L.Body(lock)))
            && (seen == Some(TimeOut(i)) <==> CallAt(m, i, L.Failed))
            && (seen.Some? ==> seen == Some(Step(i, scan)) || seen == Some(TimeOut(i))))
      && (phase.Stored? || phase.Leaving? ==>
            && (seen == Some(Step(i, scan)) <==> CallAt(m, i, L.Returned) || CallAt(m, i, L.Failed))
            && (seen.Some? ==> seen == Some(Step(i, scan))))
  {
    var pc := PcAt(m, m.holders[i]);
    if pc.Some? && pc.value.Body? {
      assert CallAt(m, i, L.Body(pc.value.lock));
    }
  }

  /** Otherwise it makes the call it needs, if it has not made it, or goes one step on with it; nothing
      else happens. */
  lemma LockStepIs(m: Machine, i: nat, scan: Snapshot, attempts: nat)
    requires i < |m.holders| && Running(m.holders[i].r) && Seen(m, i, scan).None?
    ensures var h := m.holders[i];
      var atAgent := h.r.phase.Waiting? || h.r.phase.Leaving?;
      var name := if atAgent then AgentLock(h.r.todo[0]) else FileLock;
      var task := if atAgent then h.agentTask else h.fileTask;
      var s := m.locks(name);
      var m' := Moved(m, i, scan, attempts);
      && m'.disk == m.disk && m'.log == m.log
      && (forall other | other != name :: m'.locks(other) == m.locks(other))
      && (task.None? ==>
            && m'.locks(name) == L.Spawned(s, h.place, attempts)
            && m'.holders == m.holders[i := if atAgent then h.(agentTask := Some(|s.tasks|)) else h.(fileTask := Some(|s.tasks|))])
      && (task.Some? && task.value < |s.tasks| ==>
            m'.locks(name) == L.Advance(false, s, task.value) && m'.holders == m.holders)
  {
    hide L.Advance;
  }

  /** A refresher that starts is alive to every lock; the death of a process ends all its calls and all
      its refreshers. */
  lemma ProcessesAre(m: Machine, place: L.Place, timezone: string, now: int, todo: seq<Agent>, name: LockName)
    ensures var started := DoAct(m, Start(place, timezone, now, todo));
      && started.locks(name) == m.locks(name).(alive := m.locks(name).alive + {place})
      && started.holders == m.holders + [Holder(place, Refresher(timezone, now, todo, Waiting, false), None, None)]
    ensures var crashed := DoAct(m, Crash(place));
      && crashed.locks(name) == L.Crashed(m.locks(name), place)
      && |crashed.holders| == |m.holders|
      && forall k | 0 <= k < |m.holders| ::
           && (m.holders[k].place == place ==> !Running(crashed.holders[k].r))
           && (m.holders[k].place != place ==> crashed.holders[k] == m.holders[k])
  {
  }

  /** A step of the refresh touches no lock; a refresher that goes on to its next agent makes new calls. */
  lemma RefreshStepIs(m: Machine, i: nat, scan: Snapshot, attempts: nat)
    requires i < |m.holders| && Running(m.holders[i].r) && Seen(m, i, scan).Some?
    ensures var m' := Moved(m, i, scan, attempts);
      && m'.locks == m.locks && |m'.holders| == |m.holders|
      && (forall k | 0 <= k < |m.holders| && k != i :: m'.holders[k] == m.holders[k])
      && m'.holders[i].place == m.holders[i].place
      && (if m'.holders[i].r.todo == m.holders[i].r.todo
          then m'.holders[i].agentTask == m.holders[i].agentTask && m'.holders[i].fileTask == m.holders[i].fileTask
          else m'.holders[i].agentTask.None? && m'.holders[i].fileTask.None?)
  {
  }
}
