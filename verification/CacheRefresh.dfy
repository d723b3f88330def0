/** The token-usage cache of src/token-usage/cache.ts: one file, refreshed agent by agent by any
    number of processes. A refresh holds its agent's lock from its first read to its write, and the
    file lock from its second read to its write. Here a lock is something that is free or not;
    CacheLocks puts the directory lock in its place. */
module CacheRefresh {
  import opened Wrappers
  import Report = TokenReport

  type Agent = Report.Agent

  const FRESH_MS: int := 15000

  /** `history` stands for coverage, totals, days, models and sessions; `capturedAt` is absent when
      the recorded time cannot be read. */
  datatype Snapshot = Snapshot(status: Report.Status, capturedAt: Option<int>, error: Option<string>, history: string)

  datatype Cache = Cache(timezone: string, updatedAt: int, agents: map<Agent, Snapshot>)

  // ---------------------------------------------------------------- one refresh

  /** Daily totals cannot be relabelled for another timezone, so such a cache counts as none. */
  function SameZone(cache: Option<Cache>, timezone: string): Option<Cache> {
    if cache.Some? && cache.value.timezone == timezone then cache else None
  }

  function Entry(cache: Option<Cache>, agent: Agent): Option<Snapshot> {
    if cache.Some? && agent in cache.value.agents then Some(cache.value.agents[agent]) else None
  }

  /** Another process has refreshed the agent a moment ago. */
  predicate RecentlyRefreshed(existing: Option<Snapshot>, now: int) {
    && existing.Some? && existing.value.status.Available?
    && existing.value.capturedAt.Some? && now - existing.value.capturedAt.value < FRESH_MS
  }

  /** A failed scan keeps the last good snapshot and records the failure beside it. */
  function Final(existing: Option<Snapshot>, scan: Snapshot): Snapshot {
    if scan.status.Error? && existing.Some? && existing.value.status.Available?
    then existing.value.(error := scan.error) else scan
  }

  function Written(latest: Option<Cache>, timezone: string, now: int, agent: Agent, final: Snapshot): Cache {
    Cache(timezone, now, (if latest.Some? then latest.value.agents else map[])[agent := final])
  }

  /** A whole refresh as one action on the file. */
  function Refreshed(disk: Option<Cache>, timezone: string, now: int, agent: Agent, scan: Snapshot): Cache {
    var latest := SameZone(disk, timezone);
    Written(latest, timezone, now, agent, Final(Entry(latest, agent), scan))
  }

  /** A refresh changes no other agent's entry exactly when the file is of its timezone, or has no
      other entries to lose. */
  lemma RefreshKeepsOthersIff(disk: Option<Cache>, timezone: string, now: int, agent: Agent, scan: Snapshot)
    ensures (forall other | other != agent ::
        Entry(Some(Refreshed(disk, timezone, now, agent, scan)), other) == Entry(disk, other))
      <==> disk.None? || disk.value.timezone == timezone || disk.value.agents.Keys <= {agent}
  {
    if disk.Some? && disk.value.timezone != timezone && !(disk.value.agents.Keys <= {agent}) {
      var other :| other in disk.value.agents && other != agent;
      assert Entry(Some(Refreshed(disk, timezone, now, agent, scan)), other) != Entry(disk, other);
    }
  }

  /** An available entry becomes an error exactly when a failed scan of another timezone replaces it. */
  lemma ErrorReplacesAvailableIff(disk: Option<Cache>, timezone: string, now: int, agent: Agent, scan: Snapshot)
    requires Entry(disk, agent).Some? && Entry(disk, agent).value.status.Available?
    ensures Entry(Some(Refreshed(disk, timezone, now, agent, scan)), agent).value.status.Error?
      <==> scan.status.Error? && disk.value.timezone != timezone
  {
  }

  /** The file has an available snapshot of the agent, taken in this timezone, that is less than
      fifteen seconds old. */
  ghost predicate IsFresh(disk: Option<Cache>, timezone: string, now: int, agent: Agent) {
    && disk.Some? && disk.value.timezone == timezone && agent in disk.value.agents
    && var snapshot := disk.value.agents[agent];
       snapshot.status.Available? && snapshot.capturedAt.Some? && now < snapshot.capturedAt.value + FRESH_MS
  }

  /** The file after a scan: it is of this timezone and time; the agent's entry is the scan, or the
      good snapshot of this timezone that a failed scan leaves, with the failure noted; entries of
      another timezone are gone and all others are as they were. */
  ghost predicate IsRefreshed(
    before: Option<Cache>, timezone: string, now: int, agent: Agent, scan: Snapshot, after: Option<Cache>)
  {
    && after.Some? && after.value.timezone == timezone && after.value.updatedAt == now && agent in after.value.agents
    && var usable := before.Some? && before.value.timezone == timezone;
       var good := usable && agent in before.value.agents && before.value.agents[agent].status.Available?;
       && (if scan.status.Error? && good
           then after.value.agents[agent] == before.value.agents[agent].(error := scan.error)
           else after.value.agents[agent] == scan)
       && (forall other | other != agent ::
             && (other in after.value.agents <==> usable && other in before.value.agents)
             && (other in after.value.agents ==> after.value.agents[other] == before.value.agents[other]))
  }

  /** A refresh is spared exactly for a fresh snapshot, and otherwise leaves a refreshed file. */
  lemma RefreshIs(disk: Option<Cache>, timezone: string, now: int, agent: Agent, scan: Snapshot)
    ensures RecentlyRefreshed(Entry(SameZone(disk, timezone), agent), now) <==> IsFresh(disk, timezone, now, agent)
    ensures IsRefreshed(disk, timezone, now, agent, scan, Some(Refreshed(disk, timezone, now, agent, scan)))
  {
  }

  /** The cache file while nobody else uses it. */
  class CacheFile {
    var disk: Option<Cache>

    constructor (disk: Option<Cache>)
      ensures this.disk == disk
    {
      this.disk := disk;
    }

    /** `refreshAgent`, given what the scan would return. */
    method RefreshAgent(timezone: string, now: int, agent: Agent, scan: Snapshot)
      modifies this
      ensures disk == if RecentlyRefreshed(Entry(SameZone(old(disk), timezone), agent), now) then old(disk)
        else Some(Refreshed(old(disk), timezone, now, agent, scan))
      ensures if IsFresh(old(disk), timezone, now, agent) then disk == old(disk)
        else IsRefreshed(old(disk), timezone, now, agent, scan, disk)
    {
      RefreshIs(disk, timezone, now, agent, scan);
      hide IsFresh, IsRefreshed;
      var existing := Entry(SameZone(disk, timezone), agent);
      if existing.Some? && existing.value.status.Available? {
        if existing.value.capturedAt.Some? && now - existing.value.capturedAt.value < FRESH_MS {
          return;
        }
      }
      var final := scan;
      if scan.status.Error? && existing.Some? && existing.value.status.Available? {
        final := existing.value.(error := scan.error);
      }
      var latest := SameZone(disk, timezone).GetOr(Cache(timezone, now, map[]));
      latest := latest.(agents := latest.agents[agent := final]);
      disk := Some(latest.(updatedAt := now));
    }
  }

  // ---------------------------------------------------------------- refreshes of many processes

  /** Where a refresher is with the first agent it still has to refresh. */
  datatype Phase =
    | Waiting
    | Locked
    | Scanning(existing: Option<Snapshot>)
    | Scanned(existing: Option<Snapshot>, scan: Snapshot)
    | FileLocked(existing: Option<Snapshot>, scan: Snapshot)
    | HasLatest(existing: Option<Snapshot>, scan: Snapshot, latest: Option<Cache>)
    | Stored
    | Leaving

  datatype Refresher = Refresher(timezone: string, now: int, todo: seq<Agent>, phase: Phase, dead: bool)

  /** What a write did: which agent it refreshed, when, and what the scan had returned. */
  datatype Refresh = Refresh(timezone: string, now: int, agent: Agent, scan: Snapshot)

  datatype World = World(disk: Option<Cache>, refreshers: seq<Refresher>, log: seq<Refresh>)

  /** `TimeOut` is a lock wait that ran out, `Fail` a crash, or an exception that ends refreshes. */
  datatype Event =
    | Begin(timezone: string, now: int, todo: seq<Agent>)
    | Step(task: nat, scan: Snapshot)
    | TimeOut(task: nat)
    | Fail(tasks: set<nat>)

  predicate Running(r: Refresher) {
    !r.dead && r.todo != []
  }

  predicate HoldsAgent(r: Refresher, agent: Agent) {
    Running(r) && r.todo[0] == agent && !r.phase.Waiting? && !r.phase.Leaving?
  }

  predicate HoldsFile(r: Refresher) {
    Running(r) && (r.phase.FileLocked? || r.phase.HasLatest?)
  }

  function At(w: World, i: nat, r: Refresher): World
    requires i < |w.refreshers|
  {
    w.(refreshers := w.refreshers[i := r])
  }

  function NextAgent(r: Refresher): Refresher
    requires r.todo != []
  {
    r.(todo := r.todo[1..], phase := Waiting)
  }

  /** The lock that the refresher needs next is held. */
  predicate Blocked(w: World, i: nat)
    requires i < |w.refreshers| && Running(w.refreshers[i])
  {
    match w.refreshers[i].phase
    case Waiting => exists k | 0 <= k < |w.refreshers| :: HoldsAgent(w.refreshers[k], w.refreshers[i].todo[0])
    case Scanned(_, _) => exists k | 0 <= k < |w.refreshers| :: HoldsFile(w.refreshers[k])
    case _ => false
  }

  /** What a refresher does when no lock is in its way. */
  function Acted(w: World, i: nat, scan: Snapshot): World
    requires i < |w.refreshers| && Running(w.refreshers[i])
  {
    var r := w.refreshers[i];
    var agent := r.todo[0];
    match r.phase
    case Waiting => At(w, i, r.(phase := Locked))
    case Locked =>
      var existing := Entry(SameZone(w.disk, r.timezone), agent);
      At(w, i, r.(phase := if RecentlyRefreshed(existing, r.now) then Leaving else Scanning(existing)))
    case Scanning(existing) => At(w, i, r.(phase := Scanned(existing, scan)))
    case Scanned(existing, found) => At(w, i, r.(phase := FileLocked(existing, found)))
    case FileLocked(existing, found) =>
      At(w, i, r.(phase := HasLatest(existing, found, SameZone(w.disk, r.timezone))))
    case HasLatest(existing, found, latest) =>
      At(w, i, r.(phase := Stored)).(
        disk := Some(Written(latest, r.timezone, r.now, agent, Final(existing, found))),
        log := w.log + [Refresh(r.timezone, r.now, agent, found)])
    case Stored => At(w, i, r.(phase := Leaving))
    case Leaving => At(w, i, NextAgent(r))
  }

  function Advance(w: World, i: nat, scan: Snapshot): World
    requires i < |w.refreshers| && Running(w.refreshers[i])
  {
    if Blocked(w, i) then w else Acted(w, i, scan)
  }

  /** A refresher that gives up waiting for the file still gives its agent's lock back. */
  function GaveUp(w: World, i: nat): World
    requires i < |w.refreshers| && Running(w.refreshers[i])
  {
    var r := w.refreshers[i];
    match r.phase
    case Waiting => At(w, i, NextAgent(r))
    case Scanned(_, _) => At(w, i, r.(phase := Leaving))
    case _ => w
  }

  function Failed(w: World, tasks: set<nat>): World {
    w.(refreshers := seq(|w.refreshers|, k requires 0 <= k < |w.refreshers| =>
         if k in tasks then w.refreshers[k].(dead := true) else w.refreshers[k]))
  }

  function Do(w: World, e: Event): World {
    match e
    case Begin(timezone, now, todo) =>
      w.(refreshers := w.refreshers + [Refresher(timezone, now, todo, Waiting, false)])
    case Step(i, scan) => if i < |w.refreshers| && Running(w.refreshers[i]) then Advance(w, i, scan) else w
    case TimeOut(i) => if i < |w.refreshers| && Running(w.refreshers[i]) then GaveUp(w, i) else w
    case Fail(tasks) => Failed(w, tasks)
  }

  function DoAll(w: World, es: seq<Event>): World {
    if es == [] then w else Do(DoAll(w, es[..|es| - 1]), es[|es| - 1])
  }

  function Opened(disk: Option<Cache>): World {
    World(disk, [], [])
  }

  /** The file after refreshes that happen one after the other. */
  function Replay(disk: Option<Cache>, log: seq<Refresh>): Option<Cache> {
    if log == [] then disk
    else
      var last := log[|log| - 1];
      Some(Refreshed(Replay(disk, log[..|log| - 1]), last.timezone, last.now, last.agent, last.scan))
  }

  // ---------------------------------------------------------------- a refresher that is left alone

  /** Nobody but refresher `i` holds the agent's lock or the file's. */
  ghost predicate Unopposed(w: World, i: nat, agent: Agent) {
    forall k | 0 <= k < |w.refreshers| && k != i :: !HoldsAgent(w.refreshers[k], agent) && !HoldsFile(w.refreshers[k])
  }

  /** One more step of refresher `i`, whose state is `r` and whose file is `disk`. */
  lemma OneMoreStep(w: World, es: seq<Event>, i: nat, scan: Snapshot, r: Refresher, disk: Option<Cache>, log: seq<Refresh>)
    returns (es': seq<Event>)
    requires i < |w.refreshers| && Running(r) && Unopposed(w, i, r.todo[0])
    requires !HoldsAgent(r, r.todo[0]) || !r.phase.Waiting?
    requires DoAll(w, es) == At(w, i, r).(disk := disk, log := log)
    ensures es' == es + [Step(i, scan)]
    ensures DoAll(w, es') == Acted(At(w, i, r).(disk := disk, log := log), i, scan)
  {
    es' := es + [Step(i, scan)];
    assert es'[..|es|] == es;
    var now := At(w, i, r).(disk := disk, log := log);
    assert !Blocked(now, i);
    hide Acted, DoAll;
  }

  /** Left alone, a refresher takes its agent's lock, and then is either spared or scans and writes;
      then it goes on to its next agent. What it leaves is what an undisturbed refresh leaves. */
  lemma OneAgentAlone(w: World, i: nat, scan: Snapshot) returns (es: seq<Event>)
    requires i < |w.refreshers| && Running(w.refreshers[i]) && w.refreshers[i].phase.Waiting?
    requires Unopposed(w, i, w.refreshers[i].todo[0])
    ensures forall e | e in es :: e == Step(i, scan)
    ensures var r := w.refreshers[i];
      var agent := r.todo[0];
      var spared := IsFresh(w.disk, r.timezone, r.now, agent);
      DoAll(w, es) == At(w, i, NextAgent(r)).(
        disk := if spared then w.disk else Some(Refreshed(w.disk, r.timezone, r.now, agent, scan)),
        log := if spared then w.log else w.log + [Refresh(r.timezone, r.now, agent, scan)])
  {
    var r := w.refreshers[i];
    var agent := r.todo[0];
    var disk := w.disk;
    var existing := Entry(SameZone(disk, r.timezone), agent);
    RefreshIs(disk, r.timezone, r.now, agent, scan);
    hide IsFresh, IsRefreshed, RecentlyRefreshed, DoAll, Unopposed;
    es := [];
    assert DoAll(w, []) == At(w, i, r).(disk := disk, log := w.log) by {
      NothingDone(w, []);
    }
    es := OneMoreStep(w, es, i, scan, r, disk, w.log);
    es := OneMoreStep(w, es, i, scan, r.(phase := Locked), disk, w.log);
    if RecentlyRefreshed(existing, r.now) {
      es := OneMoreStep(w, es, i, scan, r.(phase := Leaving), disk, w.log);
    } else {
      es := ScansAlone(w, es, i, scan, existing);
      es := StoresAlone(w, es, i, scan, existing);
    }
  }

  lemma ScansAlone(w: World, es: seq<Event>, i: nat, scan: Snapshot, existing: Option<Snapshot>) returns (es': seq<Event>)
    requires i < |w.refreshers| && Running(w.refreshers[i]) && Unopposed(w, i, w.refreshers[i].todo[0])
    requires forall e | e in es :: e == Step(i, scan)
    requires DoAll(w, es) == At(w, i, w.refreshers[i].(phase := Scanning(existing)))
    ensures forall e | e in es' :: e == Step(i, scan)
    ensures DoAll(w, es')
      == At(w, i, w.refreshers[i].(phase := HasLatest(existing, scan, SameZone(w.disk, w.refreshers[i].timezone))))
  {
    var r := w.refreshers[i];
    hide DoAll, Unopposed;
    es' := OneMoreStep(w, es, i, scan, r.(phase := Scanning(existing)), w.disk, w.log);
    es' := OneMoreStep(w, es', i, scan, r.(phase := Scanned(existing, scan)), w.disk, w.log);
    es' := OneMoreStep(w, es', i, scan, r.(phase := FileLocked(existing, scan)), w.disk, w.log);
  }

  lemma StoresAlone(w: World, es: seq<Event>, i: nat, scan: Snapshot, existing: Option<Snapshot>) returns (es': seq<Event>)
    requires i < |w.refreshers| && Running(w.refreshers[i]) && Unopposed(w, i, w.refreshers[i].todo[0])
    requires existing == Entry(SameZone(w.disk, w.refreshers[i].timezone), w.refreshers[i].todo[0])
    requires forall e | e in es :: e == Step(i, scan)
    requires DoAll(w, es)
      == At(w, i, w.refreshers[i].(phase := HasLatest(existing, scan, SameZone(w.disk, w.refreshers[i].timezone))))
    ensures forall e | e in es' :: e == Step(i, scan)
    ensures var r := w.refreshers[i];
      DoAll(w, es') == At(w, i, NextAgent(r)).(
        disk := Some(Refreshed(w.disk, r.timezone, r.now, r.todo[0], scan)),
        log := w.log + [Refresh(r.timezone, r.now, r.todo[0], scan)])
  {
    var r := w.refreshers[i];
    var after := Some(Refreshed(w.disk, r.timezone, r.now, r.todo[0], scan));
    var longer := w.log + [Refresh(r.timezone, r.now, r.todo[0], scan)];
    hide DoAll, Unopposed;
    es' := OneMoreStep(w, es, i, scan, r.(phase := HasLatest(existing, scan, SameZone(w.disk, r.timezone))), w.disk, w.log);
    hide Written;
    es' := OneMoreStep(w, es', i, scan, r.(phase := Stored), after, longer);
    es' := OneMoreStep(w, es', i, scan, r.(phase := Leaving), after, longer);
  }

  lemma NothingDone(w: World, es: seq<Event>)
    requires es == []
    ensures DoAll(w, es) == w
  {
  }

  /** A wait for the agent's lock that runs out costs that agent its refresh; one for the file's lock
      costs the scan, and the agent's lock is given back in the next step. Nothing is written. */
  lemma TimeOutSkipsAgent(w: World, i: nat, scan: Snapshot)
    requires i < |w.refreshers| && Running(w.refreshers[i])
    requires w.refreshers[i].phase.Waiting? || w.refreshers[i].phase.Scanned?
    ensures var r := w.refreshers[i];
      var gaveUp := Do(w, TimeOut(i));
      && (r.phase.Waiting? ==> gaveUp == At(w, i, NextAgent(r)))
      && (r.phase.Scanned? ==> Do(gaveUp, Step(i, scan)) == At(w, i, NextAgent(r)))
      && NextAgent(r).todo == r.todo[1..] && NextAgent(r).phase.Waiting?
  {
  }

  // ---------------------------------------------------------------- what every interleaving keeps

  ghost predicate Exclusive(w: World) {
    && (forall j, k, agent | 0 <= j < k < |w.refreshers| ::
          !(HoldsAgent(w.refreshers[j], agent) && HoldsAgent(w.refreshers[k], agent)))
    && (forall j, k | 0 <= j < k < |w.refreshers| :: !(HoldsFile(w.refreshers[j]) && HoldsFile(w.refreshers[k])))
  }

  /** What a refresher has read of its agent, and of the file, is still so on disk. */
  ghost predicate ReadsAreCurrent(disk: Option<Cache>, r: Refresher) {
    Running(r) ==>
      match r.phase
      case Scanning(existing) => existing == Entry(disk, r.todo[0])
      case Scanned(existing, _) => existing == Entry(disk, r.todo[0])
      case FileLocked(existing, _) => existing == Entry(disk, r.todo[0])
      case HasLatest(existing, _, latest) => existing == Entry(disk, r.todo[0]) && latest == disk
      case _ => true
  }

  ghost predicate Inv(w: World, initial: Option<Cache>, timezone: string) {
    && Exclusive(w)
    && (w.disk.Some? ==> w.disk.value.timezone == timezone)
    && (forall k | 0 <= k < |w.refreshers| :: w.refreshers[k].timezone == timezone)
    && (forall k | 0 <= k < |w.refreshers| :: ReadsAreCurrent(w.disk, w.refreshers[k]))
    && w.disk == Replay(initial, w.log)
  }

  ghost predicate OneZone(es: seq<Event>, timezone: string) {
    forall n | 0 <= n < |es| && es[n].Begin? :: es[n].timezone == timezone
  }

  /** A refresher that takes no new lock keeps the others out of nothing. */
  ghost predicate HoldsNoMore(r: Refresher, r': Refresher) {
    && (HoldsFile(r') ==> HoldsFile(r))
    && (forall agent | HoldsAgent(r', agent) :: HoldsAgent(r, agent))
  }

  lemma MovingKeepsInv(w: World, i: nat, r: Refresher, initial: Option<Cache>, timezone: string)
    requires Inv(w, initial, timezone) && i < |w.refreshers|
    requires r.timezone == timezone && ReadsAreCurrent(w.disk, r)
    requires HoldsNoMore(w.refreshers[i], r)
    ensures Inv(At(w, i, r), initial, timezone)
  {
    hide ReadsAreCurrent, HoldsFile, HoldsAgent, Replay;
  }

  lemma LockingKeepsInv(w: World, i: nat, r: Refresher, initial: Option<Cache>, timezone: string)
    requires Inv(w, initial, timezone) && i < |w.refreshers|
    requires r.timezone == timezone && ReadsAreCurrent(w.disk, r)
    requires forall agent | HoldsAgent(r, agent) && !HoldsAgent(w.refreshers[i], agent) ::
      forall k | 0 <= k < |w.refreshers| :: !HoldsAgent(w.refreshers[k], agent)
    requires HoldsFile(r) && !HoldsFile(w.refreshers[i]) ==> forall k | 0 <= k < |w.refreshers| :: !HoldsFile(w.refreshers[k])
    ensures Inv(At(w, i, r), initial, timezone)
  {
    hide ReadsAreCurrent, HoldsFile, HoldsAgent, Replay;
  }

  /** A write in the file lock changes one entry, which nobody else has read. */
  lemma WritingKeepsInv(w: World, i: nat, scan: Snapshot, initial: Option<Cache>, timezone: string)
    requires Inv(w, initial, timezone) && i < |w.refreshers| && Running(w.refreshers[i])
    requires w.refreshers[i].phase.HasLatest?
    ensures Inv(Advance(w, i, scan), initial, timezone)
  {
    var r := w.refreshers[i];
    var agent := r.todo[0];
    var w' := Advance(w, i, scan);
    assert ReadsAreCurrent(w.disk, r);
    assert HoldsFile(r) && HoldsAgent(r, agent);
    assert w'.log[..|w.log|] == w.log;
    assert w'.disk == Replay(initial, w'.log);
    hide Replay, Final;
    forall k | 0 <= k < |w'.refreshers| ensures ReadsAreCurrent(w'.disk, w'.refreshers[k]) {
      if k != i {
        assert ReadsAreCurrent(w.disk, w.refreshers[k]);
        assert !HoldsFile(w.refreshers[k]) && !HoldsAgent(w.refreshers[k], agent);
      }
    }
  }

  lemma DoKeepsInv(w: World, e: Event, initial: Option<Cache>, timezone: string)
    requires Inv(w, initial, timezone) && (e.Begin? ==> e.timezone == timezone)
    ensures Inv(Do(w, e), initial, timezone)
  {
    match e
    case Begin(_, _, _) => hide Replay;
    case TimeOut(i) =>
      if i < |w.refreshers| && Running(w.refreshers[i]) {
        MovingKeepsInv(w, i, NextAgent(w.refreshers[i]), initial, timezone);
        MovingKeepsInv(w, i, w.refreshers[i].(phase := Leaving), initial, timezone);
      }
    case Fail(tasks) => hide Replay;
    case Step(i, scan) =>
      if i < |w.refreshers| && Running(w.refreshers[i]) {
        StepKeepsInv(w, i, scan, initial, timezone);
      }
  }

  lemma StepKeepsInv(w: World, i: nat, scan: Snapshot, initial: Option<Cache>, timezone: string)
    requires Inv(w, initial, timezone) && i < |w.refreshers| && Running(w.refreshers[i])
    ensures Inv(Advance(w, i, scan), initial, timezone)
  {
    var r := w.refreshers[i];
    var agent := r.todo[0];
    assert ReadsAreCurrent(w.disk, r) && r.timezone == timezone;
    assert SameZone(w.disk, timezone) == w.disk;
    match r.phase
    case Waiting =>
      if !Blocked(w, i) {
        LockingKeepsInv(w, i, r.(phase := Locked), initial, timezone);
      }
    case Locked =>
      var existing := Entry(SameZone(w.disk, r.timezone), agent);
      MovingKeepsInv(w, i, r.(phase := if RecentlyRefreshed(existing, r.now) then Leaving else Scanning(existing)),
                     initial, timezone);
    case Scanning(existing) => MovingKeepsInv(w, i, r.(phase := Scanned(existing, scan)), initial, timezone);
    case Scanned(existing, found) =>
      if !Blocked(w, i) {
        LockingKeepsInv(w, i, r.(phase := FileLocked(existing, found)), initial, timezone);
      }
    case FileLocked(existing, found) =>
      MovingKeepsInv(w, i, r.(phase := HasLatest(existing, found, SameZone(w.disk, r.timezone))), initial, timezone);
    case HasLatest(_, _, _) => WritingKeepsInv(w, i, scan, initial, timezone);
    case Stored => MovingKeepsInv(w, i, r.(phase := Leaving), initial, timezone);
    case Leaving => MovingKeepsInv(w, i, NextAgent(r), initial, timezone);
  }

  lemma LogKeepsZone(w: World, e: Event, initial: Option<Cache>, timezone: string)
    requires Inv(w, initial, timezone) && forall n | 0 <= n < |w.log| :: w.log[n].timezone == timezone
    ensures forall n | 0 <= n < |Do(w, e).log| :: Do(w, e).log[n].timezone == timezone
  {
    hide Exclusive, ReadsAreCurrent, Replay, HoldsAgent, HoldsFile;
  }

  /** With all writers in the file's timezone, any interleaving of refreshes, with crashes and lock
      timeouts anywhere, leaves what the refreshes would have left one after the other: no refresh
      overwrites another agent's result, and each failed scan met the snapshot that was on disk. */
  lemma {:induction false} RefreshesAreSerial(initial: Option<Cache>, es: seq<Event>, timezone: string)
    requires (initial.Some? ==> initial.value.timezone == timezone) && OneZone(es, timezone)
    ensures var w := DoAll(Opened(initial), es);
      Inv(w, initial, timezone) && w.disk == Replay(initial, w.log)
    ensures forall n | 0 <= n < |DoAll(Opened(initial), es).log| :: DoAll(Opened(initial), es).log[n].timezone == timezone
  {
    if es != [] {
      var n := |es| - 1;
      RefreshesAreSerial(initial, es[..n], timezone);
      DoKeepsInv(DoAll(Opened(initial), es[..n]), es[n], initial, timezone);
      LogKeepsZone(DoAll(Opened(initial), es[..n]), es[n], initial, timezone);
      hide Inv, Do, Replay;
    }
  }

  /** The refreshes of one agent, in order. */
  function RefreshesOf(log: seq<Refresh>, agent: Agent): seq<Refresh> {
    if log == [] then []
    else RefreshesOf(log[..|log| - 1], agent) + (if log[|log| - 1].agent == agent then [log[|log| - 1]] else [])
  }

  /** What an agent's entry becomes through its own refreshes. */
  function OwnEntry(entry: Option<Snapshot>, own: seq<Refresh>): Option<Snapshot> {
    if own == [] then entry else Some(Final(OwnEntry(entry, own[..|own| - 1]), own[|own| - 1].scan))
  }

  lemma RefreshedEntry(disk: Option<Cache>, timezone: string, now: int, author: Agent, scan: Snapshot, agent: Agent)
    requires disk.Some? ==> disk.value.timezone == timezone
    ensures var after := Refreshed(disk, timezone, now, author, scan);
      && after.timezone == timezone
      && Entry(Some(after), agent) == if author == agent then Some(Final(Entry(disk, agent), scan)) else Entry(disk, agent)
  {
  }

  /** In one timezone an agent's entry depends on that agent's refreshes alone. */
  lemma {:induction false} AgentsDoNotInterfere(disk: Option<Cache>, log: seq<Refresh>, timezone: string, agent: Agent)
    requires disk.Some? ==> disk.value.timezone == timezone
    requires forall n | 0 <= n < |log| :: log[n].timezone == timezone
    ensures Entry(Replay(disk, log), agent) == OwnEntry(Entry(disk, agent), RefreshesOf(log, agent))
    ensures Replay(disk, log).Some? ==> Replay(disk, log).value.timezone == timezone
  {
    hide Refreshed, Entry, Final;
    if log != [] {
      var n := |log| - 1;
      AgentsDoNotInterfere(disk, log[..n], timezone, agent);
      RefreshedEntry(Replay(disk, log[..n]), timezone, log[n].now, log[n].agent, log[n].scan, agent);
      var before := RefreshesOf(log[..n], agent);
      if log[n].agent == agent {
        assert (before + [log[n]])[..|before|] == before;
      } else {
        assert before + [] == before;
      }
    }
  }

  /** Over a whole run in one timezone: whatever concurrent refreshes of other agents do, an agent's
      entry is what its own refreshes made of it. */
  lemma ConcurrentRefreshesKeepResults(initial: Option<Cache>, es: seq<Event>, timezone: string, agent: Agent)
    requires (initial.Some? ==> initial.value.timezone == timezone) && OneZone(es, timezone)
    ensures var w := DoAll(Opened(initial), es);
      Entry(w.disk, agent) == OwnEntry(Entry(initial, agent), RefreshesOf(w.log, agent))
  {
    RefreshesAreSerial(initial, es, timezone);
    AgentsDoNotInterfere(initial, DoAll(Opened(initial), es).log, timezone, agent);
  }

  predicate Writes(w: World, e: Event) {
    && e.Step? && e.task < |w.refreshers| && Running(w.refreshers[e.task]) && w.refreshers[e.task].phase.HasLatest?
  }

  lemma OnlyWritesChangeTheFile(w: World, e: Event)
    requires !Writes(w, e)
    ensures Do(w, e).disk == w.disk
  {
    hide Blocked;
  }

  lemma WriteChangesOneEntry(w: World, e: Event, initial: Option<Cache>, timezone: string, agent: Agent)
    requires Inv(w, initial, timezone) && Writes(w, e)
    ensures var r := w.refreshers[e.task];
      Entry(Do(w, e).disk, agent) == if r.todo[0] == agent then Some(Final(Entry(w.disk, agent), r.phase.scan)) else Entry(w.disk, agent)
  {
    hide Exclusive, Replay, Final;
    assert ReadsAreCurrent(w.disk, w.refreshers[e.task]);
  }

  /** No event of such a run puts an error where an available snapshot was; a failed scan only
      changes the failure noted beside it. */
  lemma AvailableNeverBecomesError(initial: Option<Cache>, es: seq<Event>, e: Event, timezone: string, agent: Agent)
    requires (initial.Some? ==> initial.value.timezone == timezone) && OneZone(es, timezone)
    requires e.Begin? ==> e.timezone == timezone
    requires var before := Entry(DoAll(Opened(initial), es).disk, agent); before.Some? && before.value.status.Available?
    ensures var before := Entry(DoAll(Opened(initial), es).disk, agent);
      var after := Entry(Do(DoAll(Opened(initial), es), e).disk, agent);
      && after.Some? && !after.value.status.Error?
      && (after == before || after.value == before.value.(error := after.value.error)
          || exists i :: WroteScan(DoAll(Opened(initial), es), e, i, after.value))
  {
    RefreshesAreSerial(initial, es, timezone);
    var w := DoAll(Opened(initial), es);
    hide Replay, DoAll, Inv, Entry, Do;
    if Writes(w, e) {
      var r := w.refreshers[e.task];
      WriteChangesOneEntry(w, e, initial, timezone, agent);
      if r.todo[0] == agent && !r.phase.scan.status.Error? {
        assert WroteScan(w, e, e.task, r.phase.scan);
      }
    } else {
      OnlyWritesChangeTheFile(w, e);
    }
  }

  /** The event stored a scan of its agent that did not fail. */
  ghost predicate WroteScan(w: World, e: Event, i: nat, scan: Snapshot) {
    Writes(w, e) && e.task == i && w.refreshers[i].phase.scan == scan && !scan.status.Error?
  }

  // ---------------------------------------------------------------- no scan without need

  /** What a refresher goes by from its scan to its write was not fresh when it looked. */
  ghost predicate GoesByOldSnapshot(r: Refresher) {
    match r.phase
    case Scanning(existing) => !RecentlyRefreshed(existing, r.now)
    case Scanned(existing, _) => !RecentlyRefreshed(existing, r.now)
    case FileLocked(existing, _) => !RecentlyRefreshed(existing, r.now)
    case HasLatest(existing, _, _) => !RecentlyRefreshed(existing, r.now)
    case _ => true
  }

  ghost predicate OldSnapshotsOnly(w: World) {
    forall k | 0 <= k < |w.refreshers| :: GoesByOldSnapshot(w.refreshers[k])
  }

  lemma EventKeepsOldSnapshots(w: World, e: Event)
    requires OldSnapshotsOnly(w)
    ensures OldSnapshotsOnly(Do(w, e))
  {
    hide RecentlyRefreshed, Blocked;
  }

  ghost predicate Needed(initial: Option<Cache>, log: seq<Refresh>, k: nat)
    requires k < |log|
  {
    !IsFresh(Replay(initial, log[..k]), log[k].timezone, log[k].now, log[k].agent)
  }

  lemma EventLogsNeeded(w: World, e: Event, initial: Option<Cache>, timezone: string)
    requires Inv(w, initial, timezone) && OldSnapshotsOnly(w)
    requires forall k: nat | k < |w.log| :: Needed(initial, w.log, k)
    ensures var log := Do(w, e).log; forall k: nat | k < |log| :: Needed(initial, log, k)
  {
    var log := Do(w, e).log;
    LogGrows(w, e);
    forall k: nat | k < |log| ensures Needed(initial, log, k) {
      if k < |w.log| {
        assert log[..k] == w.log[..k] && log[k] == w.log[k];
        assert Needed(initial, w.log, k);
      } else {
        var r := w.refreshers[e.task];
        assert ReadsAreCurrent(w.disk, r) && GoesByOldSnapshot(r) && log[..k] == w.log;
        RefreshIs(w.disk, timezone, r.now, r.todo[0], r.phase.scan);
      }
    }
  }

  lemma LogGrows(w: World, e: Event)
    ensures var log := Do(w, e).log;
      if Writes(w, e) then
        var r := w.refreshers[e.task];
        log == w.log + [Refresh(r.timezone, r.now, r.todo[0], r.phase.scan)]
      else log == w.log
  {
  }

  /** In one timezone no run scans and writes an agent whose snapshot was fresh at that moment. */
  lemma {:induction false} RefreshesAreNeeded(initial: Option<Cache>, es: seq<Event>, timezone: string)
    requires (initial.Some? ==> initial.value.timezone == timezone) && OneZone(es, timezone)
    ensures var w := DoAll(Opened(initial), es);
      OldSnapshotsOnly(w) && forall k: nat | k < |w.log| :: Needed(initial, w.log, k)
  {
    if es != [] {
      var n := |es| - 1;
      RefreshesAreNeeded(initial, es[..n], timezone);
      RefreshesAreSerial(initial, es[..n], timezone);
      var w := DoAll(Opened(initial), es[..n]);
      hide Inv, Do, OldSnapshotsOnly, Needed;
      EventKeepsOldSnapshots(w, es[n]);
      EventLogsNeeded(w, es[n], initial, timezone);
    }
  }
}
