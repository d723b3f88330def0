/** The read-modify-write store of src/state/store.ts, run by any number of processes under the
    directory lock. The stored content and its mutators are parameters; the store adds the
    revision, the operation ledger and the order in which concurrent calls take effect. */
module SerialStore {
  import opened Wrappers
  import L = DirectoryLock

  const OPERATION_LEDGER_LIMIT: nat := 50

  datatype OpRecord = OpRecord(opId: string, revision: nat)

  datatype Stored<+S> = Stored(content: S, revision: nat, ledger: seq<OpRecord>)

  /** What a mutator does: hand back the very object it was given, build a new one, or throw. */
  datatype Mutation<+S> = Same | Changed(content: S) | Throws

  /** How operations act on a content. `replace` is absent when the replacement throws; a
      replacement starts with an empty ledger. */
  datatype Machine<!O, !S> = Machine(
    mutate: (O, S) -> Mutation<S>,
    replace: (O, Option<S>) -> Option<S>,
    closed: S -> bool,
    normalize: S -> S)

  datatype Request<+O> =
    | Update(op: O, opId: Option<string>, expectedRevision: Option<nat>, skipUnchanged: bool)
    | Replace(op: O)

  datatype Outcome<+S> =
    | Kept(state: Stored<S>)
    | Committed(state: Stored<S>, archived: Option<S>)
    | Conflict
    | Missing
    | Thrown

  /** An empty operation id counts as none. */
  predicate HasOpId(opId: Option<string>) {
    opId.Some? && opId.value != ""
  }

  predicate Remembers(ledger: seq<OpRecord>, opId: string) {
    exists k | 0 <= k < |ledger| :: ledger[k].opId == opId
  }

  /** The last `n` elements of `s`, or all of them when there are fewer. */
  function LastN<T>(s: seq<T>, n: nat): seq<T> {
    if |s| <= n then s else s[|s| - n..]
  }

  function Commit<S>(current: Stored<S>, content: S, opId: Option<string>): Stored<S> {
    var revision := current.revision + 1;
    Stored(content, revision,
           if HasOpId(opId) then LastN(current.ledger + [OpRecord(opId.value, revision)], OPERATION_LEDGER_LIMIT)
           else current.ledger)
  }

  /** What one call does to the stored state it reads. */
  function Apply<O, S>(m: Machine<O, S>, disk: Option<Stored<S>>, request: Request<O>): Outcome<S> {
    match request
    case Update(op, opId, expectedRevision, skipUnchanged) => (
      if disk.None? then Missing
      else
        var current := disk.value;
        if HasOpId(opId) && Remembers(current.ledger, opId.value) then Kept(current)
        else if expectedRevision.Some? && expectedRevision.value != current.revision then Conflict
        else
          match m.mutate(op, current.content)
          case Throws => Thrown
          case Same =>
            if skipUnchanged && !HasOpId(opId) then Kept(current)
            else Committed(Commit(current, current.content, opId), None)
          case Changed(content) => Committed(Commit(current, content, opId), None)
    )
    case Replace(op) =>
      match disk
      case None => (
        match m.replace(op, None)
        case None => Thrown
        case Some(content) => Committed(Stored(content, 0, []), None)
      )
      case Some(current) =>
        match m.replace(op, Some(current.content))
        case None => Thrown
        case Some(content) =>
          if !m.closed(m.normalize(current.content)) then Thrown
          else Committed(Stored(content, current.revision + 1, []), Some(m.normalize(current.content)))
  }

  function After<S>(disk: Option<Stored<S>>, outcome: Outcome<S>): Option<Stored<S>> {
    if outcome.Committed? then Some(outcome.state) else disk
  }

  /** The store after the requests `rs`, one at a time and in order. */
  function Replay<O, S>(m: Machine<O, S>, disk: Option<Stored<S>>, rs: seq<Request<O>>): Option<Stored<S>> {
    if rs == [] then disk
    else
      var n := |rs| - 1;
      var before := Replay(m, disk, rs[..n]);
      After(before, Apply(m, before, rs[n]))
  }

  /** The state file as one process sees it while it holds the lock. */
  class StateFile<O, S> {
    var file: Option<Stored<S>>

    constructor (initial: Option<Stored<S>>)
      ensures file == initial
    {
      file := initial;
    }

    /** `updateState` and `replaceState` between taking and giving back the lock. */
    method Perform(m: Machine<O, S>, request: Request<O>) returns (outcome: Outcome<S>)
      modifies this
      ensures outcome == Apply(m, old(file), request)
      ensures file == After(old(file), outcome)
      ensures request.Update? ==> UpdateExplained(m, old(file), request, outcome, file)
      ensures request.Replace? ==> ReplacementExplained(m, old(file), request, outcome, file)
    {
      OutcomesAreExplained(m, file, request);
      hide UpdateExplained, ReplacementExplained;
      match request {
        case Update(op, opId, expectedRevision, skipUnchanged) =>
          if file.None? {
            return Missing;
          }
          var current := file.value;
          if HasOpId(opId) {
            var found := FindOperation(current.ledger, opId.value);
            if found {
              return Kept(current);
            }
          }
          if expectedRevision.Some? && expectedRevision.value != current.revision {
            return Conflict;
          }
          var mutated := m.mutate(op, current.content);
          if mutated.Throws? {
            return Thrown;
          }
          if mutated.Same? && skipUnchanged && !HasOpId(opId) {
            return Kept(current);
          }
          var next := Commit(current, if mutated.Same? then current.content else mutated.content, opId);
          file := Some(next);
          outcome := Committed(next, None);
        case Replace(op) =>
          var proposed := m.replace(op, if file.None? then None else Some(file.value.content));
          if proposed.None? {
            return Thrown;
          }
          var archived: Option<S> := None;
          var revision := 0;
          if file.Some? {
            archived := Some(m.normalize(file.value.content));
            if !m.closed(archived.value) {
              return Thrown;
            }
            revision := file.value.revision + 1;
          }
          var next := Stored(proposed.value, revision, []);
          file := Some(next);
          outcome := Committed(next, archived);
      }
    }
  }

  /** `recentOperations.some(...)` */
  method FindOperation(ledger: seq<OpRecord>, opId: string) returns (found: bool)
    ensures found <==> Remembers(ledger, opId)
  {
    for k := 0 to |ledger|
      invariant forall j | 0 <= j < k :: ledger[j].opId != opId
    {
      if ledger[k].opId == opId {
        return true;
      }
    }
    return false;
  }

  // ---------------------------------------------------------------- why a call ends as it does

  /** The call's operation id is one that the ledger knows. */
  ghost predicate Known<O, S>(current: Stored<S>, request: Request<O>)
    requires request.Update?
  {
    HasOpId(request.opId) && exists k | 0 <= k < |current.ledger| :: current.ledger[k].opId == request.opId.value
  }

  /** The caller expected another revision. */
  ghost predicate Outdated<O, S>(current: Stored<S>, request: Request<O>)
    requires request.Update?
  {
    request.expectedRevision.Some? && request.expectedRevision.value != current.revision
  }

  /** The mutator handed its argument back, and the caller wants no commit for that. */
  ghost predicate Unneeded<O, S>(m: Machine<O, S>, current: Stored<S>, request: Request<O>)
    requires request.Update?
  {
    request.skipUnchanged && !HasOpId(request.opId) && m.mutate(request.op, current.content).Same?
  }

  /** What was committed is what the mutator made, recorded under the caller's id. */
  ghost predicate CommitsMutation<O, S>(m: Machine<O, S>, current: Stored<S>, request: Request<O>, after: Stored<S>)
    requires request.Update?
  {
    var mutation := m.mutate(request.op, current.content);
    && !mutation.Throws?
    && (mutation.Changed? ==> after.content == mutation.content)
    && (mutation.Same? ==> after.content == current.content)
    && after.revision == current.revision + 1
    && (!HasOpId(request.opId) ==> after.ledger == current.ledger)
    && (HasOpId(request.opId) ==>
          && after.ledger != [] && after.ledger[|after.ledger| - 1] == OpRecord(request.opId.value, current.revision + 1)
          && |after.ledger| <= |current.ledger| + 1
          && after.ledger[..|after.ledger| - 1] == current.ledger[|current.ledger| + 1 - |after.ledger|..]
          && (|current.ledger| < OPERATION_LEDGER_LIMIT ==> |after.ledger| == |current.ledger| + 1))
  }

  /** Each outcome of an update has exactly one cause, and only a commit touches the file. */
  ghost predicate UpdateExplained<O, S>(
    m: Machine<O, S>, before: Option<Stored<S>>, request: Request<O>, outcome: Outcome<S>, after: Option<Stored<S>>)
    requires request.Update?
  {
    && (outcome.Missing? <==> before.None?)
    && (!outcome.Committed? ==> after == before)
    && (before.Some? ==>
          var current := before.value;
          && (outcome.Conflict? <==> !Known(current, request) && Outdated(current, request))
          && (outcome.Thrown? <==>
                !Known(current, request) && !Outdated(current, request) && m.mutate(request.op, current.content).Throws?)
          && (outcome.Kept? <==>
                Known(current, request) || (!Outdated(current, request) && Unneeded(m, current, request)))
          && (outcome.Kept? ==> outcome.state == current)
          && (outcome.Committed? ==>
                outcome.archived.None? && after == Some(outcome.state) && CommitsMutation(m, current, request, outcome.state)))
  }

  /** A replacement goes through exactly when it is made and the task before it, if any, is closed;
      then that task is archived and the new one starts without records. */
  ghost predicate ReplacementExplained<O, S>(
    m: Machine<O, S>, before: Option<Stored<S>>, request: Request<O>, outcome: Outcome<S>, after: Option<Stored<S>>)
    requires request.Replace?
  {
    var content := m.replace(request.op, if before.None? then None else Some(before.value.content));
    && (outcome.Committed? <==> content.Some? && (before.Some? ==> m.closed(m.normalize(before.value.content))))
    && (!outcome.Committed? ==> outcome.Thrown? && after == before)
    && (outcome.Committed? ==>
          && after == Some(outcome.state) && outcome.state.content == content.value && outcome.state.ledger == []
          && (before.None? ==> outcome.state.revision == 0 && outcome.archived.None?)
          && (before.Some? ==>
                && outcome.state.revision == before.value.revision + 1
                && outcome.archived == Some(m.normalize(before.value.content))))
  }

  lemma CommitRecords<S>(current: Stored<S>, content: S, opId: Option<string>)
    requires HasOpId(opId)
    ensures var after := Commit(current, content, opId);
      && after.ledger != [] && after.ledger[|after.ledger| - 1] == OpRecord(opId.value, current.revision + 1)
      && |after.ledger| <= |current.ledger| + 1
      && after.ledger[..|after.ledger| - 1] == current.ledger[|current.ledger| + 1 - |after.ledger|..]
      && (|current.ledger| < OPERATION_LEDGER_LIMIT ==> |after.ledger| == |current.ledger| + 1)
  {
  }

  lemma CommitIsMutation<O, S>(m: Machine<O, S>, current: Stored<S>, request: Request<O>)
    requires request.Update?
    ensures var mutation := m.mutate(request.op, current.content);
      && (mutation.Same? ==> CommitsMutation(m, current, request, Commit(current, current.content, request.opId)))
      && (mutation.Changed? ==> CommitsMutation(m, current, request, Commit(current, mutation.content, request.opId)))
  {
    var mutation := m.mutate(request.op, current.content);
    if HasOpId(request.opId) && !mutation.Throws? {
      CommitRecords(current, if mutation.Same? then current.content else mutation.content, request.opId);
    }
    hide LastN, HasOpId;
  }

  lemma OutcomesAreExplained<O, S>(m: Machine<O, S>, disk: Option<Stored<S>>, request: Request<O>)
    ensures var outcome := Apply(m, disk, request);
      && (request.Update? ==> UpdateExplained(m, disk, request, outcome, After(disk, outcome)))
      && (request.Replace? ==> ReplacementExplained(m, disk, request, outcome, After(disk, outcome)))
  {
    hide LastN, HasOpId, Commit, CommitsMutation;
    if request.Update? && disk.Some? {
      CommitIsMutation(m, disk.value, request);
    }
  }

  // ---------------------------------------------------------------- revisions and the ledger

  /** Revisions strictly rise along the records and stay within `bound`. */
  ghost predicate Rising(records: seq<OpRecord>, bound: nat) {
    && (forall j, k | 0 <= j < k < |records| :: records[j].revision < records[k].revision)
    && (forall k | 0 <= k < |records| :: records[k].revision <= bound)
  }

  /** Ledger entries are few, strictly ordered by revision and never newer than the state. */
  ghost predicate LedgerOk<S>(state: Stored<S>) {
    |state.ledger| <= OPERATION_LEDGER_LIMIT && Rising(state.ledger, state.revision)
  }

  ghost predicate DiskOk<S>(disk: Option<Stored<S>>) {
    disk.Some? ==> LedgerOk(disk.value)
  }

  lemma RisingAppend(records: seq<OpRecord>, bound: nat, record: OpRecord)
    requires Rising(records, bound) && record.revision == bound + 1
    ensures Rising(records + [record], bound + 1)
  {
  }

  lemma RisingWithin(records: seq<OpRecord>, bound: nat, wider: nat)
    requires Rising(records, bound) && bound <= wider
    ensures Rising(records, wider)
  {
  }

  lemma RisingSuffix(records: seq<OpRecord>, bound: nat, n: nat)
    requires Rising(records, bound)
    ensures Rising(LastN(records, n), bound)
  {
  }

  lemma CommitKeepsLedger<S>(current: Stored<S>, content: S, opId: Option<string>)
    requires LedgerOk(current)
    ensures LedgerOk(Commit(current, content, opId))
  {
    if HasOpId(opId) {
      var record := OpRecord(opId.value, current.revision + 1);
      RisingAppend(current.ledger, current.revision, record);
      RisingSuffix(current.ledger + [record], current.revision + 1, OPERATION_LEDGER_LIMIT);
      hide Rising;
    }
  }

  /** Every commit raises the revision by exactly one, a replacement of the task included, and
      a first state has revision zero; nothing else moves it. */
  lemma EachCommitRaisesRevisionByOne<O, S>(m: Machine<O, S>, disk: Option<Stored<S>>, request: Request<O>)
    requires DiskOk(disk)
    ensures var outcome := Apply(m, disk, request);
      && DiskOk(After(disk, outcome))
      && (outcome.Committed? ==> outcome.state.revision == if disk.Some? then disk.value.revision + 1 else 0)
      && (!outcome.Committed? ==> After(disk, outcome) == disk)
  {
    hide LedgerOk, Remembers;
    var outcome := Apply(m, disk, request);
    if outcome.Committed? {
      if request.Update? {
        CommitKeepsLedger(disk.value, outcome.state.content, request.opId);
      } else {
        FreshLedgerOk(outcome.state);
      }
    }
  }

  lemma FreshLedgerOk<S>(state: Stored<S>)
    requires state.ledger == []
    ensures LedgerOk(state)
  {
  }

  function Commits<O, S>(m: Machine<O, S>, disk: Option<Stored<S>>, rs: seq<Request<O>>): nat {
    if rs == [] then 0
    else
      var n := |rs| - 1;
      Commits(m, disk, rs[..n]) + (if Apply(m, Replay(m, disk, rs[..n]), rs[n]).Committed? then 1 else 0)
  }

  /** The revision counts the commits, across every task the repository has had. */
  lemma {:induction false} RevisionCountsCommits<O, S>(m: Machine<O, S>, disk: Option<Stored<S>>, rs: seq<Request<O>>)
    requires DiskOk(disk)
    ensures var last := Replay(m, disk, rs);
      && DiskOk(last)
      && (disk.Some? ==> last.Some? && last.value.revision == disk.value.revision + Commits(m, disk, rs))
      && (disk.None? ==> (last.None? <==> Commits(m, disk, rs) == 0))
      && (disk.None? && last.Some? ==> last.value.revision == Commits(m, disk, rs) - 1)
  {
    if rs != [] {
      var n := |rs| - 1;
      RevisionCountsCommits(m, disk, rs[..n]);
      EachCommitRaisesRevisionByOne(m, Replay(m, disk, rs[..n]), rs[n]);
    }
  }

  /** A repeated operation that the ledger still remembers changes nothing. */
  lemma RememberedOperationIsKept<O, S>(m: Machine<O, S>, current: Stored<S>, request: Request<O>)
    requires request.Update? && HasOpId(request.opId) && Remembers(current.ledger, request.opId.value)
    ensures Apply(m, Some(current), request) == Kept(current)
    ensures After(Some(current), Apply(m, Some(current), request)) == Some(current)
  {
  }

  /** The records a list of updates adds, oldest first, if none were ever dropped. */
  function Recorded<O, S>(m: Machine<O, S>, disk: Option<Stored<S>>, rs: seq<Request<O>>): seq<OpRecord> {
    if rs == [] then []
    else
      var n := |rs| - 1;
      var outcome := Apply(m, Replay(m, disk, rs[..n]), rs[n]);
      Recorded(m, disk, rs[..n])
        + (if rs[n].Update? && HasOpId(rs[n].opId) && outcome.Committed?
           then [OpRecord(rs[n].opId.value, outcome.state.revision)] else [])
  }

  lemma LastNOfLastN<T>(s: seq<T>, x: T, n: nat)
    ensures LastN(LastN(s, n) + [x], n) == LastN(s + [x], n)
  {
  }

  /** The ledger is a window: the last fifty records of the task, whatever was appended when. */
  lemma {:induction false} LedgerIsAWindow<O, S>(m: Machine<O, S>, current: Stored<S>, rs: seq<Request<O>>)
    requires LedgerOk(current)
    requires forall k | 0 <= k < |rs| :: rs[k].Update?
    ensures var last := Replay(m, Some(current), rs);
      last.Some? && last.value.ledger == LastN(current.ledger + Recorded(m, Some(current), rs), OPERATION_LEDGER_LIMIT)
  {
    if rs == [] {
      assert current.ledger + [] == current.ledger;
    } else {
      var n := |rs| - 1;
      LedgerIsAWindow(m, current, rs[..n]);
      var before := Replay(m, Some(current), rs[..n]);
      var all := current.ledger + Recorded(m, Some(current), rs[..n]);
      var outcome := Apply(m, before, rs[n]);
      if HasOpId(rs[n].opId) && outcome.Committed? {
        var record := OpRecord(rs[n].opId.value, outcome.state.revision);
        LastNOfLastN(all, record, OPERATION_LEDGER_LIMIT);
        assert all + [record] == current.ledger + Recorded(m, Some(current), rs);
      } else {
        assert Recorded(m, Some(current), rs) == Recorded(m, Some(current), rs[..n]);
      }
    }
  }

  /** One more update either commits, one revision later, or leaves things as they were. */
  lemma OneMoreUpdate<O, S>(m: Machine<O, S>, current: Stored<S>, rs: seq<Request<O>>)
    requires rs != [] && rs[|rs| - 1].Update? && Replay(m, Some(current), rs[..|rs| - 1]).Some?
    ensures var request := rs[|rs| - 1];
      var before := Replay(m, Some(current), rs[..|rs| - 1]);
      var last := Replay(m, Some(current), rs);
      var earlier := Recorded(m, Some(current), rs[..|rs| - 1]);
      var all := Recorded(m, Some(current), rs);
      && last.Some? && before.value.revision <= last.value.revision
      && (all == earlier
          || (HasOpId(request.opId) && last.value.revision == before.value.revision + 1
              && all == earlier + [OpRecord(request.opId.GetOr(""), before.value.revision + 1)]))
  {
    hide Remembers, LastN;
  }

  lemma NothingRecorded<O, S>(m: Machine<O, S>, current: Stored<S>, rs: seq<Request<O>>)
    requires LedgerOk(current) && rs == []
    ensures Replay(m, Some(current), rs) == Some(current)
    ensures Rising(current.ledger + Recorded(m, Some(current), rs), current.revision)
  {
    assert current.ledger + [] == current.ledger;
  }

  lemma RisingStep(ledger: seq<OpRecord>, earlier: seq<OpRecord>, all: seq<OpRecord>, record: OpRecord, bound: nat, bound': nat)
    requires Rising(ledger + earlier, bound) && bound <= bound'
    requires all == earlier || (all == earlier + [record] && record.revision == bound' == bound + 1)
    ensures Rising(ledger + all, bound')
  {
    if all == earlier {
      RisingWithin(ledger + earlier, bound, bound');
    } else {
      RisingAppend(ledger + earlier, bound, record);
      assert ledger + earlier + [record] == ledger + all;
    }
  }

  /** Records added later carry strictly later revisions. */
  lemma {:induction false} RecordsComeLater<O, S>(m: Machine<O, S>, current: Stored<S>, rs: seq<Request<O>>)
    requires LedgerOk(current)
    requires forall k | 0 <= k < |rs| :: rs[k].Update?
    ensures Replay(m, Some(current), rs).Some?
    ensures Rising(current.ledger + Recorded(m, Some(current), rs), Replay(m, Some(current), rs).value.revision)
  {
    hide *;
    if rs == [] {
      NothingRecorded(m, current, rs);
    } else {
      var n := |rs| - 1;
      RecordsComeLater(m, current, rs[..n]);
      OneMoreUpdate(m, current, rs);
      var before := Replay(m, Some(current), rs[..n]).value;
      RisingStep(current.ledger, Recorded(m, Some(current), rs[..n]), Recorded(m, Some(current), rs),
                 OpRecord(rs[n].opId.GetOr(""), before.revision + 1), before.revision,
                 Replay(m, Some(current), rs).value.revision);
    }
  }

  lemma WindowMembership(all: seq<OpRecord>, bound: nat, k: nat)
    requires Rising(all, bound) && k < |all|
    ensures all[k] in LastN(all, OPERATION_LEDGER_LIMIT) <==> |all| - 1 - k < OPERATION_LEDGER_LIMIT
  {
    var kept := LastN(all, OPERATION_LEDGER_LIMIT);
    var dropped := |all| - |kept|;
    if k >= dropped {
      assert kept[k - dropped] == all[k];
    } else {
      forall j | 0 <= j < |kept| ensures kept[j] != all[k] {
        assert kept[j] == all[j + dropped];
        assert all[k].revision < all[j + dropped].revision;
      }
    }
  }

  /** A record is forgotten exactly when fifty later ones have been added behind it. */
  lemma RememberedUntilFiftyLater<O, S>(m: Machine<O, S>, current: Stored<S>, k: nat, rs: seq<Request<O>>)
    requires LedgerOk(current) && k < |current.ledger|
    requires forall j | 0 <= j < |rs| :: rs[j].Update?
    ensures Replay(m, Some(current), rs).Some?
    ensures current.ledger[k] in Replay(m, Some(current), rs).value.ledger
      <==> |current.ledger| - 1 - k + |Recorded(m, Some(current), rs)| < OPERATION_LEDGER_LIMIT
  {
    LedgerIsAWindow(m, current, rs);
    RecordsComeLater(m, current, rs);
    var all := current.ledger + Recorded(m, Some(current), rs);
    assert all[k] == current.ledger[k];
    WindowMembership(all, Replay(m, Some(current), rs).value.revision, k);
  }

  lemma LastOfLongTail(head: seq<OpRecord>, tail: seq<OpRecord>, n: nat)
    ensures |tail| >= n ==> LastN(head + tail, n) == LastN(tail, n)
  {
  }

  /** An operation that was committed is answered from the ledger, whatever updates came since, as
      long as fewer than fifty of them were recorded; after that, exactly when it is among the last
      fifty recorded again. Answering from the ledger changes nothing. */
  lemma CommittedOperationIsKept<O, S>(
    m: Machine<O, S>, current: Stored<S>, request: Request<O>, rs: seq<Request<O>>, repeat: Request<O>)
    requires LedgerOk(current) && request.Update? && HasOpId(request.opId)
    requires Apply(m, Some(current), request).Committed?
    requires forall k | 0 <= k < |rs| :: rs[k].Update?
    requires repeat.Update? && repeat.opId == request.opId
    ensures var state := Apply(m, Some(current), request).state;
      var late := Replay(m, Some(state), rs);
      var recorded := Recorded(m, Some(state), rs);
      && late.Some?
      && (Remembers(late.value.ledger, request.opId.value)
          <==> |recorded| < OPERATION_LEDGER_LIMIT || Remembers(LastN(recorded, OPERATION_LEDGER_LIMIT), request.opId.value))
      && (|recorded| < OPERATION_LEDGER_LIMIT ==> Apply(m, late, repeat) == Kept(late.value))
  {
    var state := Apply(m, Some(current), request).state;
    EachCommitRaisesRevisionByOne(m, Some(current), request);
    var k := |state.ledger| - 1;
    assert state.ledger[k].opId == request.opId.value;
    RememberedUntilFiftyLater(m, state, k, rs);
    LedgerIsAWindow(m, state, rs);
    hide Replay, Recorded, LedgerOk;
    LastOfLongTail(state.ledger, Recorded(m, Some(state), rs), OPERATION_LEDGER_LIMIT);
    var late := Replay(m, Some(state), rs).value;
    if |Recorded(m, Some(state), rs)| < OPERATION_LEDGER_LIMIT {
      var q :| 0 <= q < |late.ledger| && late.ledger[q] == state.ledger[k];
      RememberedOperationIsKept(m, late, repeat);
    }
  }

  /** What the ledger knows has been done: behind each record that was not there at the start is a
      request of that id whose mutator did not throw and whose result was committed. */
  ghost predicate Performed<O, S>(m: Machine<O, S>, disk: Option<Stored<S>>, rs: seq<Request<O>>, k: nat, opId: string)
    requires k < |rs|
  {
    var before := Replay(m, disk, rs[..k]);
    var after := Replay(m, disk, rs[..k + 1]);
    && rs[k].Update? && rs[k].opId == Some(opId)
    && before.Some? && after.Some? && CommitsMutation(m, before.value, rs[k], after.value)
  }

  lemma PerformedStays<O, S>(m: Machine<O, S>, disk: Option<Stored<S>>, rs: seq<Request<O>>, k: nat, opId: string)
    requires k < |rs| - 1
    ensures Performed(m, disk, rs[..|rs| - 1], k, opId) == Performed(m, disk, rs, k, opId)
  {
    var n := |rs| - 1;
    assert rs[..n][..k] == rs[..k] && rs[..n][..k + 1] == rs[..k + 1] && rs[..n][k] == rs[k];
    hide CommitsMutation, Replay;
  }

  lemma OneMoreRequest<O, S>(m: Machine<O, S>, disk: Option<Stored<S>>, rs: seq<Request<O>>)
    requires rs != []
    ensures var n := |rs| - 1;
      Replay(m, disk, rs) == After(Replay(m, disk, rs[..n]), Apply(m, Replay(m, disk, rs[..n]), rs[n]))
  {
  }

  /** A record in the ledger after one more request was there before, or the request is done. */
  lemma NewRecordIsDone<O, S>(m: Machine<O, S>, disk: Option<Stored<S>>, rs: seq<Request<O>>, opId: string)
    requires rs != []
    requires var last := Replay(m, disk, rs); last.Some? && Remembers(last.value.ledger, opId)
    ensures var n := |rs| - 1;
      var before := Replay(m, disk, rs[..n]);
      (before.Some? && Remembers(before.value.ledger, opId)) || Performed(m, disk, rs, n, opId)
  {
    var n := |rs| - 1;
    var before := Replay(m, disk, rs[..n]);
    OneMoreRequest(m, disk, rs);
    OutcomesAreExplained(m, before, rs[n]);
    assert rs[..n + 1] == rs;
    var last := Replay(m, disk, rs).value;
    hide Replay, Apply, LastN;
    var k :| 0 <= k < |last.ledger| && last.ledger[k].opId == opId;
    if Apply(m, before, rs[n]).Committed? && rs[n].Update? && HasOpId(rs[n].opId) && k < |last.ledger| - 1 {
      assert last.ledger[..|last.ledger| - 1][k] == last.ledger[k];
      assert before.value.ledger[k + |before.value.ledger| + 1 - |last.ledger|].opId == opId;
    }
  }

  lemma {:induction false} RecordedMeansDone<O, S>(
    m: Machine<O, S>, disk: Option<Stored<S>>, rs: seq<Request<O>>, opId: string)
    requires disk.Some? ==> !Remembers(disk.value.ledger, opId)
    requires var last := Replay(m, disk, rs); last.Some? && Remembers(last.value.ledger, opId)
    ensures exists k: nat | k < |rs| :: Performed(m, disk, rs, k, opId)
  {
    hide Remembers, CommitsMutation, Apply, Performed;
    if rs != [] {
      var n := |rs| - 1;
      NewRecordIsDone(m, disk, rs, opId);
      if !Performed(m, disk, rs, n, opId) {
        RecordedMeansDone(m, disk, rs[..n], opId);
        var k: nat :| k < n && Performed(m, disk, rs[..n], k, opId);
        PerformedStays(m, disk, rs, k, opId);
      }
    }
  }

  /** The mutator of request `k` throws when its turn comes. */
  ghost predicate Throwing<O, S>(m: Machine<O, S>, disk: Option<Stored<S>>, rs: seq<Request<O>>, k: nat)
    requires k < |rs| && rs[k].Update?
  {
    var before := Replay(m, disk, rs[..k]);
    before.Some? ==> m.mutate(rs[k].op, before.value.content).Throws?
  }

  lemma RecordsNeedSuccess<O, S>(m: Machine<O, S>, disk: Option<Stored<S>>, rs: seq<Request<O>>, opId: string)
    requires disk.Some? ==> !Remembers(disk.value.ledger, opId)
    requires var last := Replay(m, disk, rs); last.Some? && Remembers(last.value.ledger, opId)
    ensures exists k: nat | k < |rs| && rs[k].Update? && rs[k].opId == Some(opId) :: !Throwing(m, disk, rs, k)
  {
    RecordedMeansDone(m, disk, rs, opId);
    hide Replay, Remembers;
    var k: nat :| k < |rs| && Performed(m, disk, rs, k, opId);
    assert !Throwing(m, disk, rs, k);
  }

  /** So as long as every call under an id has thrown, nothing of it is on record, and a retry takes
      effect as soon as its mutator has something to commit. */
  lemma RetryAfterThrowsTakesEffect<O, S>(
    m: Machine<O, S>, disk: Option<Stored<S>>, rs: seq<Request<O>>, retry: Request<O>)
    requires retry.Update? && HasOpId(retry.opId) && retry.expectedRevision.None?
    requires disk.Some? ==> !Remembers(disk.value.ledger, retry.opId.value)
    requires forall k: nat | k < |rs| && rs[k].Update? && rs[k].opId == retry.opId :: Throwing(m, disk, rs, k)
    requires Replay(m, disk, rs).Some?
    ensures var last := Replay(m, disk, rs);
      m.mutate(retry.op, last.value.content).Changed? ==>
        var outcome := Apply(m, last, retry);
        outcome.Committed? && outcome.state.content == m.mutate(retry.op, last.value.content).content
  {
    var last := Replay(m, disk, rs);
    hide Throwing, Replay, Apply;
    if Remembers(last.value.ledger, retry.opId.value) {
      RecordsNeedSuccess(m, disk, rs, retry.opId.value);
      assert false;
    }
    OutcomesAreExplained(m, last, retry);
  }

  lemma ReplayOneMore<O, S>(m: Machine<O, S>, disk: Option<Stored<S>>, rs: seq<Request<O>>, request: Request<O>)
    ensures Replay(m, disk, rs + [request]) == After(Replay(m, disk, rs), Apply(m, Replay(m, disk, rs), request))
  {
    assert (rs + [request])[..|rs|] == rs;
    hide Apply;
  }

  lemma {:induction false} ReplayAppends<O, S>(
    m: Machine<O, S>, disk: Option<Stored<S>>, rs: seq<Request<O>>, more: seq<Request<O>>)
    ensures Replay(m, disk, rs + more) == Replay(m, Replay(m, disk, rs), more)
  {
    if more == [] {
      assert rs + more == rs;
    } else {
      var n := |more| - 1;
      hide Replay, Apply;
      ReplayAppends(m, disk, rs, more[..n]);
      ReplayOneMore(m, disk, rs + more[..n], more[n]);
      ReplayOneMore(m, Replay(m, disk, rs), more[..n], more[n]);
      assert rs + more[..n] + [more[n]] == rs + more && more[..n] + [more[n]] == more;
    }
  }

  /** A call that committed nothing might as well not have been made. */
  lemma UncommittedCallsLeaveNoTrace<O, S>(m: Machine<O, S>, disk: Option<Stored<S>>, rs: seq<Request<O>>, k: nat)
    requires k < |rs| && !Apply(m, Replay(m, disk, rs[..k]), rs[k]).Committed?
    ensures Replay(m, disk, rs[..k] + rs[k + 1..]) == Replay(m, disk, rs)
  {
    hide Apply, Replay;
    ReplayOneMore(m, disk, rs[..k], rs[k]);
    ReplayAppends(m, disk, rs[..k] + [rs[k]], rs[k + 1..]);
    ReplayAppends(m, disk, rs[..k], rs[k + 1..]);
    assert rs[..k] + [rs[k]] + rs[k + 1..] == rs;
  }

  // ---------------------------------------------------------------- concurrent calls

  /** Where a call is inside the locked body: before its read, between its read and its write,
      or past them. */
  datatype Phase<+S> = Start | HasRead(seen: Option<Stored<S>>) | Done(outcome: Outcome<S>)

  datatype Call<+O, +S> = Call(request: Request<O>, phase: Phase<S>)

  datatype Entry<+O, +S> = Entry(task: nat, request: Request<O>, outcome: Outcome<S>)

  /** All calls ever made, the lock they contend for and the state file. `log` lists the calls
      that got through their body, in the order in which they took effect. */
  datatype World<+O, +S> = World(
    locks: L.State,
    disk: Option<Stored<S>>,
    calls: seq<Call<O, S>>,
    log: seq<Entry<O, S>>)

  datatype WorldEvent<+O> = Begin(place: L.Place, request: Request<O>) | Crash(place: L.Place) | Step(task: nat)

  function InitialWorld<O, S>(disk: Option<Stored<S>>): World<O, S> {
    World(L.Initial(), disk, [], [])
  }

  /** One step of a call: of the lock protocol outside the body, of the store inside it. */
  function StepCall<O, S>(m: Machine<O, S>, w: World<O, S>, i: nat): World<O, S>
    requires i < |w.locks.tasks| == |w.calls|
  {
    var call := w.calls[i];
    if !w.locks.tasks[i].pc.Body? || call.phase.Done? then
      w.(locks := L.Advance(false, w.locks, i))
    else
      match call.phase
      case Start => w.(calls := w.calls[i := call.(phase := HasRead(w.disk))])
      case HasRead(seen) =>
        var outcome := Apply(m, seen, call.request);
        w.(disk := if outcome.Committed? then Some(outcome.state) else w.disk,
           calls := w.calls[i := call.(phase := Done(outcome))],
           log := w.log + [Entry(i, call.request, outcome)])
  }

  function DoWorld<O, S>(m: Machine<O, S>, w: World<O, S>, e: WorldEvent<O>): World<O, S>
    requires |w.locks.tasks| == |w.calls|
    ensures var w' := DoWorld(m, w, e); |w'.locks.tasks| == |w'.calls|
  {
    match e
    case Begin(place, request) =>
      w.(locks := L.Spawned(w.locks, place, L.ACQUIRE_ATTEMPTS), calls := w.calls + [Call(request, Start)])
    case Crash(place) => w.(locks := L.Crashed(w.locks, place))
    case Step(i) => if i < |w.calls| then StepCall(m, w, i) else w
  }

  function RunWorld<O, S>(m: Machine<O, S>, w: World<O, S>, es: seq<WorldEvent<O>>): World<O, S>
    requires |w.locks.tasks| == |w.calls|
    ensures var w' := RunWorld(m, w, es); |w'.locks.tasks| == |w'.calls|
  {
    if es == [] then w
    else DoWorld(m, RunWorld(m, w, es[..|es| - 1]), es[|es| - 1])
  }

  function Requests<O, S>(log: seq<Entry<O, S>>): (rs: seq<Request<O>>)
    ensures |rs| == |log|
  {
    seq(|log|, k requires 0 <= k < |log| => log[k].request)
  }

  /** The log tells what serial execution in its order would have done. */
  ghost predicate Serial<O, S>(m: Machine<O, S>, initial: Option<Stored<S>>, log: seq<Entry<O, S>>) {
    forall k | 0 <= k < |log| ::
      log[k].outcome == Apply(m, Replay(m, initial, Requests(log)[..k]), log[k].request)
  }

  /** Each call takes effect at most once, and what it reports is what the log says. */
  ghost predicate Faithful<O, S>(w: World<O, S>) {
    && (forall k | 0 <= k < |w.log| ::
          && w.log[k].task < |w.calls|
          && w.calls[w.log[k].task] == Call(w.log[k].request, Done(w.log[k].outcome)))
    && (forall j, k | 0 <= j < k < |w.log| :: w.log[j].task != w.log[k].task)
    && (forall i | 0 <= i < |w.calls| && w.calls[i].phase.Done? ::
          exists k | 0 <= k < |w.log| :: w.log[k].task == i)
  }

  /** What a call has read is still on disk for as long as it is in the body. */
  ghost predicate ReadsAreCurrent<O, S>(w: World<O, S>)
    requires |w.locks.tasks| == |w.calls|
  {
    forall i | 0 <= i < |w.calls| && w.calls[i].phase.HasRead? ::
      && (w.locks.tasks[i].pc.Body? || w.locks.tasks[i].pc.Dead?)
      && (w.locks.tasks[i].pc.Body? ==> w.calls[i].phase.seen == w.disk)
  }

  ghost predicate WorldInv<O, S>(m: Machine<O, S>, initial: Option<Stored<S>>, w: World<O, S>) {
    && |w.locks.tasks| == |w.calls|
    && L.Inv(w.locks) && L.NoPendingDelete(w.locks)
    && ReadsAreCurrent(w)
    && Faithful(w)
    && Serial(m, initial, w.log)
    && w.disk == Replay(m, initial, Requests(w.log))
  }

  lemma LockStepKeepsReads<O, S>(w: World<O, S>, e: L.Event)
    requires |w.locks.tasks| == |w.calls| && ReadsAreCurrent(w)
    requires !e.Spawn?
    requires e.Run? ==> e.task < |w.calls| && (w.locks.tasks[e.task].pc.Body? ==> w.calls[e.task].phase.Done?)
    ensures var w' := w.(locks := L.Do(false, w.locks, e)); |w'.locks.tasks| == |w'.calls| && ReadsAreCurrent(w')
  {
    var t := L.Do(false, w.locks, e);
    forall i | 0 <= i < |w.calls| && w.calls[i].phase.HasRead?
      ensures t.tasks[i] == w.locks.tasks[i] || t.tasks[i].pc.Dead?
    {
    }
  }

  lemma LockStepKeepsWorldInv<O, S>(m: Machine<O, S>, initial: Option<Stored<S>>, w: World<O, S>, e: L.Event)
    requires WorldInv(m, initial, w)
    requires !e.Spawn?
    requires e.Run? ==> e.task < |w.calls| && (w.locks.tasks[e.task].pc.Body? ==> w.calls[e.task].phase.Done?)
    ensures WorldInv(m, initial, w.(locks := L.Do(false, w.locks, e)))
  {
    var t := L.Do(false, w.locks, e);
    assert L.Inv(t) by { L.DoKeepsInv(false, w.locks, e); }
    assert L.NoPendingDelete(t) by { L.AtomicStepLeavesNoPendingDelete(w.locks, e); }
    LockStepKeepsReads(w, e);
    assert Faithful(w.(locks := t));
  }

  /** Only the stepping call is in the body, so its write cannot outdate another call's read. */
  lemma StoreStepKeepsReads<O, S>(m: Machine<O, S>, w: World<O, S>, i: nat)
    requires |w.locks.tasks| == |w.calls| && ReadsAreCurrent(w) && L.MutuallyExclusive(w.locks)
    requires i < |w.calls| && w.locks.tasks[i].pc.Body? && !w.calls[i].phase.Done?
    ensures ReadsAreCurrent(StepCall(m, w, i))
  {
  }

  lemma LogStepStaysSerial<O, S>(m: Machine<O, S>, initial: Option<Stored<S>>, log: seq<Entry<O, S>>, entry: Entry<O, S>)
    requires Serial(m, initial, log)
    requires entry.outcome == Apply(m, Replay(m, initial, Requests(log)), entry.request)
    ensures Serial(m, initial, log + [entry])
    ensures Replay(m, initial, Requests(log + [entry])) == After(Replay(m, initial, Requests(log)), entry.outcome)
  {
    var log' := log + [entry];
    assert Requests(log')[..|log|] == Requests(log);
    assert Replay(m, initial, Requests(log')) == After(Replay(m, initial, Requests(log)), entry.outcome) by {
      hide Apply;
    }
    hide Replay, Apply;
    forall k | 0 <= k < |log'|
      ensures log'[k].outcome == Apply(m, Replay(m, initial, Requests(log')[..k]), log'[k].request)
    {
      if k < |log| {
        assert Requests(log')[..k] == Requests(log)[..k];
      }
    }
  }

  lemma StoreStepStaysFaithful<O, S>(m: Machine<O, S>, w: World<O, S>, i: nat)
    requires |w.locks.tasks| == |w.calls| && Faithful(w)
    requires i < |w.calls| && w.locks.tasks[i].pc.Body? && !w.calls[i].phase.Done?
    ensures Faithful(StepCall(m, w, i))
  {
    var w' := StepCall(m, w, i);
    if w.calls[i].phase.HasRead? {
      assert w'.log[|w.log|].task == i;
    }
    forall j | 0 <= j < |w'.calls| && w'.calls[j].phase.Done?
      ensures exists k | 0 <= k < |w'.log| :: w'.log[k].task == j
    {
      if j != i {
        var k :| 0 <= k < |w.log| && w.log[k].task == j;
        assert w'.log[k].task == j;
      }
    }
  }

  lemma StoreStepKeepsWorldInv<O, S>(m: Machine<O, S>, initial: Option<Stored<S>>, w: World<O, S>, i: nat)
    requires WorldInv(m, initial, w)
    requires i < |w.calls| && w.locks.tasks[i].pc.Body? && !w.calls[i].phase.Done?
    ensures WorldInv(m, initial, StepCall(m, w, i))
  {
    var w' := StepCall(m, w, i);
    assert w'.locks == w.locks;
    assert L.MutuallyExclusive(w.locks) by { L.InvExcludes(w.locks); }
    StoreStepKeepsReads(m, w, i);
    StoreStepStaysFaithful(m, w, i);
    if w.calls[i].phase.HasRead? {
      assert w.calls[i].phase.seen == w.disk;
      LogStepStaysSerial(m, initial, w.log, w'.log[|w.log|]);
    }
  }

  lemma BeginKeepsWorldInv<O, S>(
    m: Machine<O, S>, initial: Option<Stored<S>>, w: World<O, S>, place: L.Place, request: Request<O>)
    requires WorldInv(m, initial, w)
    ensures WorldInv(m, initial, DoWorld(m, w, Begin(place, request)))
  {
    hide L.Inv, Serial, Replay, Apply;
    L.SpawnKeepsInv(w.locks, place, L.ACQUIRE_ATTEMPTS);
  }

  lemma DoKeepsWorldInv<O, S>(m: Machine<O, S>, initial: Option<Stored<S>>, w: World<O, S>, e: WorldEvent<O>)
    requires WorldInv(m, initial, w)
    ensures WorldInv(m, initial, DoWorld(m, w, e))
  {
    assert |w.locks.tasks| == |w.calls|;
    hide WorldInv, L.Advance;
    match e
    case Begin(place, request) => BeginKeepsWorldInv(m, initial, w, place, request);
    case Crash(place) => LockStepKeepsWorldInv(m, initial, w, L.Crash(place));
    case Step(i) =>
      if i < |w.calls| {
        if !w.locks.tasks[i].pc.Body? || w.calls[i].phase.Done? {
          LockStepKeepsWorldInv(m, initial, w, L.Run(i));
        } else {
          StoreStepKeepsWorldInv(m, initial, w, i);
        }
      }
  }

  /** Any concurrent run, with crashes anywhere, leaves on disk exactly what applying the calls
      one at a time, in the order they took effect, would have left: no update is lost, and each
      call reports what it would have reported in that order. */
  lemma {:induction false} ConcurrentRunsAreSerial<O, S>(
    m: Machine<O, S>, initial: Option<Stored<S>>, es: seq<WorldEvent<O>>)
    ensures var w := RunWorld(m, InitialWorld(initial), es);
      WorldInv(m, initial, w) && Serial(m, initial, w.log) && Faithful(w)
        && w.disk == Replay(m, initial, Requests(w.log))
  {
    if es != [] {
      var n := |es| - 1;
      ConcurrentRunsAreSerial(m, initial, es[..n]);
      DoKeepsWorldInv(m, initial, RunWorld(m, InitialWorld(initial), es[..n]), es[n]);
    }
  }

  /** In every concurrent run each call that got through its body ended for its own cause, judged by
      the state that the calls logged before it had left. */
  lemma ConcurrentCallsAreExplained<O, S>(m: Machine<O, S>, initial: Option<Stored<S>>, es: seq<WorldEvent<O>>, k: nat)
    requires k < |RunWorld(m, InitialWorld(initial), es).log|
    ensures var entry := RunWorld(m, InitialWorld(initial), es).log[k];
      var rs := Requests(RunWorld(m, InitialWorld(initial), es).log);
      var before, after := Replay(m, initial, rs[..k]), Replay(m, initial, rs[..k + 1]);
      && (entry.request.Update? ==> UpdateExplained(m, before, entry.request, entry.outcome, after))
      && (entry.request.Replace? ==> ReplacementExplained(m, before, entry.request, entry.outcome, after))
  {
    hide RunWorld, Replay, Apply, UpdateExplained, ReplacementExplained, WorldInv, Faithful;
    ConcurrentRunsAreSerial(m, initial, es);
    var log := RunWorld(m, InitialWorld(initial), es).log;
    var rs := Requests(log);
    assert log[k].outcome == Apply(m, Replay(m, initial, rs[..k]), log[k].request) && rs[k] == log[k].request;
    hide Serial, Requests;
    OneMoreRequest(m, initial, rs[..k + 1]);
    assert rs[..k + 1][..k] == rs[..k] && rs[..k + 1][k] == rs[k];
    OutcomesAreExplained(m, Replay(m, initial, rs[..k]), rs[k]);
  }

  /** A call that begins, and a process that dies, do to the lock what they do there. */
  lemma ProcessesAre<O, S>(m: Machine<O, S>, w: World<O, S>, place: L.Place, request: Request<O>)
    requires |w.locks.tasks| == |w.calls|
    ensures var begun := DoWorld(m, w, Begin(place, request));
      begun.locks == L.Spawned(w.locks, place, L.ACQUIRE_ATTEMPTS) && begun.calls == w.calls + [Call(request, Start)]
    ensures DoWorld(m, w, Crash(place)) == w.(locks := L.Crashed(w.locks, place))
  {
  }

  // ---------------------------------------------------------------- every serial order happens

  /** Nobody holds or awaits the lock's directories. */
  ghost predicate Quiet<O, S>(w: World<O, S>) {
    |w.locks.tasks| == |w.calls| && w.locks.gate.None? && w.locks.lock.None?
  }

  lemma NextEvent<O, S>(m: Machine<O, S>, w0: World<O, S>, es: seq<WorldEvent<O>>, w: World<O, S>, e: WorldEvent<O>)
    returns (es': seq<WorldEvent<O>>, w': World<O, S>)
    requires |w0.locks.tasks| == |w0.calls| && w == RunWorld(m, w0, es)
    ensures es' == es + [e] && w' == DoWorld(m, w, e) && w' == RunWorld(m, w0, es')
    ensures |w'.locks.tasks| == |w'.calls|
  {
    es', w' := es + [e], DoWorld(m, w, e);
    assert es'[..|es|] == es;
  }

  /** A call that meets no other one enters the body. */
  lemma EntersAlone<O, S>(
    m: Machine<O, S>, w0: World<O, S>, es: seq<WorldEvent<O>>, w: World<O, S>, place: L.Place, request: Request<O>)
    returns (es': seq<WorldEvent<O>>, w': World<O, S>)
    requires |w0.locks.tasks| == |w0.calls| && w == RunWorld(m, w0, es) && Quiet(w)
    ensures w' == RunWorld(m, w0, es') && |w'.locks.tasks| == |w'.calls| == |w.calls| + 1
    ensures w'.disk == w.disk && w'.log == w.log && w'.calls == w.calls + [Call(request, Start)]
    ensures w'.locks.gate.None? && w'.locks.lock.Some? && w'.locks.tasks[|w.calls|].pc == L.Body(w'.locks.lock.value)
  {
    hide RunWorld;
    var i := |w.calls|;
    es', w' := NextEvent(m, w0, es, w, Begin(place, request));
    es', w' := NextEvent(m, w0, es', w', Step(i));
    es', w' := NextEvent(m, w0, es', w', Step(i));
    es', w' := NextEvent(m, w0, es', w', Step(i));
  }

  /** In the body it reads and writes. */
  lemma WorksAlone<O, S>(m: Machine<O, S>, w0: World<O, S>, es: seq<WorldEvent<O>>, w: World<O, S>, i: nat)
    returns (es': seq<WorldEvent<O>>, w': World<O, S>)
    requires |w0.locks.tasks| == |w0.calls| && w == RunWorld(m, w0, es) && |w.locks.tasks| == |w.calls|
    requires i < |w.calls| && w.locks.tasks[i].pc.Body? && w.calls[i].phase.Start?
    ensures w' == RunWorld(m, w0, es') && |w'.locks.tasks| == |w'.calls| == |w.calls| && w'.locks == w.locks
    ensures var outcome := Apply(m, w.disk, w.calls[i].request);
      && w'.disk == After(w.disk, outcome) && w'.log == w.log + [Entry(i, w.calls[i].request, outcome)]
      && w'.calls[i].phase.Done?
  {
    hide RunWorld, Apply, L.Advance;
    es', w' := NextEvent(m, w0, es, w, Step(i));
    es', w' := NextEvent(m, w0, es', w', Step(i));
  }

  /** Then it gives the lock back. */
  lemma LeavesAlone<O, S>(m: Machine<O, S>, w0: World<O, S>, es: seq<WorldEvent<O>>, w: World<O, S>, i: nat)
    returns (es': seq<WorldEvent<O>>, w': World<O, S>)
    requires |w0.locks.tasks| == |w0.calls| && w == RunWorld(m, w0, es) && |w.locks.tasks| == |w.calls|
    requires i < |w.calls| && w.calls[i].phase.Done?
    requires w.locks.gate.None? && w.locks.lock.Some? && w.locks.tasks[i].pc == L.Body(w.locks.lock.value)
    ensures w' == RunWorld(m, w0, es') && Quiet(w') && w'.disk == w.disk && w'.log == w.log
  {
    hide RunWorld;
    es', w' := NextEvent(m, w0, es, w, Step(i));
    es', w' := NextEvent(m, w0, es', w', Step(i));
    es', w' := NextEvent(m, w0, es', w', Step(i));
    es', w' := NextEvent(m, w0, es', w', Step(i));
  }

  lemma OneRequestMore<O, S>(log: seq<Entry<O, S>>, entry: Entry<O, S>)
    ensures Requests(log + [entry]) == Requests(log) + [entry.request]
  {
  }

  /** Conversely, every list of requests is the log of a run, one call after the other. */
  lemma {:induction false} SerialRunsHappen<O, S>(
    m: Machine<O, S>, initial: Option<Stored<S>>, place: L.Place, rs: seq<Request<O>>)
    returns (es: seq<WorldEvent<O>>)
    ensures var w := RunWorld(m, InitialWorld(initial), es);
      Quiet(w) && Requests(w.log) == rs && w.disk == Replay(m, initial, rs)
  {
    var w0: World<O, S> := InitialWorld(initial);
    if rs == [] {
      es := [];
    } else {
      var n := |rs| - 1;
      es := SerialRunsHappen(m, initial, place, rs[..n]);
      OneMoreRequest(m, initial, rs);
      hide RunWorld, Apply, Replay;
      var before := RunWorld(m, w0, es);
      var w;
      es, w := EntersAlone(m, w0, es, before, place, rs[n]);
      es, w := WorksAlone(m, w0, es, w, |before.calls|);
      es, w := LeavesAlone(m, w0, es, w, |before.calls|);
      OneRequestMore(before.log, w.log[|before.log|]);
      assert Requests(w.log) == rs[..n] + [rs[n]] == rs;
    }
  }

  // ---------------------------------------------------------------- what mutators keep

  /** A content property that every mutator keeps holds of the disk in every concurrent run. */
  ghost predicate Preserved<O(!new), S(!new)>(m: Machine<O, S>, p: S -> bool) {
    && (forall op: O, content: S | p(content) :: m.mutate(op, content).Changed? ==> p(m.mutate(op, content).content))
    && (forall op: O, content: S | p(content) :: m.replace(op, Some(content)).Some? ==> p(m.replace(op, Some(content)).value))
    && (forall op: O :: m.replace(op, None).Some? ==> p(m.replace(op, None).value))
  }

  lemma {:induction false} ReplayKeeps<O(!new), S(!new)>(
    m: Machine<O, S>, p: S -> bool, initial: Option<Stored<S>>, rs: seq<Request<O>>)
    requires Preserved(m, p) && (initial.Some? ==> p(initial.value.content))
    ensures var last := Replay(m, initial, rs); last.Some? ==> p(last.value.content)
  {
    if rs != [] {
      ReplayKeeps(m, p, initial, rs[..|rs| - 1]);
    }
  }

  lemma ConcurrentRunsKeep<O(!new), S(!new)>(
    m: Machine<O, S>, p: S -> bool, initial: Option<Stored<S>>, es: seq<WorldEvent<O>>)
    requires Preserved(m, p) && (initial.Some? ==> p(initial.value.content))
    ensures var w := RunWorld(m, InitialWorld(initial), es); w.disk.Some? ==> p(w.disk.value.content)
  {
    ConcurrentRunsAreSerial(m, initial, es);
    ReplayKeeps(m, p, initial, Requests(RunWorld(m, InitialWorld(initial), es).log));
  }
}
