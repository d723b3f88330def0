/** The message operations of src/messages/service.ts on top of the journal update of
    src/messages/store.ts. */
module ThreadService {
  import opened Wrappers
  import opened Threads
  import Task = TaskState
  import Leases
  import Store = SerialStore

  datatype Request =
    | Send(messageId: string, from: Actor, to: Actor, intent: Intent, content: Content, mode: DeliveryMode,
           operationId: Option<string>, now: nat)
    | Reply(messageId: string, parentId: string, from: Actor, intent: Intent, content: Content, mode: DeliveryMode,
            operationId: Option<string>, now: nat)
    | MarkRead(messageId: string, actor: Actor, now: nat)
    | Acknowledge(messageId: string, actor: Actor, now: nat)
    | ExpireQueued(reason: ExpirationReason, target: Option<string>, now: nat)
    | ReadInbox(actor: Actor, unreadOnly: bool, now: nat)

  /** What a journal mutator does. */
  datatype Mutation = Same | Changed(nextSequence: nat, messages: seq<Message>) | Throws

  datatype Response =
    | Failed
    | Conflict
    | Existing(message: Option<Message>)
    | Unchanged
    | Updated(journal: Journal)

  // ---------------------------------------------------------------- guards

  predicate ActorPairOk(from: Actor, to: Actor) {
    from != to && !(from.Operator? && to.Operator?)
  }

  /** A run may take part only while it has a lease that is not orphaned. */
  predicate HasCurrentLease(state: Task.State, actor: Actor) {
    match actor
    case Operator => true
    case RunActor(runId) =>
      var lease := Leases.FindLease(state.runs, runId);
      lease.Some? && !lease.value.status.OrphanedLease?
  }

  predicate TaskOpen(state: Task.State, sessionId: string) {
    state.sessionId == sessionId && (state.status.ActiveTask? || state.status.BlockedTask?)
  }

  /** `capable` tells whether the recipient's provider supports a mode other than the inbox. */
  predicate DeliverySupported(to: Actor, mode: DeliveryMode, capable: bool) {
    mode.InboxMode? || (to.RunActor? && capable)
  }

  // ---------------------------------------------------------------- the mutators

  function FindMessage(messages: seq<Message>, id: string): Option<Message> {
    if messages == [] then None
    else if messages[0].id == id then Some(messages[0])
    else FindMessage(messages[1..], id)
  }

  datatype Route = Route(parent: Message, to: Actor, fromRecipient: bool)

  function ResolveReplyRoute(messages: seq<Message>, parentId: string, from: Actor): Option<Route> {
    var parent := FindMessage(messages, parentId);
    if parent.None? || !Participates(from, parent.value) then None
    else
      var to := if from == parent.value.from then parent.value.to else parent.value.from;
      if ActorPairOk(from, to) then Some(Route(parent.value, to, from == parent.value.to)) else None
  }

  function NewMessage(id: string, sequence: nat, threadId: string, replyTo: Option<string>, from: Actor, to: Actor,
                      intent: Intent, content: Content, mode: DeliveryMode, now: nat): Message {
    Message(id, sequence, threadId, replyTo, from, to, intent, content, mode, now,
            Delivery(Queued, 0, None, None, None, None))
  }

  function MapMessages(messages: seq<Message>, f: Message -> Message): seq<Message> {
    seq(|messages|, k requires 0 <= k < |messages| => f(messages[k]))
  }

  function ReadAt(m: Message, now: nat): Message {
    m.(delivery := m.delivery.(readAt := Some(now)))
  }

  function AcknowledgedAt(m: Message, now: nat): Message {
    m.(delivery := m.delivery.(state := Acknowledged, acknowledgedAt := Some(now),
                               readAt := Some(m.delivery.readAt.GetOr(now))))
  }

  function ExpiredAt(m: Message, reason: ExpirationReason, now: nat): Message {
    m.(delivery := m.delivery.(state := Expired, expiredAt := Some(now), reason := Some(reason)))
  }

  function MutateSend(r: Request, j: Journal): Mutation
    requires r.Send?
  {
    if |j.messages| >= THREADS_MESSAGE_LIMIT then Throws
    else if |ThreadIds(j.messages)| >= THREADS_THREAD_LIMIT then Throws
    else Changed(j.nextSequence + 1, j.messages
      + [NewMessage(r.messageId, j.nextSequence, r.messageId, None, r.from, r.to, r.intent, r.content, r.mode, r.now)])
  }

  /** The messages with the parent of an acknowledgement acknowledged. */
  function WithParentAcknowledged(messages: seq<Message>, parentId: string, now: nat): seq<Message> {
    MapMessages(messages, (m: Message) =>
      if m.id == parentId && !m.delivery.state.Acknowledged? then AcknowledgedAt(m, now) else m)
  }

  function MutateReply(state: Task.State, r: Request, j: Journal): Mutation
    requires r.Reply?
  {
    var route := ResolveReplyRoute(j.messages, r.parentId, r.from);
    if route.None? then Throws
    else
      var parent := route.value.parent;
      if r.intent.AckIntent? && (!route.value.fromRecipient || parent.delivery.state.Expired?) then Throws
      else if !HasCurrentLease(state, route.value.to) then Throws
      else if |j.messages| >= THREADS_MESSAGE_LIMIT then Throws
      else
        var before := if r.intent.AckIntent? then WithParentAcknowledged(j.messages, parent.id, r.now) else j.messages;
        Changed(j.nextSequence + 1, before
          + [NewMessage(r.messageId, j.nextSequence, parent.threadId, Some(parent.id), r.from, route.value.to,
                        r.intent, r.content, r.mode, r.now)])
  }

  function MutateMarkRead(r: Request, j: Journal): Mutation
    requires r.MarkRead?
  {
    var target := FindMessage(j.messages, r.messageId);
    if target.None? || target.value.to != r.actor then Throws
    else if target.value.delivery.readAt.Some? then Same
    else Changed(j.nextSequence, MapMessages(j.messages, (m: Message) =>
      if m.id == r.messageId then ReadAt(target.value, r.now) else m))
  }

  function MutateAcknowledge(r: Request, j: Journal): Mutation
    requires r.Acknowledge?
  {
    var target := FindMessage(j.messages, r.messageId);
    if target.None? || target.value.to != r.actor || target.value.delivery.state.Expired? then Throws
    else if target.value.delivery.state.Acknowledged? then Same
    else Changed(j.nextSequence, MapMessages(j.messages, (m: Message) =>
      if m.id == r.messageId then AcknowledgedAt(target.value, r.now) else m))
  }

  predicate ShouldExpire(m: Message, reason: ExpirationReason, target: Option<string>) {
    && m.delivery.state.Queued?
    && (reason.TaskClosed? || reason.Ttl? || (target.Some? && m.to == RunActor(target.value)))
  }

  function Expiring(m: Message, reason: ExpirationReason, target: Option<string>, now: nat): Message {
    if ShouldExpire(m, reason, target) then ExpiredAt(m, reason, now) else m
  }

  function MutateExpire(r: Request, j: Journal): Mutation
    requires r.ExpireQueued?
  {
    if forall k | 0 <= k < |j.messages| :: !ShouldExpire(j.messages[k], r.reason, r.target) then Same
    else Changed(j.nextSequence, MapMessages(j.messages, (m: Message) => Expiring(m, r.reason, r.target, r.now)))
  }

  /** Ids of the messages an inbox shows to `actor`. */
  function MatchingIds(messages: seq<Message>, actor: Actor, unreadOnly: bool): set<string> {
    set k | 0 <= k < |messages| && messages[k].to == actor && (!unreadOnly || messages[k].delivery.readAt.None?)
      :: messages[k].id
  }

  function MutateInbox(r: Request, j: Journal): Mutation
    requires r.ReadInbox?
  {
    var matching := MatchingIds(j.messages, r.actor, r.unreadOnly);
    if forall k | 0 <= k < |j.messages| :: j.messages[k].id !in matching || j.messages[k].delivery.readAt.Some? then Same
    else Changed(j.nextSequence, MapMessages(j.messages, (m: Message) =>
      if m.id !in matching || m.delivery.readAt.Some? then m else ReadAt(m, r.now)))
  }

  // ---------------------------------------------------------------- the journal update

  function FindOperation(operations: seq<Operation>, actor: string, operationId: string): Option<Operation> {
    if operations == [] then None
    else if operations[0].actor == actor && operations[0].operationId == operationId then Some(operations[0])
    else FindOperation(operations[1..], actor, operationId)
  }

  /** `updateThreadsJournal`: answer a repeated operation from the ledger, otherwise mutate, raise
      the revision and record the operation. An absent operation has no record. */
  function UpdateJournal(j: Journal, operation: Option<Operation>, mutation: Mutation): Response {
    var existing := if operation.Some? then FindOperation(j.operations, operation.value.actor, operation.value.operationId)
                    else None;
    if existing.Some? then
      if existing.value.payload != operation.value.payload then Conflict
      else Existing(FindMessage(j.messages, existing.value.messageId))
    else match mutation
      case Throws => Failed
      case Same => Unchanged
      case Changed(nextSequence, messages) => Updated(Journal(
        j.sessionId, j.revision + 1, nextSequence,
        if operation.Some? then Store.LastN(j.operations + [operation.value], THREADS_MESSAGE_LIMIT) else j.operations,
        messages))
  }

  /** The record a send or a reply asks for; an empty operation id counts as none. */
  function OperationOf(r: Request): Option<Operation> {
    match r
    case Send(messageId, from, to, intent, content, mode, operationId, _) =>
      if Store.HasOpId(operationId)
      then Some(Operation(ActorKey(from), operationId.value, SendPayload(from, to, intent, content, mode), messageId))
      else None
    case Reply(messageId, parentId, from, intent, content, mode, operationId, _) =>
      if Store.HasOpId(operationId)
      then Some(Operation(ActorKey(from), operationId.value, ReplyPayload(parentId, from, intent, content, mode), messageId))
      else None
    case _ => None
  }

  function Mutate(state: Task.State, r: Request, j: Journal): Mutation {
    match r
    case Send(_, _, _, _, _, _, _, _) => MutateSend(r, j)
    case Reply(_, _, _, _, _, _, _, _) => MutateReply(state, r, j)
    case MarkRead(_, _, _) => MutateMarkRead(r, j)
    case Acknowledge(_, _, _) => MutateAcknowledge(r, j)
    case ExpireQueued(_, _, _) => MutateExpire(r, j)
    case ReadInbox(_, _, _) => MutateInbox(r, j)
  }

  /** What is checked before the journal is touched. */
  predicate Admitted(state: Task.State, capable: bool, r: Request, j: Journal) {
    match r
    case Send(_, from, to, intent, _, mode, _, _) =>
      && ActorPairOk(from, to) && !intent.AckIntent?
      && TaskOpen(state, j.sessionId) && HasCurrentLease(state, from) && HasCurrentLease(state, to)
      && DeliverySupported(to, mode, capable)
    case Reply(_, parentId, from, _, _, mode, _, _) =>
      var route := ResolveReplyRoute(j.messages, parentId, from);
      && TaskOpen(state, j.sessionId) && HasCurrentLease(state, from)
      && route.Some? && HasCurrentLease(state, route.value.to)
      && DeliverySupported(route.value.to, mode, capable)
    case _ => true
  }

  function Perform(state: Task.State, capable: bool, r: Request, j: Journal): Response {
    if Admitted(state, capable, r, j) then UpdateJournal(j, OperationOf(r), Mutate(state, r, j)) else Failed
  }

  function After(j: Journal, response: Response): Journal {
    if response.Updated? then response.journal else j
  }

  // ---------------------------------------------------------------- what an expiry does

  /** Where the queued messages stand that a predicate on recipients picks. */
  function QueuedTo(messages: seq<Message>, concerns: Actor -> bool): set<nat> {
    set k: nat | k < |messages| && messages[k].delivery.state.Queued? && concerns(messages[k].to)
  }

  /** Whose queued messages an expiry ends: everybody's when the task is closed or the time is up, and
      those of the run that has ended, if one is named. */
  function Concerned(messages: seq<Message>, reason: ExpirationReason, target: Option<string>): set<nat> {
    match reason
    case TaskClosed => QueuedTo(messages, (to: Actor) => true)
    case Ttl => QueuedTo(messages, (to: Actor) => true)
    case RecipientEnded => QueuedTo(messages, (to: Actor) => target.Some? && to == RunActor(target.value))
  }

  /** The messages at `places` have expired, all others are as they were. */
  ghost predicate ExpiredAtPlaces(
    before: seq<Message>, after: seq<Message>, places: set<nat>, reason: ExpirationReason, now: nat)
  {
    && |after| == |before|
    && (forall k: nat | k < |before| && k !in places :: after[k] == before[k])
    && (forall k: nat | k < |before| && k in places ::
          after[k] == before[k].(delivery := before[k].delivery.(
            state := Expired, expiredAt := Some(now), reason := Some(reason))))
  }

  /** After the run has ended nothing queued is left for it; after the task is closed, or the time is
      up, nothing queued is left at all. */
  ghost predicate NothingLeftQueued(messages: seq<Message>, reason: ExpirationReason, target: Option<string>) {
    forall k | 0 <= k < |messages| && messages[k].delivery.state.Queued? ::
      reason.RecipientEnded? && (target.None? || messages[k].to != RunActor(target.value))
  }

  lemma ExpiresTheConcerned(messages: seq<Message>, reason: ExpirationReason, target: Option<string>, now: nat)
    ensures forall k: nat :: k in Concerned(messages, reason, target) <==> k < |messages| && ShouldExpire(messages[k], reason, target)
    ensures var next := MapMessages(messages, (m: Message) => Expiring(m, reason, target, now));
      && ExpiredAtPlaces(messages, next, Concerned(messages, reason, target), reason, now)
      && NothingLeftQueued(next, reason, target)
  {
  }

  lemma OneMoreConcerned(messages: seq<Message>, reason: ExpirationReason, target: Option<string>)
    ensures messages == [] ==> Concerned(messages, reason, target) == {}
    ensures messages != [] ==>
      var n := |messages| - 1;
      && n !in Concerned(messages[..n], reason, target)
      && Concerned(messages, reason, target)
         == Concerned(messages[..n], reason, target) + (if ShouldExpire(messages[n], reason, target) then {n} else {})
  {
    ExpiresTheConcerned(messages, reason, target, 0);
    if messages != [] {
      ExpiresTheConcerned(messages[..|messages| - 1], reason, target, 0);
    }
    hide Concerned, ShouldExpire, Expiring, ExpiredAtPlaces, NothingLeftQueued;
  }

  lemma {:induction false} CountsTheConcerned(messages: seq<Message>, reason: ExpirationReason, target: Option<string>)
    ensures CountExpiring(messages, reason, target) == |Concerned(messages, reason, target)|
  {
    hide Concerned, ShouldExpire;
    OneMoreConcerned(messages, reason, target);
    if messages != [] {
      CountsTheConcerned(messages[..|messages| - 1], reason, target);
    }
  }

  lemma SomeAreConcerned(messages: seq<Message>, reason: ExpirationReason, target: Option<string>, now: nat)
    ensures (exists k | 0 <= k < |messages| :: ShouldExpire(messages[k], reason, target))
      <==> |Concerned(messages, reason, target)| > 0
    ensures |Concerned(messages, reason, target)| == 0 ==>
      MapMessages(messages, (m: Message) => Expiring(m, reason, target, now)) == messages
  {
    ExpiresTheConcerned(messages, reason, target, 0);
    hide ShouldExpire;
    if |Concerned(messages, reason, target)| > 0 {
      var k: nat :| k in Concerned(messages, reason, target);
      assert k < |messages|;
    } else {
      forall k: nat | k < |messages| ensures !ShouldExpire(messages[k], reason, target) {
        assert k !in Concerned(messages, reason, target);
      }
    }
  }

  // ---------------------------------------------------------------- the imperative form

  function CountExpiring(messages: seq<Message>, reason: ExpirationReason, target: Option<string>): nat {
    if messages == [] then 0
    else
      var n := |messages| - 1;
      CountExpiring(messages[..n], reason, target) + (if ShouldExpire(messages[n], reason, target) then 1 else 0)
  }

  /** The expiry pass: it rewrites the list, counts, and tells whether anything changed. */
  method ExpirePass(messages: seq<Message>, reason: ExpirationReason, target: Option<string>, now: nat)
    returns (next: seq<Message>, changed: bool, expiredCount: nat)
    ensures |next| == |messages|
    ensures forall k | 0 <= k < |messages| :: next[k] == Expiring(messages[k], reason, target, now)
    ensures changed <==> exists k | 0 <= k < |messages| :: ShouldExpire(messages[k], reason, target)
    ensures expiredCount == CountExpiring(messages, reason, target)
  {
    next, changed, expiredCount := [], false, 0;
    for n := 0 to |messages|
      invariant |next| == n
      invariant forall k | 0 <= k < n :: next[k] == Expiring(messages[k], reason, target, now)
      invariant changed <==> exists k | 0 <= k < n :: ShouldExpire(messages[k], reason, target)
      invariant expiredCount == CountExpiring(messages[..n], reason, target)
    {
      assert messages[..n + 1][..n] == messages[..n];
      if ShouldExpire(messages[n], reason, target) {
        changed, expiredCount := true, expiredCount + 1;
      }
      next := next + [Expiring(messages[n], reason, target, now)];
    }
    assert messages[..|messages|] == messages;
  }

  /** The journal file of one task, as the process that holds the threads lock sees it. */
  class JournalFile {
    var journal: Journal

    constructor (sessionId: string)
      ensures journal == EmptyJournal(sessionId)
    {
      journal := EmptyJournal(sessionId);
    }

    /** `updateThreadsJournal` around a mutator's result. */
    method Update(operation: Option<Operation>, mutation: Mutation) returns (response: Response)
      modifies this
      ensures response == UpdateJournal(old(journal), operation, mutation)
      ensures journal == After(old(journal), response)
    {
      if operation.Some? {
        var existing := FindOperation(journal.operations, operation.value.actor, operation.value.operationId);
        if existing.Some? {
          if existing.value.payload != operation.value.payload {
            return Conflict;
          }
          return Existing(FindMessage(journal.messages, existing.value.messageId));
        }
      }
      match mutation {
        case Throws => response := Failed;
        case Same => response := Unchanged;
        case Changed(nextSequence, messages) =>
          var operations := journal.operations;
          if operation.Some? {
            operations := Store.LastN(operations + [operation.value], THREADS_MESSAGE_LIMIT);
          }
          journal := Journal(journal.sessionId, journal.revision + 1, nextSequence, operations, messages);
          response := Updated(journal);
      }
    }

    /** `expireQueuedMessages`: an identity-returning mutator leaves the file alone. */
    method Expire(reason: ExpirationReason, target: Option<string>, now: nat) returns (expiredCount: nat)
      modifies this
      ensures journal == After(old(journal),
        UpdateJournal(old(journal), None, MutateExpire(ExpireQueued(reason, target, now), old(journal))))
      ensures expiredCount == |Concerned(old(journal).messages, reason, target)|
      ensures ExpiredAtPlaces(old(journal).messages, journal.messages,
                              Concerned(old(journal).messages, reason, target), reason, now)
      ensures NothingLeftQueued(journal.messages, reason, target)
      ensures journal.revision == old(journal).revision + (if expiredCount > 0 then 1 else 0)
      ensures journal.operations == old(journal).operations && journal.nextSequence == old(journal).nextSequence
    {
      ExpiresTheConcerned(journal.messages, reason, target, now);
      CountsTheConcerned(journal.messages, reason, target);
      SomeAreConcerned(journal.messages, reason, target, now);
      hide Concerned, ShouldExpire, Expiring, ExpiredAtPlaces, NothingLeftQueued;
      var next, changed;
      next, changed, expiredCount := ExpirePass(journal.messages, reason, target, now);
      assert next == MapMessages(journal.messages, (m: Message) => Expiring(m, reason, target, now));
      var response := Update(None, if changed then Changed(journal.nextSequence, next) else Same);
    }
  }
}
