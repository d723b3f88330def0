/** Which message operations of src/messages/service.ts go through, and what those that do leave in
    the journal. */
module ThreadOutcomes {
  import opened Wrappers
  import opened Threads
  import opened ThreadService
  import opened ThreadSafety
  import Task = TaskState
  import Leases
  import Store = SerialStore

  // ---------------------------------------------------------------- who may take part

  /** The operator always may, a run while the first lease of its id is not orphaned. */
  ghost predicate MayAct(state: Task.State, actor: Actor) {
    actor.Operator? || exists k: nat :: FirstLease(state.runs, actor.runId, k) && !state.runs[k].status.OrphanedLease?
  }

  ghost predicate FirstLease(runs: seq<Task.Lease>, runId: string, k: nat) {
    k < |runs| && runs[k].runId == runId && forall j | 0 <= j < k :: runs[j].runId != runId
  }

  lemma {:induction false} FindsFirstLease(runs: seq<Task.Lease>, runId: string)
    ensures Leases.FindLease(runs, runId).None? <==> forall k | 0 <= k < |runs| :: runs[k].runId != runId
    ensures Leases.FindLease(runs, runId).Some? ==>
      exists k: nat :: FirstLease(runs, runId, k) && runs[k] == Leases.FindLease(runs, runId).value
  {
    if runs != [] {
      if runs[0].runId == runId {
        assert FirstLease(runs, runId, 0);
      } else {
        FindsFirstLease(runs[1..], runId);
        if Leases.FindLease(runs[1..], runId).Some? {
          var k: nat :| FirstLease(runs[1..], runId, k) && runs[1..][k] == Leases.FindLease(runs[1..], runId).value;
          assert forall j | 1 <= j < k + 1 :: runs[j] == runs[1..][j - 1];
          assert FirstLease(runs, runId, k + 1);
        }
      }
    }
  }

  lemma MayActIff(state: Task.State, actor: Actor)
    ensures HasCurrentLease(state, actor) <==> MayAct(state, actor)
  {
    if actor.RunActor? {
      FindsFirstLease(state.runs, actor.runId);
      forall j: nat, k: nat | FirstLease(state.runs, actor.runId, j) && FirstLease(state.runs, actor.runId, k) ensures j == k {
      }
    }
  }

  ghost predicate Open(state: Task.State, sessionId: string) {
    state.sessionId == sessionId && !state.status.CompletedTask? && !state.status.CancelledTask?
  }

  /** Everything reaches an inbox; other ways need a run whose provider is capable of them. */
  ghost predicate CanBeDelivered(to: Actor, mode: DeliveryMode, capable: bool) {
    !mode.InboxMode? ==> to != Operator && capable
  }

  // ---------------------------------------------------------------- repeated operations

  /** Entry `k` is the first that the actor has under this id. */
  ghost predicate FirstRecord(operations: seq<Operation>, actor: Actor, operationId: string, k: nat) {
    && k < |operations| && operations[k].actor == ActorKey(actor) && operations[k].operationId == operationId
    && forall j | 0 <= j < k :: !(operations[j].actor == ActorKey(actor) && operations[j].operationId == operationId)
  }

  lemma {:induction false} FindsFirstRecord(operations: seq<Operation>, actor: Actor, operationId: string)
    ensures FindOperation(operations, ActorKey(actor), operationId).Some?
      <==> exists k: nat :: FirstRecord(operations, actor, operationId, k)
    ensures forall k: nat | FirstRecord(operations, actor, operationId, k) ::
      FindOperation(operations, ActorKey(actor), operationId) == Some(operations[k])
  {
    hide ActorKey;
    if operations != [] {
      var rest := operations[1..];
      FindsFirstRecord(rest, actor, operationId);
      if operations[0].actor == ActorKey(actor) && operations[0].operationId == operationId {
        assert FirstRecord(operations, actor, operationId, 0);
      } else {
        forall k: nat ensures FirstRecord(operations, actor, operationId, k + 1) == FirstRecord(rest, actor, operationId, k) {
          if FirstRecord(rest, actor, operationId, k) {
            assert forall j | 1 <= j < k + 1 :: operations[j] == rest[j - 1];
          }
          if FirstRecord(operations, actor, operationId, k + 1) {
            assert forall j | 0 <= j < k :: rest[j] == operations[j + 1];
          }
        }
        if k: nat :| FirstRecord(operations, actor, operationId, k) {
          assert FirstRecord(rest, actor, operationId, k - 1);
        }
        if k: nat :| FirstRecord(rest, actor, operationId, k) {
          assert FirstRecord(operations, actor, operationId, k + 1);
        }
        forall k: nat | FirstRecord(operations, actor, operationId, k)
          ensures FindOperation(operations, ActorKey(actor), operationId) == Some(operations[k])
        {
          assert FirstRecord(rest, actor, operationId, k - 1);
        }
      }
    }
  }

  /** The operation has been recorded before. */
  ghost predicate Repeated(j: Journal, actor: Actor, operationId: Option<string>) {
    Store.HasOpId(operationId) && exists k: nat :: FirstRecord(j.operations, actor, operationId.value, k)
  }

  /** A repeated operation is told what its record says, and adds nothing: its message if it asks for
      the same, and of a conflict if it does not. */
  ghost predicate AnsweredFromRecord(j: Journal, actor: Actor, operationId: string, payload: Payload, response: Response) {
    forall k: nat | FirstRecord(j.operations, actor, operationId, k) ::
      response == if j.operations[k].payload == payload then Existing(FindMessage(j.messages, j.operations[k].messageId))
                  else Conflict
  }

  /** The journal is one revision on, and the operation, if it has an id, is recorded behind the others. */
  ghost predicate Noted(
    j: Journal, after: Journal, actor: Actor, operationId: Option<string>, payload: Payload, messageId: string)
  {
    && after.sessionId == j.sessionId && after.revision == j.revision + 1
    && (!Store.HasOpId(operationId) ==> after.operations == j.operations)
    && (Store.HasOpId(operationId) ==>
          && after.operations != []
          && after.operations[|after.operations| - 1] == Operation(ActorKey(actor), operationId.value, payload, messageId)
          && (|j.operations| < THREADS_MESSAGE_LIMIT ==> after.operations[..|after.operations| - 1] == j.operations))
  }

  lemma LastIsKept<T>(s: seq<T>, x: T, n: nat)
    requires n > 0
    ensures var kept := Store.LastN(s + [x], n);
      && kept != [] && kept[|kept| - 1] == x && (|s| < n ==> kept[..|kept| - 1] == s)
  {
  }

  /** A new operation ends as its mutator does; a repeated one is answered from its record. */
  lemma UpdateEnds(j: Journal, mutation: Mutation, actor: Actor, operationId: Option<string>, payload: Payload, messageId: string)
    ensures var operation := if Store.HasOpId(operationId)
        then Some(Operation(ActorKey(actor), operationId.value, payload, messageId)) else None;
      var response := UpdateJournal(j, operation, mutation);
      if Repeated(j, actor, operationId) then
        !response.Failed? && AnsweredFromRecord(j, actor, operationId.value, payload, response)
      else
        && (response.Failed? <==> mutation.Throws?) && (response.Unchanged? <==> mutation.Same?)
        && (mutation.Changed? ==>
              && response.Updated? && response.journal.messages == mutation.messages
              && response.journal.nextSequence == mutation.nextSequence
              && Noted(j, response.journal, actor, operationId, payload, messageId))
  {
    hide ActorKey;
    if Store.HasOpId(operationId) {
      FindsFirstRecord(j.operations, actor, operationId.value);
      LastIsKept(j.operations, Operation(ActorKey(actor), operationId.value, payload, messageId), THREADS_MESSAGE_LIMIT);
    }
    hide FindOperation, FirstRecord, FindMessage, Store.LastN, Store.HasOpId;
  }

  ghost predicate Fresh(m: Message) {
    && m.delivery.state.Queued? && m.delivery.attempts == 0
    && m.delivery.readAt.None? && m.delivery.acknowledgedAt.None? && m.delivery.expiredAt.None? && m.delivery.reason.None?
  }

  // ---------------------------------------------------------------- sending

  ghost predicate MaySend(state: Task.State, capable: bool, r: Request, j: Journal)
    requires r.Send?
  {
    && r.from != r.to && !r.intent.AckIntent? && Open(state, j.sessionId)
    && MayAct(state, r.from) && MayAct(state, r.to) && CanBeDelivered(r.to, r.mode, capable)
  }

  ghost predicate SentMessage(r: Request, j: Journal, m: Message)
    requires r.Send?
  {
    && m.id == m.threadId == r.messageId && m.sequence == j.nextSequence && m.replyTo.None?
    && m.from == r.from && m.to == r.to && m.intent == r.intent && m.content == r.content && m.mode == r.mode
    && m.createdAt == r.now && Fresh(m)
  }

  /** A send fails exactly when it is not allowed, or is new and finds no room; a repeated one is
      answered from its record; any other one adds exactly its message, unread and unacknowledged, at
      the head of a new thread. */
  lemma SendExplained(state: Task.State, capable: bool, r: Request, j: Journal)
    requires r.Send?
    ensures var response := Perform(state, capable, r, j);
      var full := |j.messages| >= THREADS_MESSAGE_LIMIT || |ThreadIds(j.messages)| >= THREADS_THREAD_LIMIT;
      && (response.Failed? <==> !MaySend(state, capable, r, j) || (!Repeated(j, r.from, r.operationId) && full))
      && (!response.Failed? && Repeated(j, r.from, r.operationId) ==>
            AnsweredFromRecord(j, r.from, r.operationId.value,
                               SendPayload(r.from, r.to, r.intent, r.content, r.mode), response))
      && (!response.Failed? && !Repeated(j, r.from, r.operationId) ==>
            && response.Updated?
            && |response.journal.messages| == |j.messages| + 1
            && response.journal.messages[..|j.messages|] == j.messages
            && SentMessage(r, j, response.journal.messages[|j.messages|])
            && response.journal.nextSequence == j.nextSequence + 1
            && Noted(j, response.journal, r.from, r.operationId,
                     SendPayload(r.from, r.to, r.intent, r.content, r.mode), r.messageId))
  {
    MayActIff(state, r.from);
    MayActIff(state, r.to);
    UpdateEnds(j, MutateSend(r, j), r.from, r.operationId, SendPayload(r.from, r.to, r.intent, r.content, r.mode), r.messageId);
    hide HasCurrentLease, MayAct, ThreadIds, ActorKey, UpdateJournal, Repeated, AnsweredFromRecord, Noted;
  }

  // ---------------------------------------------------------------- replying

  lemma MessageIsFound(messages: seq<Message>, p: nat)
    requires Ordered(messages) && p < |messages|
    ensures FindMessage(messages, messages[p].id) == Some(messages[p])
  {
    FoundMessage(messages, messages[p].id);
    assert messages[p].id in Ids(messages);
    var q :| 0 <= q < |messages| && messages[q] == FindMessage(messages, messages[p].id).value;
    IdsIdentify(messages, p, q);
  }

  lemma OthersDiffer(messages: seq<Message>, p: nat)
    requires Ordered(messages) && p < |messages|
    ensures forall k: nat | k < |messages| && k != p :: messages[k].id != messages[p].id
  {
    forall k: nat | k < |messages| && k != p ensures messages[k].id != messages[p].id {
      assert k < p || p < k;
    }
  }

  lemma MissingIsNotFound(messages: seq<Message>, id: string)
    requires forall k | 0 <= k < |messages| :: messages[k].id != id
    ensures FindMessage(messages, id).None?
  {
    FoundMessage(messages, id);
  }

  /** The other actor of a message. */
  function OtherActor(m: Message, actor: Actor): Actor {
    if actor == m.from then m.to else m.from
  }

  ghost predicate MayReply(state: Task.State, capable: bool, r: Request, j: Journal, parent: Message)
    requires r.Reply?
  {
    && (r.from == parent.from || r.from == parent.to) && Open(state, j.sessionId)
    && MayAct(state, r.from) && MayAct(state, OtherActor(parent, r.from))
    && CanBeDelivered(OtherActor(parent, r.from), r.mode, capable)
  }

  ghost predicate ReplyMessage(r: Request, j: Journal, parent: Message, m: Message)
    requires r.Reply?
  {
    && m.id == r.messageId && m.threadId == parent.threadId && m.sequence == j.nextSequence && m.replyTo == Some(parent.id)
    && m.from == r.from && m.to == OtherActor(parent, r.from)
    && m.intent == r.intent && m.content == r.content && m.mode == r.mode && m.createdAt == r.now && Fresh(m)
  }

  /** `after` is `m` acknowledged now, unless it was already; a first reading counts as of now. */
  ghost predicate IsAcknowledged(m: Message, after: Message, now: nat) {
    if m.delivery.state.Acknowledged? then after == m
    else after == m.(delivery := m.delivery.(state := Acknowledged, acknowledgedAt := Some(now),
                                             readAt := if m.delivery.readAt.Some? then m.delivery.readAt else Some(now)))
  }

  lemma RouteIs(j: Journal, r: Request, p: nat)
    requires Valid(j) && r.Reply? && p < |j.messages| && j.messages[p].id == r.parentId
    ensures var parent := j.messages[p];
      var route := ResolveReplyRoute(j.messages, r.parentId, r.from);
      && (route.Some? <==> r.from == parent.from || r.from == parent.to)
      && (route.Some? ==> route.value == Route(parent, OtherActor(parent, r.from), r.from == parent.to))
  {
    MessageIsFound(j.messages, p);
    assert MessageOk(j.messages[p]);
    hide FindMessage;
  }

  /** What a reply that is not a repetition comes to. */
  ghost predicate ReplyOutcome(r: Request, j: Journal, p: nat, mutation: Mutation)
    requires r.Reply? && p < |j.messages|
  {
    var parent := j.messages[p];
    var refused := r.intent.AckIntent? && (r.from != parent.to || parent.delivery.state.Expired?);
    && (mutation.Throws? <==> refused || |j.messages| >= THREADS_MESSAGE_LIMIT)
    && (!mutation.Throws? ==>
          && mutation.Changed? && mutation.nextSequence == j.nextSequence + 1
          && |mutation.messages| == |j.messages| + 1
          && ReplyMessage(r, j, parent, mutation.messages[|j.messages|])
          && (forall k: nat | k < |j.messages| && (k != p || !r.intent.AckIntent?) :: mutation.messages[k] == j.messages[k])
          && (r.intent.AckIntent? ==> IsAcknowledged(parent, mutation.messages[p], r.now)))
  }

  lemma ReplyMutates(state: Task.State, r: Request, j: Journal, p: nat)
    requires Valid(j) && r.Reply? && p < |j.messages| && j.messages[p].id == r.parentId
    requires r.from == j.messages[p].from || r.from == j.messages[p].to
    requires MayAct(state, OtherActor(j.messages[p], r.from))
    ensures ReplyOutcome(r, j, p, MutateReply(state, r, j))
  {
    RouteIs(j, r, p);
    MayActIff(state, OtherActor(j.messages[p], r.from));
    OthersDiffer(j.messages, p);
    hide ResolveReplyRoute, HasCurrentLease, MayAct, Valid;
  }

  /** A reply fails exactly when its parent is not there or the reply is not allowed, or it is new and
      finds no room, or is an acknowledgement that only the parent's recipient could give, and not of an
      expired parent. Any other new one adds exactly its message to its parent's thread, to the other
      actor; an acknowledgement acknowledges the parent with it and touches nothing else. */
  lemma ReplyExplained(state: Task.State, capable: bool, r: Request, j: Journal, p: nat)
    requires Valid(j) && r.Reply? && p < |j.messages| && j.messages[p].id == r.parentId
    ensures var response := Perform(state, capable, r, j);
      var allowed := MayReply(state, capable, r, j, j.messages[p]);
      var repeated := Repeated(j, r.from, r.operationId);
      && (!allowed ==> response.Failed?)
      && (allowed && repeated ==>
            AnsweredFromRecord(j, r.from, r.operationId.value,
                               ReplyPayload(r.parentId, r.from, r.intent, r.content, r.mode), response))
      && (allowed && !repeated ==>
            exists mutation: Mutation ::
              && ReplyOutcome(r, j, p, mutation)
              && (response.Failed? <==> mutation.Throws?)
              && (!response.Failed? ==>
                    response.Updated? && response.journal.messages == mutation.messages
                    && response.journal.nextSequence == mutation.nextSequence
                    && Noted(j, response.journal, r.from, r.operationId,
                             ReplyPayload(r.parentId, r.from, r.intent, r.content, r.mode), r.messageId)))
  {
    var to := OtherActor(j.messages[p], r.from);
    RouteIs(j, r, p);
    MayActIff(state, r.from);
    MayActIff(state, to);
    if MayReply(state, capable, r, j, j.messages[p]) {
      ReplyMutates(state, r, j, p);
    }
    UpdateEnds(j, MutateReply(state, r, j), r.from, r.operationId,
               ReplyPayload(r.parentId, r.from, r.intent, r.content, r.mode), r.messageId);
    assert !MutateReply(state, r, j).Same?;
    hide HasCurrentLease, MayAct, ActorKey, ResolveReplyRoute, MutateReply, Valid, UpdateJournal, Repeated,
      AnsweredFromRecord, Noted, ReplyOutcome;
    assert MayReply(state, capable, r, j, j.messages[p]) <==> Admitted(state, capable, r, j);
  }

  lemma ReplyToNothingFails(state: Task.State, capable: bool, r: Request, j: Journal)
    requires r.Reply? && forall k | 0 <= k < |j.messages| :: j.messages[k].id != r.parentId
    ensures Perform(state, capable, r, j).Failed?
  {
    MissingIsNotFound(j.messages, r.parentId);
    hide HasCurrentLease;
  }

  // ---------------------------------------------------------------- marking and acknowledging

  /** Only message `p` has changed, and nothing else in the journal but its revision. */
  ghost predicate OnlyAt(j: Journal, response: Response, p: nat) {
    && response.Updated? && |response.journal.messages| == |j.messages|
    && (forall k: nat | k < |j.messages| && k != p :: response.journal.messages[k] == j.messages[k])
    && response.journal.nextSequence == j.nextSequence && response.journal.operations == j.operations
    && response.journal.revision == j.revision + 1 && response.journal.sessionId == j.sessionId
  }

  /** A recipient, and nobody else, may mark a message read; the first time counts. */
  lemma MarkReadExplained(state: Task.State, capable: bool, r: Request, j: Journal, p: nat)
    requires Valid(j) && r.MarkRead? && p < |j.messages| && j.messages[p].id == r.messageId
    ensures var response := Perform(state, capable, r, j);
      var m := j.messages[p];
      && (response.Failed? <==> r.actor != m.to)
      && (response.Unchanged? <==> r.actor == m.to && m.delivery.readAt.Some?)
      && (r.actor == m.to && m.delivery.readAt.None? ==>
            && OnlyAt(j, response, p)
            && response.journal.messages[p] == m.(delivery := m.delivery.(readAt := Some(r.now))))
  {
    MessageIsFound(j.messages, p);
    OthersDiffer(j.messages, p);
    hide Valid, FindMessage;
  }

  /** A recipient, and nobody else, may acknowledge a message that has not expired; the first time
      counts, and counts as read. */
  lemma AcknowledgeExplained(state: Task.State, capable: bool, r: Request, j: Journal, p: nat)
    requires Valid(j) && r.Acknowledge? && p < |j.messages| && j.messages[p].id == r.messageId
    ensures var response := Perform(state, capable, r, j);
      var m := j.messages[p];
      && (response.Failed? <==> r.actor != m.to || m.delivery.state.Expired?)
      && (response.Unchanged? <==> r.actor == m.to && m.delivery.state.Acknowledged?)
      && (r.actor == m.to && !m.delivery.state.Expired? && !m.delivery.state.Acknowledged? ==>
            OnlyAt(j, response, p) && IsAcknowledged(m, response.journal.messages[p], r.now))
  {
    MessageIsFound(j.messages, p);
    OthersDiffer(j.messages, p);
    hide Valid, FindMessage;
  }

  lemma TargetMustExist(state: Task.State, capable: bool, r: Request, j: Journal)
    requires (r.MarkRead? || r.Acknowledge?) && forall k | 0 <= k < |j.messages| :: j.messages[k].id != r.messageId
    ensures Perform(state, capable, r, j).Failed?
  {
    MissingIsNotFound(j.messages, r.messageId);
  }

  // ---------------------------------------------------------------- reading an inbox

  /** What an inbox shows: the messages, as they stand then, of the ids that matched before. */
  function ShownInbox(j: Journal, r: Request): seq<Message>
    requires r.ReadInbox?
  {
    WithIds(After(j, UpdateJournal(j, None, MutateInbox(r, j))).messages, MatchingIds(j.messages, r.actor, r.unreadOnly))
  }

  function WithIds(messages: seq<Message>, ids: set<string>): seq<Message> {
    if messages == [] then []
    else
      var n := |messages| - 1;
      WithIds(messages[..n], ids) + (if messages[n].id in ids then [messages[n]] else [])
  }

  /** Whether the inbox concerns the message. */
  ghost predicate ForInbox(r: Request, m: Message)
    requires r.ReadInbox?
  {
    m.to == r.actor && (r.unreadOnly ==> m.delivery.readAt.None?)
  }

  lemma MatchingAre(j: Journal, r: Request, k: nat)
    requires Valid(j) && r.ReadInbox? && k < |j.messages|
    ensures j.messages[k].id in MatchingIds(j.messages, r.actor, r.unreadOnly) <==> ForInbox(r, j.messages[k])
  {
    if j.messages[k].id in MatchingIds(j.messages, r.actor, r.unreadOnly) {
      var q: nat :| q < |j.messages| && j.messages[q].to == r.actor
        && (!r.unreadOnly || j.messages[q].delivery.readAt.None?) && j.messages[q].id == j.messages[k].id;
      IdsIdentify(j.messages, k, q);
    }
  }

  /** The messages of an inbox with each unread one read now. */
  ghost predicate ReadNow(r: Request, before: Message, after: Message)
    requires r.ReadInbox?
  {
    if ForInbox(r, before) && before.delivery.readAt.None?
    then after == before.(delivery := before.delivery.(readAt := Some(r.now)))
    else after == before
  }

  /** Reading an inbox reads exactly its owner's unread messages, and touches nothing else; nothing is
      written if there are none. */
  lemma InboxExplained(state: Task.State, capable: bool, r: Request, j: Journal)
    requires Valid(j) && r.ReadInbox?
    ensures var response := Perform(state, capable, r, j);
      var after := After(j, response);
      && (response.Unchanged? <==> forall k | 0 <= k < |j.messages| && j.messages[k].to == r.actor :: j.messages[k].delivery.readAt.Some?)
      && (!response.Unchanged? ==> response.Updated?)
      && |after.messages| == |j.messages|
      && (forall k: nat | k < |j.messages| :: ReadNow(r, j.messages[k], after.messages[k]))
      && after.nextSequence == j.nextSequence && after.operations == j.operations && after.sessionId == j.sessionId
      && after.revision == j.revision + (if response.Updated? then 1 else 0)
  {
    forall k: nat | k < |j.messages|
      ensures j.messages[k].id in MatchingIds(j.messages, r.actor, r.unreadOnly) <==> ForInbox(r, j.messages[k])
    {
      MatchingAre(j, r, k);
    }
    hide MatchingIds, Valid;
  }

  lemma {:induction false} ShownAre(messages: seq<Message>, ids: set<string>)
    ensures forall m :: m in WithIds(messages, ids) <==> m in messages && m.id in ids
  {
    if messages != [] {
      var n := |messages| - 1;
      ShownAre(messages[..n], ids);
      assert messages == messages[..n] + [messages[n]];
    }
  }

  /** An inbox shows exactly the messages to its owner, or those of them that were unread, and shows
      them as read. */
  lemma InboxShows(r: Request, j: Journal, k: nat)
    requires Valid(j) && r.ReadInbox? && k < |j.messages|
    ensures var after := After(j, UpdateJournal(j, None, MutateInbox(r, j)));
      && |after.messages| == |j.messages|
      && (after.messages[k] in ShownInbox(j, r) <==> ForInbox(r, j.messages[k]))
      && (after.messages[k] in ShownInbox(j, r) ==> after.messages[k].delivery.readAt.Some?)
  {
    var ids := MatchingIds(j.messages, r.actor, r.unreadOnly);
    var after := After(j, UpdateJournal(j, None, MutateInbox(r, j)));
    MatchingAre(j, r, k);
    ShownAre(after.messages, ids);
    hide MatchingIds, Valid, WithIds;
    assert after.messages[k] in after.messages && after.messages[k].id == j.messages[k].id;
  }

  // ---------------------------------------------------------------- what is valid

  /** A delivery is acknowledged exactly when it has an acknowledgement time, and expired exactly when it
      has a time and a reason for that; it was tried at most sixteen times. */
  lemma DeliveryOkIff(d: Delivery)
    ensures DeliveryOk(d) <==>
      && d.attempts <= 16
      && (d.state.Acknowledged? <==> d.acknowledgedAt.Some?)
      && (d.state.Expired? <==> d.expiredAt.Some?) && (d.state.Expired? <==> d.reason.Some?)
  {
  }

  /** A reply stays in its parent's thread, goes between its parent's two actors, and as an
      acknowledgement comes from the parent's recipient and finds the parent acknowledged. */
  lemma GoodReplyIff(parent: Message, m: Message)
    requires m.from != m.to && parent.from != parent.to
    ensures GoodReply(parent, m) <==>
      && m.threadId == parent.threadId
      && ((m.from == parent.from && m.to == parent.to) || (m.from == parent.to && m.to == parent.from))
      && (m.intent.AckIntent? ==> m.from == parent.to && parent.delivery.state.Acknowledged?)
  {
  }
}
