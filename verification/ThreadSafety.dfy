/** What every message operation keeps: the journal stays valid, deliveries only move forward,
    a send happens once, and threads stay between two actors. */
module ThreadSafety {
  import opened Wrappers
  import opened Threads
  import opened ThreadService
  import Task = TaskState
  import Store = SerialStore

  // ---------------------------------------------------------------- forward steps

  /** Acknowledged and expired are final, and a read time is written once. */
  ghost predicate DeliveryForward(before: Delivery, after: Delivery) {
    && (before.readAt.Some? ==> after.readAt == before.readAt)
    && (before.state.Acknowledged? ==> after.state.Acknowledged? && after.acknowledgedAt == before.acknowledgedAt)
    && (before.state.Expired? ==> after.state.Expired? && after.expiredAt == before.expiredAt && after.reason == before.reason)
  }

  /** The same message, possibly further in its delivery. */
  ghost predicate MessageForward(before: Message, after: Message) {
    && after == before.(delivery := after.delivery)
    && DeliveryForward(before.delivery, after.delivery)
  }

  ghost predicate MessagesForward(before: seq<Message>, after: seq<Message>) {
    && |before| <= |after|
    && forall k | 0 <= k < |before| :: MessageForward(before[k], after[k])
  }

  ghost predicate JournalForward(before: Journal, after: Journal) {
    && after.sessionId == before.sessionId
    && before.revision <= after.revision
    && before.nextSequence <= after.nextSequence
    && before.operations <= after.operations
    && MessagesForward(before.messages, after.messages)
  }

  lemma JournalForwardTransitive(a: Journal, b: Journal, c: Journal)
    requires JournalForward(a, b) && JournalForward(b, c)
    ensures JournalForward(a, c)
  {
    forall k | 0 <= k < |a.messages| ensures MessageForward(a.messages[k], c.messages[k]) {
      assert MessageForward(a.messages[k], b.messages[k]) && MessageForward(b.messages[k], c.messages[k]);
    }
  }

  lemma JournalForwardReflexive(j: Journal)
    ensures JournalForward(j, j)
  {
    assert MessagesForward(j.messages, j.messages);
  }

  // ---------------------------------------------------------------- what keeps a list of messages good

  ghost predicate MessagesValid(messages: seq<Message>, nextSequence: nat) {
    && |messages| <= THREADS_MESSAGE_LIMIT
    && nextSequence > 0
    && Ordered(messages)
    && TreeOk(messages)
    && |Roots(messages)| <= THREADS_THREAD_LIMIT
    && (forall k | 0 <= k < |messages| :: messages[k].sequence < nextSequence)
  }

  /** Moving deliveries forward keeps the tree: acknowledged parents stay acknowledged. */
  lemma RedeliveringKeepsValid(before: seq<Message>, after: seq<Message>, nextSequence: nat)
    requires MessagesValid(before, nextSequence)
    requires |after| == |before| && MessagesForward(before, after)
    requires forall k | 0 <= k < |after| :: DeliveryOk(after[k].delivery)
    ensures MessagesValid(after, nextSequence)
    ensures Ids(after) == Ids(before)
  {
    assert forall k | 0 <= k < |before| :: MessageForward(before[k], after[k]);
    assert Roots(after) == Roots(before);
    assert Ids(after) == Ids(before);
    forall i | 0 <= i < |after| ensures MessageOk(after[i]) && Placed(after, i) {
      assert MessageOk(before[i]) && Placed(before, i);
      if before[i].replyTo.Some? {
        var k :| 0 <= k < i && before[k].id == before[i].replyTo.value && GoodReply(before[k], before[i]);
        assert after[k].id == after[i].replyTo.value && GoodReply(after[k], after[i]);
      }
    }
  }

  lemma IdsGrow(messages: seq<Message>, m: Message)
    ensures Ids(messages + [m]) == Ids(messages) + {m.id}
    ensures Roots(messages + [m]) == Roots(messages) + if m.replyTo.None? then {m.threadId} else {}
  {
    var longer := messages + [m];
    forall x | x in Ids(messages) ensures x in Ids(longer) {
      var k :| 0 <= k < |messages| && messages[k].id == x;
      assert longer[k].id == x;
    }
    forall x | x in Roots(messages) ensures x in Roots(longer) {
      var k :| 0 <= k < |messages| && messages[k].replyTo.None? && messages[k].threadId == x;
      assert longer[k].threadId == x;
    }
    assert longer[|messages|] == m;
  }

  /** Appending a fresh message that has a place keeps the list valid. */
  lemma AppendingKeepsValid(messages: seq<Message>, m: Message, nextSequence: nat)
    requires MessagesValid(messages, nextSequence) && |messages| < THREADS_MESSAGE_LIMIT
    requires m.id !in Ids(messages) && m.sequence == nextSequence && MessageOk(m)
    requires Placed(messages + [m], |messages|)
    requires m.replyTo.None? ==> |Roots(messages)| < THREADS_THREAD_LIMIT
    ensures MessagesValid(messages + [m], nextSequence + 1)
  {
    var longer := messages + [m];
    IdsGrow(messages, m);
    assert TreeOk(longer) by {
      AppendingKeepsTree(messages, m);
    }
    hide TreeOk, Roots, Ids;
    forall j, k | 0 <= j < k < |longer|
      ensures longer[j].id != longer[k].id && longer[j].sequence < longer[k].sequence
    {
      if k == |messages| {
        IdsHold(messages, j);
      }
    }
  }

  lemma IdsHold(messages: seq<Message>, k: nat)
    requires k < |messages|
    ensures messages[k].id in Ids(messages)
  {
  }

  lemma AppendingKeepsTree(messages: seq<Message>, m: Message)
    requires TreeOk(messages) && MessageOk(m) && Placed(messages + [m], |messages|)
    ensures TreeOk(messages + [m])
  {
    var longer := messages + [m];
    hide MessageOk, GoodReply;
    forall i | 0 <= i < |longer| ensures MessageOk(longer[i]) && Placed(longer, i) {
      if i < |messages| {
        assert MessageOk(messages[i]) && Placed(messages, i);
        if messages[i].replyTo.Some? {
          var k :| 0 <= k < i && messages[k].id == messages[i].replyTo.value && GoodReply(messages[k], messages[i]);
          assert longer[k].id == longer[i].replyTo.value && GoodReply(longer[k], longer[i]);
        }
      }
    }
  }

  lemma RootsAreThreads(messages: seq<Message>)
    ensures Roots(messages) <= ThreadIds(messages) && |Roots(messages)| <= |ThreadIds(messages)|
  {
    var rest := ThreadIds(messages) - Roots(messages);
    assert ThreadIds(messages) == Roots(messages) + rest;
  }

  lemma {:induction false} FoundMessage(messages: seq<Message>, id: string)
    ensures var m := FindMessage(messages, id);
      && (m.Some? ==> m.value in messages && m.value.id == id)
      && (m.None? <==> id !in Ids(messages))
  {
    if messages != [] {
      FoundMessage(messages[1..], id);
      assert forall k | 1 <= k < |messages| :: messages[k] == messages[1..][k - 1];
      if id in Ids(messages) && messages[0].id != id {
        var k :| 0 <= k < |messages| && messages[k].id == id;
        assert messages[1..][k - 1].id == id;
      }
      if id in Ids(messages[1..]) {
        var k :| 0 <= k < |messages[1..]| && messages[1..][k].id == id;
        assert messages[k + 1].id == id;
      }
    }
  }

  // ---------------------------------------------------------------- each mutator

  /** The mutation leads to a valid list that extends the old one. */
  ghost predicate Sound(j: Journal, mutation: Mutation) {
    mutation.Changed? ==>
      && MessagesValid(mutation.messages, mutation.nextSequence)
      && j.nextSequence <= mutation.nextSequence
      && MessagesForward(j.messages, mutation.messages)
      && Ids(j.messages) <= Ids(mutation.messages)
  }

  /** New messages carry ids the journal has never seen. */
  ghost predicate FreshId(j: Journal, r: Request) {
    r.Send? || r.Reply? ==> r.messageId !in Ids(j.messages)
  }

  lemma SendIsSound(j: Journal, r: Request)
    requires Valid(j) && r.Send? && FreshId(j, r) && r.from != r.to
    ensures Sound(j, MutateSend(r, j))
  {
    if MutateSend(r, j).Changed? {
      RootsAreThreads(j.messages);
      var m := NewMessage(r.messageId, j.nextSequence, r.messageId, None, r.from, r.to, r.intent, r.content, r.mode, r.now);
      AppendingKeepsValid(j.messages, m, j.nextSequence);
      IdsGrow(j.messages, m);
    }
  }

  lemma ParentAcknowledgedIsSound(messages: seq<Message>, parentId: string, now: nat, nextSequence: nat)
    requires MessagesValid(messages, nextSequence)
    requires forall k | 0 <= k < |messages| && messages[k].id == parentId :: !messages[k].delivery.state.Expired?
    ensures var after := WithParentAcknowledged(messages, parentId, now);
      && MessagesForward(messages, after)
      && MessagesValid(after, nextSequence) && Ids(after) == Ids(messages)
      && (forall k | 0 <= k < |after| && after[k].id == parentId :: after[k].delivery.state.Acknowledged?)
  {
    var after := WithParentAcknowledged(messages, parentId, now);
    forall k | 0 <= k < |messages| ensures MessageForward(messages[k], after[k]) && DeliveryOk(after[k].delivery) {
      assert MessageOk(messages[k]);
    }
    RedeliveringKeepsValid(messages, after, nextSequence);
  }

  /** Two messages of one journal with the same id are the same message. */
  lemma IdsIdentify(messages: seq<Message>, j: nat, k: nat)
    requires Ordered(messages) && j < |messages| && k < |messages| && messages[j].id == messages[k].id
    ensures j == k
  {
  }

  lemma ReplyIsSound(state: Task.State, j: Journal, r: Request)
    requires Valid(j) && r.Reply? && FreshId(j, r)
    ensures Sound(j, MutateReply(state, r, j))
  {
    var mutation := MutateReply(state, r, j);
    if mutation.Changed? {
      var route := ResolveReplyRoute(j.messages, r.parentId, r.from).value;
      FoundMessage(j.messages, r.parentId);
      var p :| 0 <= p < |j.messages| && j.messages[p] == route.parent;
      forall k | 0 <= k < |j.messages| && j.messages[k].id == route.parent.id ensures k == p {
        IdsIdentify(j.messages, k, p);
      }
      assert MessageOk(j.messages[p]);
      hide Ids, Roots;
      var before := j.messages;
      if r.intent.AckIntent? {
        before := WithParentAcknowledged(j.messages, route.parent.id, r.now);
        ParentAcknowledgedIsSound(j.messages, route.parent.id, r.now, j.nextSequence);
      }
      assert MessageForward(j.messages[p], before[p]);
      var m := NewMessage(r.messageId, j.nextSequence, route.parent.threadId, Some(route.parent.id), r.from, route.to,
                          r.intent, r.content, r.mode, r.now);
      assert mutation.messages == before + [m];
      assert GoodReply((before + [m])[p], m);
      AppendingKeepsValid(before, m, j.nextSequence);
      hide MutateReply, ResolveReplyRoute, FindMessage, MessagesValid, Valid;
      AppendedIsSound(j, mutation, before, m);
    }
  }

  lemma AppendedIsSound(j: Journal, mutation: Mutation, before: seq<Message>, m: Message)
    requires mutation.Changed? && mutation.messages == before + [m] && j.nextSequence <= mutation.nextSequence
    requires MessagesForward(j.messages, before) && Ids(before) == Ids(j.messages)
    requires MessagesValid(before + [m], mutation.nextSequence)
    ensures Sound(j, mutation)
  {
    hide Ids, MessagesValid, MessageForward;
    IdsGrow(before, m);
    forall k | 0 <= k < |j.messages| ensures MessageForward(j.messages[k], mutation.messages[k]) {
      assert MessageForward(j.messages[k], before[k]);
    }
  }

  /** A mutator that rewrites deliveries in place. */
  lemma RewriteIsSound(j: Journal, mutation: Mutation)
    requires Valid(j) && mutation.Changed? && mutation.nextSequence == j.nextSequence
    requires |mutation.messages| == |j.messages|
    requires forall k | 0 <= k < |j.messages| ::
      MessageForward(j.messages[k], mutation.messages[k]) && DeliveryOk(mutation.messages[k].delivery)
    ensures Sound(j, mutation)
  {
    RedeliveringKeepsValid(j.messages, mutation.messages, j.nextSequence);
  }

  lemma MarkReadIsSound(j: Journal, r: Request)
    requires Valid(j) && r.MarkRead?
    ensures Sound(j, MutateMarkRead(r, j))
  {
    var mutation := MutateMarkRead(r, j);
    if mutation.Changed? {
      FoundMessage(j.messages, r.messageId);
      var p :| 0 <= p < |j.messages| && j.messages[p] == FindMessage(j.messages, r.messageId).value;
      forall k | 0 <= k < |j.messages|
        ensures MessageForward(j.messages[k], mutation.messages[k]) && DeliveryOk(mutation.messages[k].delivery)
      {
        assert MessageOk(j.messages[k]);
        if j.messages[k].id == r.messageId {
          IdsIdentify(j.messages, k, p);
        }
      }
      RewriteIsSound(j, mutation);
    }
  }

  lemma AcknowledgeIsSound(j: Journal, r: Request)
    requires Valid(j) && r.Acknowledge?
    ensures Sound(j, MutateAcknowledge(r, j))
  {
    var mutation := MutateAcknowledge(r, j);
    if mutation.Changed? {
      FoundMessage(j.messages, r.messageId);
      var p :| 0 <= p < |j.messages| && j.messages[p] == FindMessage(j.messages, r.messageId).value;
      forall k | 0 <= k < |j.messages|
        ensures MessageForward(j.messages[k], mutation.messages[k]) && DeliveryOk(mutation.messages[k].delivery)
      {
        assert MessageOk(j.messages[k]);
        if j.messages[k].id == r.messageId {
          IdsIdentify(j.messages, k, p);
        }
      }
      RewriteIsSound(j, mutation);
    }
  }

  lemma PassesAreSound(j: Journal, r: Request)
    requires Valid(j) && (r.ExpireQueued? || r.ReadInbox?)
    ensures r.ExpireQueued? ==> Sound(j, MutateExpire(r, j))
    ensures r.ReadInbox? ==> Sound(j, MutateInbox(r, j))
  {
    var mutation := if r.ExpireQueued? then MutateExpire(r, j) else MutateInbox(r, j);
    if mutation.Changed? {
      forall k | 0 <= k < |j.messages|
        ensures MessageForward(j.messages[k], mutation.messages[k]) && DeliveryOk(mutation.messages[k].delivery)
      {
        assert MessageOk(j.messages[k]);
      }
      RewriteIsSound(j, mutation);
    }
  }

  lemma MutationIsSound(state: Task.State, j: Journal, r: Request)
    requires Valid(j) && FreshId(j, r) && (r.Send? ==> r.from != r.to)
    ensures Sound(j, Mutate(state, r, j))
  {
    match r
    case Send(_, _, _, _, _, _, _, _) => SendIsSound(j, r);
    case Reply(_, _, _, _, _, _, _, _) => ReplyIsSound(state, j, r);
    case MarkRead(_, _, _) => MarkReadIsSound(j, r);
    case Acknowledge(_, _, _) => AcknowledgeIsSound(j, r);
    case ExpireQueued(_, _, _) => PassesAreSound(j, r);
    case ReadInbox(_, _, _) => PassesAreSound(j, r);
  }

  // ---------------------------------------------------------------- the ledger

  /** Every record stands for its own message; no key is recorded twice. */
  ghost predicate LedgerOk(j: Journal) {
    && |j.operations| <= |j.messages|
    && (forall a, b | 0 <= a < b < |j.operations| ::
          && !(j.operations[a].actor == j.operations[b].actor && j.operations[a].operationId == j.operations[b].operationId)
          && j.operations[a].messageId != j.operations[b].messageId)
  }

  ghost predicate JournalOk(j: Journal) {
    Valid(j) && LedgerOk(j)
  }

  lemma {:induction false} FoundOperation(operations: seq<Operation>, actor: string, operationId: string)
    ensures var op := FindOperation(operations, actor, operationId);
      && (op.Some? ==> op.value in operations && op.value.actor == actor && op.value.operationId == operationId)
      && (op.None? ==> forall k | 0 <= k < |operations| ::
            !(operations[k].actor == actor && operations[k].operationId == operationId))
  {
    if operations != [] {
      FoundOperation(operations[1..], actor, operationId);
    }
  }

  /** A send or reply that goes through adds exactly one message, the one it was asked for. */
  lemma RecordedRequestsAddTheirMessage(state: Task.State, j: Journal, r: Request)
    requires OperationOf(r).Some? && Mutate(state, r, j).Changed?
    ensures var messages := Mutate(state, r, j).messages;
      && |messages| == |j.messages| + 1
      && messages[|j.messages|].id == r.messageId == OperationOf(r).value.messageId
      && ActorKey(messages[|j.messages|].from) == OperationOf(r).value.actor
  {
  }

  /** The record names the one message that the mutation adds. */
  ghost predicate Records(j: Journal, operation: Option<Operation>, mutation: Mutation) {
    operation.Some? && mutation.Changed? ==>
      && |mutation.messages| == |j.messages| + 1
      && mutation.messages[|j.messages|].id == operation.value.messageId
      && operation.value.messageId !in Ids(j.messages)
  }

  /** A sound mutation and an honest record give a good journal; the ledger, never longer than
      the messages, is never cut. */
  lemma UpdateKeepsJournal(j: Journal, operation: Option<Operation>, mutation: Mutation)
    requires JournalOk(j) && Sound(j, mutation) && Records(j, operation, mutation)
    ensures var response := UpdateJournal(j, operation, mutation);
      && JournalOk(After(j, response)) && JournalForward(j, After(j, response))
      && (response.Updated? ==>
            response.journal.operations == j.operations + (if operation.Some? then [operation.value] else []))
  {
    hide Ordered, TreeOk, Roots, FindMessage, MessageForward;
    var response := UpdateJournal(j, operation, mutation);
    if response.Updated? {
      var t := response.journal;
      if operation.Some? {
        FoundOperation(j.operations, operation.value.actor, operation.value.operationId);
        assert t.operations == j.operations + [operation.value];
        assert t.messages[|j.messages|].id in Ids(t.messages);
        forall a | 0 <= a < |j.operations| ensures j.operations[a].messageId != operation.value.messageId {
          assert j.operations[a].messageId in Ids(j.messages);
        }
      } else {
        assert t.operations == j.operations + [];
      }
    } else {
      JournalForwardReflexive(j);
    }
  }

  /** Every operation maps a good journal to a good one and moves it forward. */
  lemma PerformKeepsJournal(state: Task.State, capable: bool, r: Request, j: Journal)
    requires JournalOk(j) && FreshId(j, r)
    ensures var response := Perform(state, capable, r, j);
      && JournalOk(After(j, response)) && JournalForward(j, After(j, response))
      && (response.Updated? && OperationOf(r).Some? ==>
            response.journal.operations == j.operations + [OperationOf(r).value])
  {
    if Admitted(state, capable, r, j) {
      MutationIsSound(state, j, r);
      assert Records(j, OperationOf(r), Mutate(state, r, j)) by {
        if OperationOf(r).Some? && Mutate(state, r, j).Changed? {
          RecordedRequestsAddTheirMessage(state, j, r);
        }
      }
      UpdateKeepsJournal(j, OperationOf(r), Mutate(state, r, j));
    } else {
      assert MessagesForward(j.messages, j.messages);
    }
  }

  // ---------------------------------------------------------------- the life of a journal

  /** One call of the service, with the task state and provider capability it meets. */
  datatype Step = Step(state: Task.State, capable: bool, request: Request)

  function PerformAll(j: Journal, steps: seq<Step>): Journal {
    if steps == [] then j
    else
      var n := |steps| - 1;
      var before := PerformAll(j, steps[..n]);
      After(before, Perform(steps[n].state, steps[n].capable, steps[n].request, before))
  }

  ghost predicate FreshIds(j: Journal, steps: seq<Step>) {
    forall n | 0 <= n < |steps| :: FreshId(PerformAll(j, steps[..n]), steps[n].request)
  }

  lemma FreshPrefix(j: Journal, steps: seq<Step>, n: nat)
    requires FreshIds(j, steps) && n <= |steps|
    ensures FreshIds(j, steps[..n])
  {
    forall m | 0 <= m < n ensures FreshId(PerformAll(j, steps[..n][..m]), steps[..n][m].request) {
      assert steps[..n][..m] == steps[..m];
    }
  }

  /** From an empty journal, every list of operations keeps the journal good. */
  lemma {:induction false} JournalsStayOk(j: Journal, steps: seq<Step>)
    requires JournalOk(j) && FreshIds(j, steps)
    ensures JournalOk(PerformAll(j, steps)) && JournalForward(j, PerformAll(j, steps))
  {
    hide JournalOk, Perform, FreshId, JournalForward, After;
    if steps == [] {
      JournalForwardReflexive(j);
    } else {
      var n := |steps| - 1;
      FreshPrefix(j, steps, n);
      JournalsStayOk(j, steps[..n]);
      var before := PerformAll(j, steps[..n]);
      assert FreshId(before, steps[n].request);
      PerformKeepsJournal(steps[n].state, steps[n].capable, steps[n].request, before);
      JournalForwardTransitive(j, before, PerformAll(j, steps));
    }
  }

  lemma EmptyJournalIsOk(sessionId: string)
    ensures JournalOk(EmptyJournal(sessionId))
  {
    assert Roots([]) == {};
  }

  /** Once a key is recorded, later calls with it never add a message: they answer with the
      recorded one, or refuse a different payload, or fail a check. */
  lemma RecordedKeyIsFinal(state: Task.State, capable: bool, r: Request, j: Journal, k: nat)
    requires JournalOk(j) && k < |j.operations| && OperationOf(r).Some?
    requires j.operations[k].actor == OperationOf(r).value.actor
    requires j.operations[k].operationId == OperationOf(r).value.operationId
    ensures var response := Perform(state, capable, r, j);
      && After(j, response) == j
      && (response.Failed? ==> !Admitted(state, capable, r, j))
      && (Admitted(state, capable, r, j) ==>
            if j.operations[k].payload != OperationOf(r).value.payload then response.Conflict?
            else response.Existing? && response.message.Some? && response.message.value.id == j.operations[k].messageId)
  {
    var operation := OperationOf(r).value;
    FoundOperation(j.operations, operation.actor, operation.operationId);
    var found := FindOperation(j.operations, operation.actor, operation.operationId).value;
    var q :| 0 <= q < |j.operations| && j.operations[q] == found;
    assert q == k;
    FoundMessage(j.messages, found.messageId);
  }

  /** Later journals of one life extend earlier ones. */
  lemma {:induction false} LaterJournal(j: Journal, steps: seq<Step>, n: nat)
    requires JournalOk(j) && FreshIds(j, steps) && n <= |steps|
    ensures JournalForward(PerformAll(j, steps[..n]), PerformAll(j, steps))
  {
    hide JournalOk, Perform, FreshId, JournalForward, After;
    if n == |steps| {
      assert steps[..n] == steps;
      JournalForwardReflexive(PerformAll(j, steps));
    } else {
      var m := |steps| - 1;
      FreshPrefix(j, steps, m);
      LaterJournal(j, steps[..m], n);
      assert steps[..m][..n] == steps[..n];
      JournalsStayOk(j, steps[..m]);
      assert FreshId(PerformAll(j, steps[..m]), steps[m].request);
      PerformKeepsJournal(steps[m].state, steps[m].capable, steps[m].request, PerformAll(j, steps[..m]));
      JournalForwardTransitive(PerformAll(j, steps[..n]), PerformAll(j, steps[..m]), PerformAll(j, steps));
    }
  }

  /** The record a call leaves is still in the ledger at any later time. */
  lemma RecordStays(j: Journal, steps: seq<Step>, a: nat) returns (k: nat)
    requires JournalOk(j) && FreshIds(j, steps) && a < |steps|
    requires OperationOf(steps[a].request).Some?
    requires Perform(steps[a].state, steps[a].capable, steps[a].request, PerformAll(j, steps[..a])).Updated?
    ensures var late := PerformAll(j, steps);
      JournalOk(late) && k < |late.operations| && late.operations[k] == OperationOf(steps[a].request).value
  {
    hide JournalOk, Perform, FreshId;
    var early := PerformAll(j, steps[..a]);
    FreshPrefix(j, steps, a);
    JournalsStayOk(j, steps[..a]);
    assert FreshId(early, steps[a].request);
    PerformKeepsJournal(steps[a].state, steps[a].capable, steps[a].request, early);
    assert steps[..a + 1][..a] == steps[..a];
    k := |early.operations|;
    var sent := PerformAll(j, steps[..a + 1]);
    assert sent.operations[k] == OperationOf(steps[a].request).value;
    LaterJournal(j, steps, a + 1);
    JournalsStayOk(j, steps);
  }

  ghost predicate SameKey(r: Request, r': Request) {
    && OperationOf(r).Some? && OperationOf(r').Some?
    && OperationOf(r).value.actor == OperationOf(r').value.actor
    && OperationOf(r).value.operationId == OperationOf(r').value.operationId
  }

  /** Exactly-once sending for the life of a journal: if a call with a key added its message,
      no later call with that key adds one, and an admitted retry with the same payload returns
      that very message. */
  lemma SentExactlyOnce(j: Journal, steps: seq<Step>, a: nat, b: nat)
    requires JournalOk(j) && FreshIds(j, steps) && a < b < |steps|
    requires SameKey(steps[a].request, steps[b].request)
    requires Perform(steps[a].state, steps[a].capable, steps[a].request, PerformAll(j, steps[..a])).Updated?
    ensures var before := PerformAll(j, steps[..b]);
      var response := Perform(steps[b].state, steps[b].capable, steps[b].request, before);
      && After(before, response) == before
      && (Admitted(steps[b].state, steps[b].capable, steps[b].request, before)
          && OperationOf(steps[a].request).value.payload == OperationOf(steps[b].request).value.payload ==>
          response.Existing? && response.message.Some?
          && response.message.value.id == OperationOf(steps[a].request).value.messageId)
  {
    FreshPrefix(j, steps, b);
    assert steps[..b][..a] == steps[..a];
    var k := RecordStays(j, steps[..b], a);
    RecordedKeyIsFinal(steps[b].state, steps[b].capable, steps[b].request, PerformAll(j, steps[..b]), k);
  }

  /** The route of a reply never changes, so checking it on an older snapshot of the journal, before the
      threads lock is taken, checks the route the locked mutation will use. */
  lemma ReplyRouteIsStable(older: Journal, newer: Journal, parentId: string, from: Actor)
    requires Valid(older) && Valid(newer) && JournalForward(older, newer)
    requires ResolveReplyRoute(older.messages, parentId, from).Some?
    ensures var a := ResolveReplyRoute(older.messages, parentId, from).value;
      var b := ResolveReplyRoute(newer.messages, parentId, from);
      b.Some? && b.value.to == a.to && b.value.fromRecipient == a.fromRecipient && MessageForward(a.parent, b.value.parent)
  {
    FoundMessage(older.messages, parentId);
    FoundMessage(newer.messages, parentId);
    var p :| 0 <= p < |older.messages| && older.messages[p] == FindMessage(older.messages, parentId).value;
    assert MessageForward(older.messages[p], newer.messages[p]);
    assert Ordered(newer.messages);
    hide Valid, Ordered, JournalForward, FindMessage, Ids;
    IdsHold(newer.messages, p);
    var q :| 0 <= q < |newer.messages| && newer.messages[q] == FindMessage(newer.messages, parentId).value;
    IdsIdentify(newer.messages, p, q);
  }
}
