/** The message journal of src/messages/schema.ts: its data, what makes it valid, and the check
    that runs before every write and after every read. */
module Threads {
  import opened Wrappers

  const THREADS_THREAD_LIMIT: nat := 100
  const THREADS_MESSAGE_LIMIT: nat := 1000
  const ATTEMPT_LIMIT: nat := 16

  datatype Actor = Operator | RunActor(runId: string)

  datatype Intent = RequestIntent | InformIntent | AckIntent

  datatype DeliveryMode = InboxMode | NextSafeTurn | Wake

  datatype DeliveryState = Queued | Delivered | Acknowledged | Expired

  datatype ExpirationReason = RecipientEnded | TaskClosed | Ttl

  datatype Delivery = Delivery(
    state: DeliveryState,
    attempts: nat,
    readAt: Option<nat>,
    acknowledgedAt: Option<nat>,
    expiredAt: Option<nat>,
    reason: Option<ExpirationReason>)

  /** The redacted body and its context cards. */
  datatype Content = Content(body: string, cards: string)

  datatype Message = Message(
    id: string,
    sequence: nat,
    threadId: string,
    replyTo: Option<string>,
    from: Actor,
    to: Actor,
    intent: Intent,
    content: Content,
    mode: DeliveryMode,
    createdAt: nat,
    delivery: Delivery)

  /** What the payload hash is taken of; equal hashes mean equal payloads. */
  datatype Payload =
    | SendPayload(from: Actor, to: Actor, intent: Intent, content: Content, mode: DeliveryMode)
    | ReplyPayload(parentId: string, from: Actor, intent: Intent, content: Content, mode: DeliveryMode)

  datatype Operation = Operation(actor: string, operationId: string, payload: Payload, messageId: string)

  datatype Journal = Journal(
    sessionId: string,
    revision: nat,
    nextSequence: nat,
    operations: seq<Operation>,
    messages: seq<Message>)

  function EmptyJournal(sessionId: string): Journal {
    Journal(sessionId, 0, 1, [], [])
  }

  function ActorKey(actor: Actor): string {
    match actor
    case Operator => "operator"
    case RunActor(runId) => "run:" + runId
  }

  /** The key under which operations are recorded tells actors apart. */
  lemma ActorKeyIsInjective(a: Actor, b: Actor)
    ensures ActorKey(a) == ActorKey(b) <==> a == b
  {
    assert ActorKey(Operator)[0] == 'o';
    if a.RunActor? {
      assert ActorKey(a)[0] == 'r' && ActorKey(a)[4..] == a.runId;
    }
    if b.RunActor? {
      assert ActorKey(b)[0] == 'r' && ActorKey(b)[4..] == b.runId;
    }
  }

  // ---------------------------------------------------------------- validity

  predicate DeliveryOk(d: Delivery) {
    && d.attempts <= ATTEMPT_LIMIT
    && (d.state.Acknowledged? ==> d.acknowledgedAt.Some?)
    && (d.state.Expired? ==> d.expiredAt.Some? && d.reason.Some?)
    && !(d.acknowledgedAt.Some? && d.expiredAt.Some?)
    && (d.acknowledgedAt.Some? ==> d.state.Acknowledged?)
    && (d.expiredAt.Some? || d.reason.Some? ==> d.state.Expired?)
  }

  predicate MessageOk(m: Message) {
    m.sequence > 0 && m.from != m.to && DeliveryOk(m.delivery)
  }

  predicate Participates(actor: Actor, m: Message) {
    actor == m.from || actor == m.to
  }

  /** A reply stays in its parent's thread and between its parent's actors; an acknowledgement
      comes from the parent's recipient, and its parent is acknowledged. */
  predicate GoodReply(parent: Message, m: Message) {
    && parent.threadId == m.threadId
    && Participates(m.from, parent) && Participates(m.to, parent)
    && (m.intent.AckIntent? ==> m.from == parent.to && parent.delivery.state.Acknowledged?)
  }

  /** Message `i` has a place in the reply tree. */
  ghost predicate Placed(messages: seq<Message>, i: nat)
    requires i < |messages|
  {
    var m := messages[i];
    match m.replyTo
    case None => m.threadId == m.id
    case Some(parentId) => exists k | 0 <= k < i :: messages[k].id == parentId && GoodReply(messages[k], m)
  }

  ghost predicate Ordered(messages: seq<Message>) {
    forall j, k | 0 <= j < k < |messages| ::
      messages[j].id != messages[k].id && messages[j].sequence < messages[k].sequence
  }

  ghost predicate TreeOk(messages: seq<Message>) {
    forall i | 0 <= i < |messages| :: MessageOk(messages[i]) && Placed(messages, i)
  }

  /** The threads that have a root message. */
  function Roots(messages: seq<Message>): set<string> {
    set k | 0 <= k < |messages| && messages[k].replyTo.None? :: messages[k].threadId
  }

  function Ids(messages: seq<Message>): set<string> {
    set k | 0 <= k < |messages| :: messages[k].id
  }

  function ThreadIds(messages: seq<Message>): set<string> {
    set k | 0 <= k < |messages| :: messages[k].threadId
  }

  ghost predicate Valid(j: Journal) {
    && |j.operations| <= THREADS_MESSAGE_LIMIT
    && |j.messages| <= THREADS_MESSAGE_LIMIT
    && j.nextSequence > 0
    && Ordered(j.messages)
    && TreeOk(j.messages)
    && |Roots(j.messages)| <= THREADS_THREAD_LIMIT
    && (forall k | 0 <= k < |j.messages| :: j.messages[k].sequence < j.nextSequence)
    && (forall k | 0 <= k < |j.operations| :: j.operations[k].messageId in Ids(j.messages))
  }

  lemma OrderedPrefix(messages: seq<Message>, n: nat)
    requires n < |messages|
    ensures Ordered(messages[..n + 1]) <==>
      Ordered(messages[..n]) && messages[n].id !in Ids(messages[..n])
        && forall k | 0 <= k < n :: messages[k].sequence < messages[n].sequence
  {
    assert messages[..n + 1] == messages[..n] + [messages[n]];
    if Ordered(messages[..n + 1]) {
      forall j, k | 0 <= j < k < n
        ensures messages[..n][j].id != messages[..n][k].id && messages[..n][j].sequence < messages[..n][k].sequence
      {
        assert messages[..n + 1][j] == messages[j] && messages[..n + 1][k] == messages[k];
      }
      forall k | 0 <= k < n ensures messages[k].id != messages[n].id && messages[k].sequence < messages[n].sequence {
        assert messages[..n + 1][k] == messages[k] && messages[..n + 1][n] == messages[n];
      }
    }
    if Ordered(messages[..n]) && messages[n].id !in Ids(messages[..n])
       && forall k | 0 <= k < n :: messages[k].sequence < messages[n].sequence {
      forall k | 0 <= k < n ensures messages[k].id != messages[n].id {
        assert messages[..n][k].id in Ids(messages[..n]);
      }
    }
  }

  lemma TreePrefix(messages: seq<Message>, n: nat)
    requires n < |messages|
    ensures TreeOk(messages[..n + 1]) <==> TreeOk(messages[..n]) && MessageOk(messages[n]) && Placed(messages, n)
  {
    var longer, shorter := messages[..n + 1], messages[..n];
    forall i | 0 <= i < n ensures Placed(longer, i) <==> Placed(shorter, i) {
      assert longer[i] == shorter[i];
      forall k | 0 <= k < i ensures longer[k] == shorter[k] {
      }
    }
    assert Placed(longer, n) <==> Placed(messages, n) by {
      forall k | 0 <= k < n ensures longer[k] == messages[k] {
      }
    }
    if TreeOk(longer) {
      forall i | 0 <= i < n ensures MessageOk(shorter[i]) && Placed(shorter, i) {
        assert longer[i] == shorter[i] && MessageOk(longer[i]) && Placed(longer, i);
      }
      assert MessageOk(longer[n]) && Placed(longer, n);
    }
  }

  /** Looking a parent up by id finds the one earlier message that has that id. */
  lemma ParentIsFound(messages: seq<Message>, n: nat, byId: map<string, Message>)
    requires n < |messages| && messages[n].replyTo.Some?
    requires Ordered(messages[..n]) && byId.Keys == Ids(messages[..n])
    requires forall k | 0 <= k < n :: messages[k].id in byId && byId[messages[k].id] == messages[k]
    ensures var parentId := messages[n].replyTo.value;
      Placed(messages, n) <==> parentId in byId && GoodReply(byId[parentId], messages[n])
  {
    var parentId := messages[n].replyTo.value;
    if parentId in byId {
      var k :| 0 <= k < n && messages[..n][k].id == parentId;
      assert messages[k].id == parentId && byId[parentId] == messages[k];
    }
  }

  /** What the schema's loop has gathered after `n` messages. */
  ghost predicate Gathered(messages: seq<Message>, n: nat, ids: set<string>, sequences: set<nat>, roots: set<string>,
                           byId: map<string, Message>, previousSequence: nat)
    requires n <= |messages|
  {
    && ids == Ids(messages[..n]) == byId.Keys
    && roots == Roots(messages[..n])
    && (forall k | 0 <= k < n :: messages[k].sequence in sequences)
    && (forall x | x in sequences :: exists k | 0 <= k < n :: messages[k].sequence == x)
    && previousSequence == (if n == 0 then 0 else messages[n - 1].sequence)
    && (PrefixOk(messages, n) ==> forall k | 0 <= k < n :: byId[messages[k].id] == messages[k])
  }

  ghost predicate PrefixOk(messages: seq<Message>, n: nat)
    requires n <= |messages|
  {
    Ordered(messages[..n]) && TreeOk(messages[..n])
  }

  lemma IdsPrefix(messages: seq<Message>, n: nat)
    requires n < |messages|
    ensures Ids(messages[..n + 1]) == Ids(messages[..n]) + {messages[n].id}
  {
    var longer := messages[..n + 1];
    forall x | x in Ids(messages[..n]) ensures x in Ids(longer) {
      var k :| 0 <= k < n && messages[..n][k].id == x;
      assert longer[k].id == x;
    }
    forall x | x in Ids(longer) ensures x in Ids(messages[..n]) || x == messages[n].id {
      var k :| 0 <= k <= n && longer[k].id == x;
      assert k < n ==> messages[..n][k].id == x;
    }
    assert longer[n] == messages[n];
  }

  lemma RootsPrefix(messages: seq<Message>, n: nat)
    requires n < |messages|
    ensures Roots(messages[..n + 1]) ==
      Roots(messages[..n]) + if messages[n].replyTo.None? then {messages[n].threadId} else {}
  {
    var longer := messages[..n + 1];
    forall x | x in Roots(messages[..n]) ensures x in Roots(longer) {
      var k :| 0 <= k < n && messages[..n][k].replyTo.None? && messages[..n][k].threadId == x;
      assert longer[k] == messages[..n][k];
    }
    forall x | x in Roots(longer)
      ensures x in Roots(messages[..n]) || (messages[n].replyTo.None? && x == messages[n].threadId)
    {
      var k :| 0 <= k <= n && longer[k].replyTo.None? && longer[k].threadId == x;
      assert k < n ==> messages[..n][k] == longer[k];
    }
    assert longer[n] == messages[n];
  }

  lemma GatherOne(messages: seq<Message>, n: nat, ids: set<string>, sequences: set<nat>, roots: set<string>,
                  byId: map<string, Message>, previousSequence: nat)
    requires n < |messages| && Gathered(messages, n, ids, sequences, roots, byId, previousSequence)
    ensures var m := messages[n];
      Gathered(messages, n + 1, ids + {m.id}, sequences + {m.sequence},
               if m.replyTo.None? then roots + {m.threadId} else roots, byId[m.id := m], m.sequence)
  {
    hide Ids, Roots, Ordered, TreeOk;
    var m := messages[n];
    IdsPrefix(messages, n);
    RootsPrefix(messages, n);
    if PrefixOk(messages, n + 1) {
      OrderedPrefix(messages, n);
      TreePrefix(messages, n);
      forall k | 0 <= k < n ensures messages[k].id != m.id {
        IdOfPrefix(messages, n, k);
      }
    }
  }

  lemma IdOfPrefix(messages: seq<Message>, n: nat, k: nat)
    requires k < n <= |messages|
    ensures messages[k].id in Ids(messages[..n])
  {
    assert messages[..n][k] == messages[k];
  }

  /** The loop's tests on one more message, given that all before it passed. */
  lemma JudgeOne(messages: seq<Message>, n: nat, ids: set<string>, sequences: set<nat>, roots: set<string>,
                 byId: map<string, Message>, previousSequence: nat)
    requires n < |messages| && Gathered(messages, n, ids, sequences, roots, byId, previousSequence)
    requires PrefixOk(messages, n)
    ensures var m := messages[n];
      PrefixOk(messages, n + 1) <==>
        && MessageOk(m)
        && m.id !in ids && !(m.sequence in sequences || m.sequence <= previousSequence)
        && (match m.replyTo
            case None => m.threadId == m.id
            case Some(parentId) => parentId in byId && GoodReply(byId[parentId], m))
  {
    var m := messages[n];
    OrderedPrefix(messages, n);
    TreePrefix(messages, n);
    forall k | 0 <= k < n ensures messages[k].sequence <= previousSequence && messages[k].id in byId {
      assert messages[..n][k] == messages[k] && messages[..n][n - 1] == messages[n - 1];
      IdOfPrefix(messages, n, k);
    }
    hide Ids, Roots, Ordered, TreeOk, MessageOk, GoodReply;
    if m.replyTo.Some? {
      ParentIsFound(messages, n, byId);
    }
  }

  lemma BadPrefixStaysBad(messages: seq<Message>, n: nat)
    requires n < |messages| && !PrefixOk(messages, n)
    ensures !PrefixOk(messages, n + 1)
  {
    OrderedPrefix(messages, n);
    TreePrefix(messages, n);
    hide Ordered, TreeOk;
  }

  lemma NothingGathered(messages: seq<Message>)
    ensures Gathered(messages, 0, {}, {}, {}, map[], 0) && PrefixOk(messages, 0)
  {
  }

  /** What the finished loop has gathered decides validity. */
  lemma AllGathered(j: Journal, ids: set<string>, sequences: set<nat>, roots: set<string>,
                    byId: map<string, Message>, previousSequence: nat)
    requires Gathered(j.messages, |j.messages|, ids, sequences, roots, byId, previousSequence)
    ensures Valid(j) <==>
      && |j.operations| <= THREADS_MESSAGE_LIMIT && |j.messages| <= THREADS_MESSAGE_LIMIT && j.nextSequence > 0
      && PrefixOk(j.messages, |j.messages|)
      && |roots| <= THREADS_THREAD_LIMIT
      && j.nextSequence > previousSequence
      && (forall k | 0 <= k < |j.operations| :: j.operations[k].messageId in ids)
  {
    hide TreeOk, Roots, Ids;
    assert j.messages[..|j.messages|] == j.messages;
    LastSequenceBounds(j);
  }

  /** The schema's own loop over the messages decides exactly validity. */
  method CheckJournal(j: Journal) returns (ok: bool)
    ensures ok <==> Valid(j)
  {
    hide *;
    NothingGathered(j.messages);
    var shape := |j.operations| <= THREADS_MESSAGE_LIMIT && |j.messages| <= THREADS_MESSAGE_LIMIT && j.nextSequence > 0;
    var ids: set<string> := {};
    var sequences: set<nat> := {};
    var roots: set<string> := {};
    var messagesById: map<string, Message> := map[];
    var previousSequence := 0;
    var tree := true;
    for n := 0 to |j.messages|
      invariant Gathered(j.messages, n, ids, sequences, roots, messagesById, previousSequence)
      invariant tree <==> PrefixOk(j.messages, n)
    {
      var m := j.messages[n];
      GatherOne(j.messages, n, ids, sequences, roots, messagesById, previousSequence);
      if tree {
        JudgeOne(j.messages, n, ids, sequences, roots, messagesById, previousSequence);
      } else {
        BadPrefixStaysBad(j.messages, n);
      }
      if m.id in ids || m.sequence in sequences || m.sequence <= previousSequence || !MessageOk(m) {
        tree := false;
      }
      if m.replyTo.None? {
        roots := roots + {m.threadId};
        if m.threadId != m.id {
          tree := false;
        }
      } else if m.replyTo.value !in messagesById || !GoodReply(messagesById[m.replyTo.value], m) {
        tree := false;
      }
      ids, sequences, previousSequence := ids + {m.id}, sequences + {m.sequence}, m.sequence;
      messagesById := messagesById[m.id := m];
    }
    AllGathered(j, ids, sequences, roots, messagesById, previousSequence);
    var named := true;
    for n := 0 to |j.operations|
      invariant named <==> forall k | 0 <= k < n :: j.operations[k].messageId in ids
    {
      if j.operations[n].messageId !in ids {
        named := false;
      }
    }
    ok := shape && tree && |roots| <= THREADS_THREAD_LIMIT && j.nextSequence > previousSequence && named;
  }

  /** In an ordered journal the last sequence is below the next one exactly when all are. */
  lemma LastSequenceBounds(j: Journal)
    ensures j.nextSequence > 0 && Ordered(j.messages) ==>
      ((forall k | 0 <= k < |j.messages| :: j.messages[k].sequence < j.nextSequence)
       <==> j.nextSequence > (if j.messages == [] then 0 else j.messages[|j.messages| - 1].sequence))
  {
  }
}
