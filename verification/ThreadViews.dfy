/** The read side of the journal: the thread list of src/messages/projection.ts, the thread view
    of src/messages/service.ts, and unread counts. */
module ThreadViews {
  import opened Wrappers
  import opened Threads
  import opened ThreadService
  import opened ThreadSafety
  import opened StableSort

  /** `messages.filter(m => m.threadId === threadId)`, in journal order. */
  function ThreadMessages(messages: seq<Message>, threadId: string): seq<Message> {
    if messages == [] then []
    else
      var n := |messages| - 1;
      ThreadMessages(messages[..n], threadId) + (if messages[n].threadId == threadId then [messages[n]] else [])
  }

  /** `getThread`: absent when the thread does not exist or the caller may not read it. The
      operator reads every thread, a run those in which some message is from or to it. */
  function GetThread(j: Journal, threadId: string, caller: Actor): Option<seq<Message>> {
    var messages := ThreadMessages(j.messages, threadId);
    if messages == [] then None
    else if caller.Operator? || exists k | 0 <= k < |messages| :: Participates(caller, messages[k]) then Some(messages)
    else None
  }

  /** What the thread list shows of one thread. */
  datatype Summary = Summary(
    threadId: string, first: Actor, second: Actor, messageCount: nat, unreadCount: nat,
    excerpt: string, intent: Intent, state: DeliveryState, createdAt: nat, updatedAt: nat)

  const EXCERPT_LENGTH: nat := 160

  function Excerpt(body: string): string {
    if |body| <= EXCERPT_LENGTH then body else body[..EXCERPT_LENGTH]
  }

  predicate Unread(m: Message, actor: Actor) {
    m.to == actor && m.delivery.readAt.None?
  }

  function CountUnread(messages: seq<Message>, actor: Actor): nat {
    if messages == [] then 0
    else
      var n := |messages| - 1;
      CountUnread(messages[..n], actor) + (if Unread(messages[n], actor) then 1 else 0)
  }

  /** The list's own rule: the participants are those of the first message. */
  function SummaryOf(messages: seq<Message>, threadId: string, viewer: Actor): Option<Summary> {
    if messages == [] then None
    else
      var first, latest := messages[0], messages[|messages| - 1];
      if viewer.Operator? || Participates(viewer, first)
      then Some(Summary(threadId, first.from, first.to, |messages|, CountUnread(messages, viewer),
                        Excerpt(latest.content.body), latest.intent, latest.delivery.state,
                        first.createdAt, latest.createdAt))
      else None
  }

  /** Whether a text includes what was searched for; an empty query is no filter. */
  type Filter = string -> bool

  predicate Quotes(messages: seq<Message>, found: Filter) {
    exists k | 0 <= k < |messages| :: found(messages[k].content.body)
  }

  predicate Matches(filter: Option<Filter>, messages: seq<Message>, s: Summary) {
    filter.Some? ==>
      || filter.value(s.threadId)
      || Quotes(messages, filter.value)
      || filter.value(ActorKey(s.first)) || filter.value(ActorKey(s.second))
  }

  /** The thread's line in a list, if it has one. */
  function Shown(messages: seq<Message>, threadId: string, viewer: Actor, filter: Option<Filter>): Option<Summary> {
    var summary := SummaryOf(messages, threadId, viewer);
    if summary.Some? && Matches(filter, messages, summary.value) then summary else None
  }

  // ---------------------------------------------------------------- threads are two-party

  ghost predicate SameParties(a: Message, b: Message) {
    (a.from == b.from && a.to == b.to) || (a.from == b.to && a.to == b.from)
  }

  /** Every message has an earlier-or-equal root of its thread, and shares the root's two actors. */
  lemma {:induction false} RootOf(messages: seq<Message>, i: nat) returns (r: nat)
    requires TreeOk(messages) && i < |messages|
    ensures r <= i && messages[r].replyTo.None? && messages[r].id == messages[r].threadId == messages[i].threadId
    ensures SameParties(messages[r], messages[i])
    decreases i
  {
    assert MessageOk(messages[i]) && Placed(messages, i);
    if messages[i].replyTo.None? {
      r := i;
    } else {
      var k :| 0 <= k < i && messages[k].id == messages[i].replyTo.value && GoodReply(messages[k], messages[i]);
      r := RootOf(messages, k);
    }
  }

  lemma {:induction false} ThreadMessagesAre(messages: seq<Message>, threadId: string)
    ensures forall m :: m in ThreadMessages(messages, threadId) <==> m in messages && m.threadId == threadId
  {
    if messages != [] {
      var n := |messages| - 1;
      ThreadMessagesAre(messages[..n], threadId);
      assert messages == messages[..n] + [messages[n]];
    }
  }

  ghost predicate Sorted(thread: seq<Message>) {
    forall a, b | 0 <= a < b < |thread| :: thread[a].sequence < thread[b].sequence
  }

  /** Filtering keeps the order of sequences, so sorting a thread by sequence changes nothing. */
  lemma {:induction false} ThreadsAreSorted(messages: seq<Message>, threadId: string)
    requires Ordered(messages)
    ensures Sorted(ThreadMessages(messages, threadId))
  {
    if messages != [] {
      var n := |messages| - 1;
      ThreadsAreSorted(messages[..n], threadId);
      ThreadMessagesAre(messages[..n], threadId);
      var shorter := ThreadMessages(messages[..n], threadId);
      forall a | 0 <= a < |shorter| ensures shorter[a].sequence < messages[n].sequence {
        assert shorter[a] in messages[..n];
        var q :| 0 <= q < n && messages[..n][q] == shorter[a];
        assert messages[q] == shorter[a];
      }
      assert Sorted(shorter) && Sorted(shorter + [messages[n]]);
      assert shorter + [] == shorter;
    }
  }

  /** The first message of a non-empty thread is its root. */
  lemma {:induction false} ThreadStartsWithRoot(messages: seq<Message>, threadId: string)
    requires Ordered(messages) && TreeOk(messages)
    requires ThreadMessages(messages, threadId) != []
    ensures var first := ThreadMessages(messages, threadId)[0];
      first.id == threadId && first.replyTo.None?
  {
    var thread := ThreadMessages(messages, threadId);
    ThreadMessagesAre(messages, threadId);
    ThreadsAreSorted(messages, threadId);
    assert thread[0] in messages;
    var i :| 0 <= i < |messages| && messages[i] == thread[0];
    var r := RootOf(messages, i);
    assert messages[r] in thread;
    var a :| 0 <= a < |thread| && thread[a] == messages[r];
  }

  /** Every message of a thread is between the two actors of its first message. */
  lemma ThreadsAreTwoParty(j: Journal, threadId: string)
    requires Valid(j)
    ensures var thread := ThreadMessages(j.messages, threadId);
      forall k | 0 <= k < |thread| :: SameParties(thread[0], thread[k])
  {
    var thread := ThreadMessages(j.messages, threadId);
    ThreadMessagesAre(j.messages, threadId);
    forall k | 0 <= k < |thread| ensures SameParties(thread[0], thread[k]) {
      ThreadStartsWithRoot(j.messages, threadId);
      assert thread[0] in j.messages && thread[k] in j.messages;
      var i :| 0 <= i < |j.messages| && j.messages[i] == thread[k];
      var q :| 0 <= q < |j.messages| && j.messages[q] == thread[0];
      var r := RootOf(j.messages, i);
      IdsIdentify(j.messages, r, q);
    }
  }

  /** The list shows a thread to a viewer exactly when the thread view admits that viewer, although
      the one looks at the first message and the other at all of them. */
  lemma ListAndViewAgree(j: Journal, threadId: string, viewer: Actor)
    requires Valid(j)
    ensures SummaryOf(ThreadMessages(j.messages, threadId), threadId, viewer).Some?
      <==> GetThread(j, threadId, viewer).Some?
  {
    ThreadsAreTwoParty(j, threadId);
    var thread := ThreadMessages(j.messages, threadId);
    if thread != [] && Participates(viewer, thread[0]) {
      assert exists k | 0 <= k < |thread| :: Participates(viewer, thread[k]);
    }
  }

  // ---------------------------------------------------------------- the listing loops

  /** The threads in the order of their first messages. */
  function FirstSeen(messages: seq<Message>): seq<string> {
    if messages == [] then []
    else
      var n := |messages| - 1;
      FirstSeen(messages[..n])
        + (if messages[n].threadId in ThreadIds(messages[..n]) then [] else [messages[n].threadId])
  }

  ghost predicate Grouped(messages: seq<Message>, n: nat, groups: map<string, seq<Message>>, order: seq<string>)
    requires n <= |messages|
  {
    && groups.Keys == ThreadIds(messages[..n])
    && (forall t | t in groups :: groups[t] == ThreadMessages(messages[..n], t))
    && order == FirstSeen(messages[..n])
    && (forall t :: t in order <==> t in groups)
    && (forall a, b | 0 <= a < b < |order| :: order[a] != order[b])
  }

  lemma ThreadIdsPrefix(messages: seq<Message>, n: nat)
    requires n < |messages|
    ensures ThreadIds(messages[..n + 1]) == ThreadIds(messages[..n]) + {messages[n].threadId}
  {
    var longer := messages[..n + 1];
    forall x | x in ThreadIds(messages[..n]) ensures x in ThreadIds(longer) {
      var k :| 0 <= k < n && messages[..n][k].threadId == x;
      assert longer[k].threadId == x;
    }
    forall x | x in ThreadIds(longer) ensures x in ThreadIds(messages[..n]) || x == messages[n].threadId {
      var k :| 0 <= k <= n && longer[k].threadId == x;
      assert k < n ==> messages[..n][k].threadId == x;
    }
    assert longer[n] == messages[n];
  }

  lemma GroupOne(messages: seq<Message>, n: nat, groups: map<string, seq<Message>>, order: seq<string>)
    requires n < |messages| && Grouped(messages, n, groups, order)
    ensures var m := messages[n];
      var known := if m.threadId in groups then groups[m.threadId] else [];
      Grouped(messages, n + 1, groups[m.threadId := known + [m]],
              if m.threadId in groups then order else order + [m.threadId])
  {
    hide ThreadIds, ThreadMessages, FirstSeen;
    var m := messages[n];
    assert messages[..n + 1] == messages[..n] + [m];
    ThreadIdsPrefix(messages, n);
    NoMessagesOf(messages[..n], m.threadId);
    FirstSeenOneMore(messages[..n], m);
    var known := if m.threadId in groups then groups[m.threadId] else [];
    var grown := groups[m.threadId := known + [m]];
    forall t | t in grown ensures grown[t] == ThreadMessages(messages[..n + 1], t) {
      ThreadMessagesOneMore(messages[..n], m, t);
      assert ThreadMessages(messages[..n], t) + [] == ThreadMessages(messages[..n], t);
    }
  }

  lemma ThreadMessagesOneMore(messages: seq<Message>, m: Message, threadId: string)
    ensures ThreadMessages(messages + [m], threadId)
      == ThreadMessages(messages, threadId) + (if m.threadId == threadId then [m] else [])
  {
    assert (messages + [m])[..|messages|] == messages;
  }

  lemma FirstSeenOneMore(messages: seq<Message>, m: Message)
    ensures FirstSeen(messages + [m])
      == FirstSeen(messages) + (if m.threadId in ThreadIds(messages) then [] else [m.threadId])
  {
    hide ThreadIds;
    assert (messages + [m])[..|messages|] == messages;
  }

  lemma {:induction false} NoMessagesOf(messages: seq<Message>, threadId: string)
    ensures ThreadMessages(messages, threadId) == [] <==> threadId !in ThreadIds(messages)
  {
    if messages != [] {
      var n := |messages| - 1;
      NoMessagesOf(messages[..n], threadId);
      assert messages == messages[..n] + [messages[n]];
      forall x | x in ThreadIds(messages[..n]) ensures x in ThreadIds(messages) {
        var k :| 0 <= k < n && messages[..n][k].threadId == x;
        assert messages[k].threadId == x;
      }
      forall x | x in ThreadIds(messages) ensures x in ThreadIds(messages[..n]) || x == messages[n].threadId {
        var k :| 0 <= k < |messages| && messages[k].threadId == x;
        assert k < n ==> messages[..n][k].threadId == x;
      }
    }
  }

  method GroupByThread(messages: seq<Message>) returns (groups: map<string, seq<Message>>, order: seq<string>)
    ensures Grouped(messages, |messages|, groups, order)
  {
    groups, order := map[], [];
    for n := 0 to |messages|
      invariant Grouped(messages, n, groups, order)
    {
      var m := messages[n];
      GroupOne(messages, n, groups, order);
      var known := if m.threadId in groups then groups[m.threadId] else [];
      if m.threadId !in groups {
        order := order + [m.threadId];
      }
      groups := groups[m.threadId := known + [m]];
    }
  }

  /** The lines of the threads of `order`. */
  function Lines(messages: seq<Message>, order: seq<string>, viewer: Actor, filter: Option<Filter>): seq<Summary> {
    if order == [] then []
    else
      var n := |order| - 1;
      var shown := Shown(ThreadMessages(messages, order[n]), order[n], viewer, filter);
      Lines(messages, order[..n], viewer, filter) + (if shown.Some? then [shown.value] else [])
  }

  /** The lines that are due for a summary: one if it is the line of its thread. */
  function Due(messages: seq<Message>, s: Summary, viewer: Actor, filter: Option<Filter>): nat {
    if Shown(ThreadMessages(messages, s.threadId), s.threadId, viewer, filter) == Some(s) then 1 else 0
  }

  lemma CountOneMore(lines: seq<Summary>, line: Option<Summary>, s: Summary)
    ensures multiset(lines + (if line.Some? then [line.value] else []))[s]
      == multiset(lines)[s] + (if line == Some(s) then 1 else 0)
  {
    assert line.None? ==> lines + [] == lines;
  }

  lemma NoLinesOrOneMore(messages: seq<Message>, order: seq<string>, viewer: Actor, filter: Option<Filter>)
    ensures order == [] ==> Lines(messages, order, viewer, filter) == []
    ensures order != [] ==>
      var n := |order| - 1;
      var shown := Shown(ThreadMessages(messages, order[n]), order[n], viewer, filter);
      Lines(messages, order, viewer, filter)
        == Lines(messages, order[..n], viewer, filter) + (if shown.Some? then [shown.value] else [])
  {
    hide Shown, ThreadMessages;
  }

  /** Each thread of `order` has its one line, if any. */
  lemma {:induction false} LinesAre(messages: seq<Message>, order: seq<string>, viewer: Actor, filter: Option<Filter>, s: Summary)
    requires forall a, b | 0 <= a < b < |order| :: order[a] != order[b]
    ensures multiset(Lines(messages, order, viewer, filter))[s]
      == if s.threadId in order then Due(messages, s, viewer, filter) else 0
  {
    hide Shown, Lines, ThreadMessages, ThreadIds;
    NoLinesOrOneMore(messages, order, viewer, filter);
    if order != [] {
      var n := |order| - 1;
      LinesAre(messages, order[..n], viewer, filter, s);
      CountOneMore(Lines(messages, order[..n], viewer, filter),
                   Shown(ThreadMessages(messages, order[n]), order[n], viewer, filter), s);
      ShownHasItsId(messages, order[n], viewer, filter);
      InOrder(order, s.threadId);
    }
  }

  lemma InOrder(order: seq<string>, threadId: string)
    requires order != [] && forall a, b | 0 <= a < b < |order| :: order[a] != order[b]
    ensures var n := |order| - 1;
      && (threadId in order <==> threadId in order[..n] || threadId == order[n])
      && order[n] !in order[..n]
  {
  }

  lemma ShownHasItsId(messages: seq<Message>, threadId: string, viewer: Actor, filter: Option<Filter>)
    ensures var shown := Shown(ThreadMessages(messages, threadId), threadId, viewer, filter);
      shown.Some? ==> shown.value.threadId == threadId && threadId in ThreadIds(messages)
  {
    NoMessagesOf(messages, threadId);
    hide Matches;
  }

  /** Summarise, in order, the groups the viewer may see. */
  method SummarizeGroups(groups: map<string, seq<Message>>, order: seq<string>, viewer: Actor, filter: Option<Filter>,
                         ghost messages: seq<Message>)
    returns (summaries: seq<Summary>)
    requires forall t | t in order :: t in groups && groups[t] == ThreadMessages(messages, t)
    ensures summaries == Lines(messages, order, viewer, filter)
  {
    summaries := [];
    for n := 0 to |order|
      invariant summaries == Lines(messages, order[..n], viewer, filter)
    {
      assert order[..n + 1][..n] == order[..n];
      var summary := SummaryOf(groups[order[n]], order[n], viewer);
      if summary.Some? && Matches(filter, groups[order[n]], summary.value) {
        summaries := summaries + [summary.value];
      }
    }
    assert order[..|order|] == order;
  }

  function UpdatedAt(): Summary -> int {
    (s: Summary) => s.updatedAt
  }

  /** `summarizeThreads`: group the messages by thread, summarise each thread that the viewer may
      see and the filter lets through, and put the newest activity first. */
  method SummarizeThreads(j: Journal, viewer: Actor, filter: Option<Filter>) returns (summaries: seq<Summary>)
    requires Valid(j)
    ensures forall s :: multiset(summaries)[s] == Due(j.messages, s, viewer, filter)
    ensures forall s | s in summaries :: GetThread(j, s.threadId, viewer).Some?
    ensures Descending(summaries, UpdatedAt())
    ensures var lines := Lines(j.messages, FirstSeen(j.messages), viewer, filter);
      forall at :: WithKey(summaries, UpdatedAt(), at) == WithKey(lines, UpdatedAt(), at)
  {
    hide Shown, Lines, SortDescending, Descending, WithKey, ThreadMessages, GetThread, Valid, FirstSeen;
    var groups, order := GroupByThread(j.messages);
    assert j.messages[..|j.messages|] == j.messages;
    var lines := SummarizeGroups(groups, order, viewer, filter, j.messages);
    SortIsStablePermutation(lines, UpdatedAt());
    summaries := SortDescending(lines, UpdatedAt());
    forall s ensures multiset(summaries)[s] == Due(j.messages, s, viewer, filter) {
      LinesAre(j.messages, order, viewer, filter, s);
      ShownHasItsId(j.messages, s.threadId, viewer, filter);
    }
    forall s | s in summaries ensures GetThread(j, s.threadId, viewer).Some? {
      assert multiset(summaries)[s] > 0;
      ShownMayBeRead(j, s, viewer, filter);
    }
  }

  lemma ShownMayBeRead(j: Journal, s: Summary, viewer: Actor, filter: Option<Filter>)
    requires Valid(j)
    ensures Shown(ThreadMessages(j.messages, s.threadId), s.threadId, viewer, filter).Some?
      ==> GetThread(j, s.threadId, viewer).Some?
  {
    ListAndViewAgree(j, s.threadId, viewer);
  }

  // ---------------------------------------------------------------- what a line says

  function PlacesOf(messages: seq<Message>, threadId: string): set<nat> {
    set k: nat | k < |messages| && messages[k].threadId == threadId
  }

  function UnreadPlaces(messages: seq<Message>, threadId: string, viewer: Actor): set<nat> {
    set k: nat | k < |messages| && messages[k].threadId == threadId
      && messages[k].to == viewer && messages[k].delivery.readAt.None?
  }

  /** `f` and `l` are the places of the thread's first and last message. */
  ghost predicate Ends(messages: seq<Message>, threadId: string, f: nat, l: nat) {
    && f <= l < |messages| && messages[f].threadId == threadId && messages[l].threadId == threadId
    && (forall k | 0 <= k < f || l < k < |messages| :: messages[k].threadId != threadId)
  }

  /** What a line says of a thread: the two actors and the time of its first message, the beginning of
      the last one's body with that one's intent, state and time, and how many messages it has, and
      how many that the viewer has not read. */
  ghost predicate LineSays(messages: seq<Message>, threadId: string, viewer: Actor, f: nat, l: nat, s: Summary)
    requires f <= l < |messages|
  {
    && s.threadId == threadId
    && s.first == messages[f].from && s.second == messages[f].to && s.createdAt == messages[f].createdAt
    && s.excerpt <= messages[l].content.body
    && |s.excerpt| == (if |messages[l].content.body| < EXCERPT_LENGTH then |messages[l].content.body| else EXCERPT_LENGTH)
    && s.intent == messages[l].intent && s.state == messages[l].delivery.state && s.updatedAt == messages[l].createdAt
    && s.messageCount == |PlacesOf(messages, threadId)|
    && s.unreadCount == |UnreadPlaces(messages, threadId, viewer)|
  }

  /** The query is found in the thread's id, in the body of one of its messages, or in the name of one
      of its two actors. */
  ghost predicate QueryFound(messages: seq<Message>, threadId: string, f: nat, found: Filter)
    requires f < |messages|
  {
    || found(threadId) || found(ActorKey(messages[f].from)) || found(ActorKey(messages[f].to))
    || exists k: nat :: BodyAt(messages, threadId, found, k)
  }

  ghost predicate BodyAt(messages: seq<Message>, threadId: string, found: Filter, k: nat) {
    k < |messages| && messages[k].threadId == threadId && found(messages[k].content.body)
  }

  lemma OneMorePlace(messages: seq<Message>, threadId: string, viewer: Actor)
    requires messages != []
    ensures var n := |messages| - 1; var m := messages[n];
      && PlacesOf(messages, threadId) == PlacesOf(messages[..n], threadId) + (if m.threadId == threadId then {n} else {})
      && UnreadPlaces(messages, threadId, viewer) == UnreadPlaces(messages[..n], threadId, viewer)
         + (if m.threadId == threadId && Unread(m, viewer) then {n} else {})
      && n !in PlacesOf(messages[..n], threadId) && n !in UnreadPlaces(messages[..n], threadId, viewer)
  {
    var n := |messages| - 1;
    assert forall k | 0 <= k < n :: messages[..n][k] == messages[k];
  }

  lemma NoPlaces(messages: seq<Message>, threadId: string, viewer: Actor)
    requires messages == []
    ensures PlacesOf(messages, threadId) == {} && UnreadPlaces(messages, threadId, viewer) == {}
  {
  }

  lemma CountsAdd(thread: seq<Message>, m: Message, viewer: Actor)
    ensures CountUnread(thread + [m], viewer) == CountUnread(thread, viewer) + if Unread(m, viewer) then 1 else 0
  {
    assert (thread + [m])[..|thread|] == thread;
  }

  lemma {:induction false} CountsAreSizes(messages: seq<Message>, threadId: string, viewer: Actor)
    ensures |ThreadMessages(messages, threadId)| == |PlacesOf(messages, threadId)|
    ensures CountUnread(ThreadMessages(messages, threadId), viewer) == |UnreadPlaces(messages, threadId, viewer)|
  {
    hide PlacesOf, UnreadPlaces, CountUnread, Unread;
    if messages == [] {
      NoPlaces(messages, threadId, viewer);
      NothingCounted(viewer, ThreadMessages(messages, threadId));
    } else {
      var n := |messages| - 1;
      CountsAreSizes(messages[..n], threadId, viewer);
      OneMorePlace(messages, threadId, viewer);
      CountsAdd(ThreadMessages(messages[..n], threadId), messages[n], viewer);
      assert ThreadMessages(messages[..n], threadId) + [] == ThreadMessages(messages[..n], threadId);
    }
  }

  lemma NothingCounted(viewer: Actor, messages: seq<Message>)
    requires messages == []
    ensures CountUnread(messages, viewer) == 0
  {
  }

  lemma {:induction false} ThreadEnds(messages: seq<Message>, threadId: string, f: nat, l: nat)
    requires Ends(messages, threadId, f, l)
    ensures var thread := ThreadMessages(messages, threadId);
      thread != [] && thread[0] == messages[f] && thread[|thread| - 1] == messages[l]
  {
    var n := |messages| - 1;
    var before := messages[..n];
    assert forall k | 0 <= k < n :: before[k] == messages[k];
    if l < n {
      ThreadEnds(before, threadId, f, l);
    } else if f < l {
      var last := LastBefore(messages, threadId, f, l);
      ThreadEnds(before, threadId, f, last);
    } else {
      NoMessagesOf(before, threadId);
      assert threadId !in ThreadIds(before);
    }
  }

  lemma LastBefore(messages: seq<Message>, threadId: string, f: nat, l: nat) returns (last: nat)
    requires f < l < |messages| && messages[f].threadId == threadId
    ensures f <= last < l && messages[last].threadId == threadId
    ensures forall k | last < k < l :: messages[k].threadId != threadId
  {
    last := l - 1;
    while messages[last].threadId != threadId
      invariant f <= last < l
      invariant forall k | last < k < l :: messages[k].threadId != threadId
      decreases last
    {
      last := last - 1;
    }
  }

  lemma BodyIsFound(messages: seq<Message>, threadId: string, found: Filter)
    ensures Quotes(ThreadMessages(messages, threadId), found) <==> exists k: nat :: BodyAt(messages, threadId, found, k)
  {
    var thread := ThreadMessages(messages, threadId);
    ThreadMessagesAre(messages, threadId);
    hide ThreadMessages;
    if k: nat :| BodyAt(messages, threadId, found, k) {
      assert messages[k] in thread;
      var q :| 0 <= q < |thread| && thread[q] == messages[k];
      assert Quotes(thread, found);
    }
    if Quotes(thread, found) {
      var q :| 0 <= q < |thread| && found(thread[q].content.body);
      assert thread[q] in messages;
      var k: nat :| k < |messages| && messages[k] == thread[q];
      assert BodyAt(messages, threadId, found, k);
    }
  }

  lemma SummarySays(messages: seq<Message>, threadId: string, viewer: Actor, f: nat, l: nat)
    requires Ends(messages, threadId, f, l)
    ensures var summary := SummaryOf(ThreadMessages(messages, threadId), threadId, viewer);
      && (summary.Some? <==> viewer.Operator? || viewer == messages[f].from || viewer == messages[f].to)
      && (summary.Some? ==> LineSays(messages, threadId, viewer, f, l, summary.value))
  {
    ThreadEnds(messages, threadId, f, l);
    CountsAreSizes(messages, threadId, viewer);
    hide ThreadMessages, PlacesOf, UnreadPlaces, CountUnread, Ends;
  }

  /** A line is due for a thread exactly when the viewer takes part in it, or is the operator, and the
      query, if there is one, is found; and it says what it should. */
  lemma LineIsRight(messages: seq<Message>, threadId: string, viewer: Actor, filter: Option<Filter>, f: nat, l: nat)
    requires Ends(messages, threadId, f, l)
    ensures var shown := Shown(ThreadMessages(messages, threadId), threadId, viewer, filter);
      && (shown.Some? <==>
            && (viewer.Operator? || viewer == messages[f].from || viewer == messages[f].to)
            && (filter.Some? ==> QueryFound(messages, threadId, f, filter.value)))
      && (shown.Some? ==> LineSays(messages, threadId, viewer, f, l, shown.value))
  {
    SummarySays(messages, threadId, viewer, f, l);
    hide ThreadMessages, SummaryOf, ActorKey, Ends;
    if filter.Some? {
      BodyIsFound(messages, threadId, filter.value);
    }
  }

  // ---------------------------------------------------------------- reading the inbox

  lemma {:induction false} UnreadAfterRewrite(before: seq<Message>, after: seq<Message>, actor: Actor)
    requires |after| == |before|
    requires forall k | 0 <= k < |before| :: Unread(after[k], actor) == Unread(before[k], actor)
    ensures CountUnread(after, actor) == CountUnread(before, actor)
  {
    if before != [] {
      UnreadAfterRewrite(before[..|before| - 1], after[..|after| - 1], actor);
    }
  }

  lemma {:induction false} NothingUnread(messages: seq<Message>, actor: Actor)
    requires forall k | 0 <= k < |messages| :: !Unread(messages[k], actor)
    ensures CountUnread(messages, actor) == 0
  {
    if messages != [] {
      NothingUnread(messages[..|messages| - 1], actor);
    }
  }

  /** Reading an inbox leaves its owner nothing unread and everyone else's count as it was. */
  lemma ReadingInboxSettlesIt(j: Journal, r: Request, other: Actor)
    requires Valid(j) && r.ReadInbox? && other != r.actor
    ensures var after := After(j, UpdateJournal(j, None, MutateInbox(r, j)));
      && CountUnread(after.messages, r.actor) == 0
      && CountUnread(after.messages, other) == CountUnread(j.messages, other)
  {
    var after := After(j, UpdateJournal(j, None, MutateInbox(r, j)));
    var matching := MatchingIds(j.messages, r.actor, r.unreadOnly);
    forall k | 0 <= k < |j.messages|
      ensures Unread(j.messages[k], r.actor) ==> j.messages[k].id in matching
      ensures j.messages[k].id in matching ==> j.messages[k].to == r.actor
    {
      if j.messages[k].id in matching {
        var q :| 0 <= q < |j.messages| && j.messages[q].to == r.actor && j.messages[q].id == j.messages[k].id;
        IdsIdentify(j.messages, k, q);
      }
    }
    NothingUnread(after.messages, r.actor);
    UnreadAfterRewrite(j.messages, after.messages, other);
  }
}
