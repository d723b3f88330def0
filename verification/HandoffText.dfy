/** What the pieces of a compact handoff say: its texts keep their words, its newest notes and its
    latest failed test come first, and its limits are the tightest of those configured. */
module HandoffText {
  import opened Wrappers
  import opened StableSort
  import opened Handoff
  import CivilDates

  // ---------------------------------------------------------------- compacting keeps the words

  /** The finished words of a text and the unfinished one at its end. */
  datatype Split = Split(words: seq<Text>, last: Text)

  function ReadUnit(s: Split, u: Unit): Split {
    if !IsSpace(u) then Split(s.words, s.last + [u])
    else if s.last == [] then s
    else Split(s.words + [s.last], [])
  }

  function SplitOf(t: Text): Split {
    if t == [] then Split([], []) else ReadUnit(SplitOf(t[..|t| - 1]), t[|t| - 1])
  }

  /** The stretches of a text between white space. */
  function Words(t: Text): seq<Text> {
    var s := SplitOf(t);
    if s.last == [] then s.words else s.words + [s.last]
  }

  lemma SplitOneMore(t: Text, u: Unit)
    ensures SplitOf(t + [u]) == ReadUnit(SplitOf(t), u)
  {
    assert (t + [u])[..|t|] == t;
  }

  /** Behind white space no word is unfinished. */
  lemma NothingUnfinished(t: Text)
    requires t != [] && IsSpace(t[|t| - 1])
    ensures SplitOf(t).last == []
  {
  }

  lemma {:induction false} CollapseKeepsSplit(t: Text)
    ensures SplitOf(Collapse(t)) == SplitOf(t)
  {
    if t != [] {
      var n := |t| - 1;
      var before := Collapse(t[..n]);
      CollapseKeepsSplit(t[..n]);
      CollapseOne(t);
      SplitOneMore(before, t[n]);
      SplitOneMore(before, SPACE);
      if Collapse(t) == before && EndsInSpace(before) && IsSpace(t[n]) {
        NothingUnfinished(before);
      }
      hide Collapse;
    }
  }

  lemma {:induction false} TrimEndKeepsWords(t: Text)
    ensures Words(TrimEnd(t)) == Words(t)
  {
    if t != [] && IsSpace(t[|t| - 1]) {
      TrimEndKeepsWords(t[..|t| - 1]);
    }
  }

  lemma {:induction false} LeadingSpaceIsSkipped(u: Unit, t: Text)
    requires IsSpace(u)
    ensures SplitOf([u] + t) == SplitOf(t)
  {
    if t == [] {
      assert [u] + t == [] + [u];
      SplitOneMore([], u);
    } else {
      var n := |t| - 1;
      LeadingSpaceIsSkipped(u, t[..n]);
      assert ([u] + t)[..|t|] == [u] + t[..n];
    }
  }

  lemma {:induction false} TrimStartKeepsWords(t: Text)
    ensures Words(TrimStart(t)) == Words(t)
  {
    if t != [] && IsSpace(t[0]) {
      TrimStartKeepsWords(t[1..]);
      LeadingSpaceIsSkipped(t[0], t[1..]);
      assert [t[0]] + t[1..] == t;
    }
  }

  /** White space stands alone, as single spaces between words. */
  ghost predicate Tidy(t: Text) {
    && (forall k | 0 <= k < |t| && IsSpace(t[k]) :: t[k] == SPACE)
    && (forall k | 0 <= k < |t| - 1 :: !(IsSpace(t[k]) && IsSpace(t[k + 1])))
  }

  ghost predicate Trimmed(t: Text) {
    t != [] ==> !IsSpace(t[0]) && !IsSpace(t[|t| - 1])
  }

  lemma {:induction false} CollapsedIsTidy(t: Text)
    ensures Tidy(Collapse(t))
  {
    if t != [] {
      CollapsedIsTidy(t[..|t| - 1]);
    }
  }

  lemma {:induction false} TrimmedEnd(t: Text)
    requires Tidy(t)
    ensures Tidy(TrimEnd(t)) && (TrimEnd(t) != [] ==> !IsSpace(TrimEnd(t)[|TrimEnd(t)| - 1]))
  {
    if t != [] && IsSpace(t[|t| - 1]) {
      TrimmedEnd(t[..|t| - 1]);
    }
  }

  lemma {:induction false} TrimmedStart(t: Text)
    requires Tidy(t) && (t != [] ==> !IsSpace(t[|t| - 1]))
    ensures Tidy(TrimStart(t)) && Trimmed(TrimStart(t))
  {
    if t != [] && IsSpace(t[0]) {
      assert forall k | 0 <= k < |t| - 1 :: t[1..][k] == t[k + 1];
      TrimmedStart(t[1..]);
    }
  }

  /** A compacted text has the same words, one space between each two of them, and nothing around. */
  lemma CompactKeepsWords(t: Text)
    ensures Words(Compact(t)) == Words(t) && Tidy(Compact(t)) && Trimmed(Compact(t))
  {
    hide Words, TrimEnd, TrimStart, Collapse, Tidy, Trimmed;
    CollapseKeepsSplit(t);
    SameSplitSameWords(Collapse(t), t);
    TrimEndKeepsWords(Collapse(t));
    TrimStartKeepsWords(TrimEnd(Collapse(t)));
    CollapsedIsTidy(t);
    TrimmedEnd(Collapse(t));
    TrimmedStart(TrimEnd(Collapse(t)));
  }

  lemma SameSplitSameWords(a: Text, b: Text)
    requires SplitOf(a) == SplitOf(b)
    ensures Words(a) == Words(b)
  {
  }

  // ---------------------------------------------------------------- truncating drops little

  lemma {:induction false} TrimEndDropsSpace(t: Text)
    ensures forall k | |TrimEnd(t)| <= k < |t| :: IsSpace(t[k])
  {
    if t != [] && IsSpace(t[|t| - 1]) {
      TrimEndDropsSpace(t[..|t| - 1]);
    }
  }

  /** A text that is too long keeps all but its last place, where the ellipsis stands, but for white
      space before the ellipsis and the first half of a pair that would be cut. */
  lemma TruncateKeepsMost(t: Text, max: nat) returns (kept: nat)
    requires |t| > max >= 1
    ensures kept < max && Truncate(t, max) == t[..kept] + [ELLIPSIS]
    ensures forall k | kept <= k < max - 1 :: IsSpace(t[k]) || (k == max - 2 && High(t[k]))
  {
    kept := |Truncate(t, max)| - 1;
    if max == 1 {
      assert t[..0] + [ELLIPSIS] == [ELLIPSIS];
    } else {
      var end := if High(t[max - 2]) then max - 2 else max - 1;
      TrimEndDropsSpace(t[..end]);
      assert TrimEnd(t[..end]) == t[..kept];
      assert forall k | 0 <= k < end :: t[..end][k] == t[k];
    }
  }

  // ---------------------------------------------------------------- the latest failed test

  ghost predicate LatestFailedAt(tests: seq<Test>, k: nat) {
    k < |tests| && tests[k].failed && forall q | k < q < |tests| :: !tests[q].failed
  }

  /** The test shown is the last of the failed ones; none is shown exactly when none has failed. */
  lemma {:induction false} LatestFailedIsShown(tests: seq<Test>)
    ensures LastFailed(tests).None? <==> forall k | 0 <= k < |tests| :: !tests[k].failed
    ensures LastFailed(tests).Some? ==> exists k: nat :: LatestFailedAt(tests, k) && tests[k] == LastFailed(tests).value
  {
    if tests != [] {
      var n := |tests| - 1;
      if tests[n].failed {
        assert LatestFailedAt(tests, n);
      } else {
        LatestFailedIsShown(tests[..n]);
        assert forall k | 0 <= k < n :: tests[..n][k] == tests[k];
        if LastFailed(tests).Some? {
          var k: nat :| LatestFailedAt(tests[..n], k) && tests[..n][k] == LastFailed(tests[..n]).value;
          assert LatestFailedAt(tests, k);
        }
      }
    }
  }

  // ---------------------------------------------------------------- newest notes first

  function ByTime(): Note -> int {
    (note: Note) => note.createdAt
  }

  function NotesOf(notes: seq<Note>, kind: Kind): seq<Note> {
    if notes == [] then []
    else
      var n := |notes| - 1;
      NotesOf(notes[..n], kind) + (if notes[n].kind == kind then [notes[n]] else [])
  }

  lemma {:induction false} ItemsAreNotes(notes: seq<Note>, kind: Kind)
    ensures |ItemsOf(notes, kind)| == |NotesOf(notes, kind)|
    ensures forall k | 0 <= k < |ItemsOf(notes, kind)| :: ItemsOf(notes, kind)[k] == FormatNote(NotesOf(notes, kind)[k])
  {
    hide FormatNote;
    if notes != [] {
      ItemsAreNotes(notes[..|notes| - 1], kind);
    }
  }

  lemma {:induction false} NotesOfAre(notes: seq<Note>, kind: Kind)
    ensures forall note :: note in NotesOf(notes, kind) <==> note in notes && note.kind == kind
  {
    if notes != [] {
      var n := |notes| - 1;
      NotesOfAre(notes[..n], kind);
      assert notes == notes[..n] + [notes[n]];
    }
  }

  lemma {:induction false} NotesStayInOrder(notes: seq<Note>, kind: Kind)
    requires Descending(notes, ByTime())
    ensures Descending(NotesOf(notes, kind), ByTime())
  {
    if notes != [] {
      var n := |notes| - 1;
      NotesStayInOrder(notes[..n], kind);
      NotesOfAre(notes[..n], kind);
      var before := NotesOf(notes[..n], kind);
      forall k | 0 <= k < |before| ensures before[k].createdAt >= notes[n].createdAt {
        assert before[k] in notes[..n];
      }
    }
  }

  lemma {:induction false} UnresolvedAre(notes: seq<Note>)
    ensures forall note :: note in Unresolved(notes) <==> note in notes && !note.resolved
  {
    if notes != [] {
      var n := |notes| - 1;
      UnresolvedAre(notes[..n]);
      assert notes == notes[..n] + [notes[n]];
    }
  }

  /** The items of a kind are its unresolved notes, formatted, from the newest to the oldest. */
  lemma ItemsAreNewestFirst(notes: seq<Note>, kind: Kind)
    ensures var shown := NotesOf(Listed(notes), kind);
      && |ItemsOf(Listed(notes), kind)| == |shown|
      && (forall k | 0 <= k < |shown| :: ItemsOf(Listed(notes), kind)[k] == FormatNote(shown[k]))
      && (forall note :: note in shown <==> note in notes && !note.resolved && note.kind == kind)
      && (forall j, k | 0 <= j < k < |shown| :: shown[j].createdAt >= shown[k].createdAt)
  {
    var unresolved := Unresolved(notes);
    ListedIs(notes);
    UnresolvedAre(notes);
    NotesOfAre(Listed(notes), kind);
    ItemsAreNotes(Listed(notes), kind);
    NotesStayInOrder(Listed(notes), kind);
    hide Listed, Unresolved, NotesOf, ItemsOf, FormatNote, Descending;
    assert Descending(NotesOf(Listed(notes), kind), ByTime());
    DescendingTimes(NotesOf(Listed(notes), kind));
  }

  lemma DescendingTimes(notes: seq<Note>)
    requires Descending(notes, ByTime())
    ensures forall j, k | 0 <= j < k < |notes| :: notes[j].createdAt >= notes[k].createdAt
  {
    assert forall k | 0 <= k < |notes| :: ByTime()(notes[k]) == notes[k].createdAt;
  }

  lemma ListedIs(notes: seq<Note>)
    ensures Descending(Listed(notes), ByTime())
    ensures forall note :: note in Listed(notes) <==> note in Unresolved(notes)
  {
    SortIsStablePermutation(Unresolved(notes), ByTime());
    assert Listed(notes) == SortDescending(Unresolved(notes), ByTime());
    hide SortDescending, Unresolved, Descending;
    forall note ensures note in Listed(notes) <==> note in Unresolved(notes) {
      assert note in Listed(notes) <==> note in multiset(Listed(notes));
      assert note in Unresolved(notes) <==> note in multiset(Unresolved(notes));
    }
  }

  // ---------------------------------------------------------------- the blocks

  const CONTINUATION_TITLES: seq<string> := ["Next", "Blocked", "Avoid", "Decision", "Question"]

  /** The kinds that have more than `n` items, in their order. */
  function KindsWith(notes: seq<Note>, kinds: seq<Kind>, n: nat): seq<Kind> {
    if kinds == [] then []
    else
      var last := |kinds| - 1;
      KindsWith(notes, kinds[..last], n) + (if |ItemsOf(notes, kinds[last])| > n then [kinds[last]] else [])
  }

  /** One block for each kind that has a note, with its newest one; it must say something for next
      steps and blockers. */
  ghost predicate FirstBlocksRight(notes: seq<Note>, kinds: seq<Kind>, blocks: seq<Block>) {
    && |blocks| == |kinds|
    && forall b | 0 <= b < |blocks| ::
         && |ItemsOf(notes, kinds[b])| > 0
         && blocks[b].title == Title(kinds[b]) && blocks[b].items == [ItemsOf(notes, kinds[b])[0]]
         && (blocks[b].mandatory <==> kinds[b] == Next || kinds[b] == Blocker)
  }

  /** One block for each kind that has more notes, with the others, which may be left out. */
  ghost predicate RestBlocksRight(notes: seq<Note>, kinds: seq<Kind>, blocks: seq<Block>) {
    && |blocks| == |kinds|
    && forall b | 0 <= b < |blocks| ::
         && |ItemsOf(notes, kinds[b])| > 1
         && blocks[b].title == Title(kinds[b]) && blocks[b].items == ItemsOf(notes, kinds[b])[1..]
         && !blocks[b].mandatory
  }

  lemma {:induction false} NewestBlocksRight(notes: seq<Note>, kinds: seq<Kind>)
    ensures FirstBlocksRight(notes, KindsWith(notes, kinds, 0), FirstBlocks(notes, kinds))
  {
    hide ItemsOf, Title;
    if kinds != [] {
      NewestBlocksRight(notes, kinds[..|kinds| - 1]);
    }
  }

  lemma {:induction false} OtherBlocksRight(notes: seq<Note>, kinds: seq<Kind>)
    ensures RestBlocksRight(notes, KindsWith(notes, kinds, 1), RestBlocks(notes, kinds))
  {
    hide ItemsOf, Title;
    if kinds != [] {
      OtherBlocksRight(notes, kinds[..|kinds| - 1]);
    }
  }

  lemma TitlesAre()
    ensures |CONTINUATION_TITLES| == |CONTINUATION_KINDS|
    ensures forall k | 0 <= k < |CONTINUATION_KINDS| :: Title(CONTINUATION_KINDS[k]) == Units(CONTINUATION_TITLES[k])
  {
    hide Units;
  }

  /** A handoff lists first the newest note of each kind, then the others of each kind, both in the
      order of the kinds, and then the latest failed test. */
  lemma BlocksAre(capsule: Capsule) returns (first: seq<Block>, rest: seq<Block>, test: seq<Block>)
    ensures BlocksOf(capsule) == first + rest + test
    ensures var notes := Listed(capsule.notes);
      && FirstBlocksRight(notes, KindsWith(notes, CONTINUATION_KINDS, 0), first)
      && RestBlocksRight(notes, KindsWith(notes, CONTINUATION_KINDS, 1), rest)
    ensures LastFailed(capsule.tests).None? ==> test == []
    ensures LastFailed(capsule.tests).Some? ==>
      test == [Block(Units("Test"), [TestItem(LastFailed(capsule.tests).value)], false)]
  {
    var notes := Listed(capsule.notes);
    NewestBlocksRight(notes, CONTINUATION_KINDS);
    OtherBlocksRight(notes, CONTINUATION_KINDS);
    first, rest, test := FirstBlocks(notes, CONTINUATION_KINDS), RestBlocks(notes, CONTINUATION_KINDS), TestBlocks(capsule.tests);
    hide FirstBlocks, RestBlocks, KindsWith, Listed, LastFailed, TestItem, Units, FirstBlocksRight, RestBlocksRight;
  }

  // ---------------------------------------------------------------- items

  /** A note is its text, a dash and its reason if it has one, and a mark if it is out of date. */
  lemma NoteReads(note: Note)
    ensures Compact(note.text) <= FormatNote(note)
    ensures var behind := FormatNote(note)[|Compact(note.text)|..];
      var reason := note.reason.GetOr([]);
      && (reason == [] && note.freshness.Current? ==> behind == [])
      && (reason == [] && note.freshness.Changed? ==> behind == Units(" [changed]"))
      && (reason == [] && note.freshness.Diverged? ==> behind == Units(" [diverged]"))
      && (reason != [] && note.freshness.Current? ==> behind == [0x20, 0x2014, 0x20] + Compact(reason))
      && (reason != [] && note.freshness.Changed? ==> behind == [0x20, 0x2014, 0x20] + Compact(reason) + Units(" [changed]"))
      && (reason != [] && note.freshness.Diverged? ==> behind == [0x20, 0x2014, 0x20] + Compact(reason) + Units(" [diverged]"))
  {
    hide Compact;
    assert Units(" ") == [0x20];
    hide Units;
    var text, reason, mark := Compact(note.text), Reason(note.reason), Mark(note.freshness);
    assert FormatNote(note) == text + (reason + mark);
    assert reason != [] ==> reason == [0x20, 0x2014, 0x20] + Compact(note.reason.value);
    assert [] + mark == mark && reason + [] == reason;
  }

  /** A failed test is named with its command, and with its summary if it has one. */
  lemma TestReads(test: Test)
    ensures var summary := test.summary.GetOr([]);
      TestItem(test) == Units("failed ") + Compact(test.command)
        + (if summary == [] then [] else [0x20, 0x2014, 0x20] + Compact(summary))
  {
    hide Compact;
    assert Units(" ") == [0x20];
    hide Units;
    assert Reason(test.summary) == if test.summary.GetOr([]) == [] then [] else [0x20, 0x2014, 0x20] + Compact(test.summary.value);
  }

  // ---------------------------------------------------------------- limits

  /** The limits are the tightest of those configured: they respect each, and are one of them. */
  lemma LimitsAreTightest(config: Config)
    ensures var tokens := EffectiveTokens(config);
      && tokens <= config.maxTokens && tokens <= config.targetTokens
      && (tokens == config.maxTokens || tokens == config.targetTokens)
    ensures var characters := EffectiveCharacters(config);
      && characters <= config.maxCharacters && characters <= config.targetCharacters
      && characters <= 4 * EffectiveTokens(config)
      && (characters == config.maxCharacters || characters == config.targetCharacters
          || characters == 4 * EffectiveTokens(config))
  {
  }

  // ---------------------------------------------------------------- the head

  /** What stands below the task line. */
  function BelowTask(capsule: Capsule): Text {
    SEPARATOR + GitAnchor(capsule) + SEPARATOR + SAFETY
  }

  /** Whenever there is room for more than them, the Git anchor and the safety line stand whole below a
      task line. The task line is the whole request, up to seven tenths of the limit, if that has room,
      and otherwise as much of it as has. */
  lemma HeadKeepsAnchor(capsule: Capsule, limit: nat)
    ensures var below := BelowTask(capsule);
      var request := Compact(capsule.request);
      var line := Units("Task: ") + Truncate(request, 7 * limit / 10);
      && (|line| + |below| <= limit ==> Mandatory(capsule, limit) == line + below)
      && (|below| < limit < |line| + |below| ==>
            Mandatory(capsule, limit) == Truncate(Units("Task: ") + request, limit - |below|) + below)
      && (limit <= |below| ==> Mandatory(capsule, limit) == Truncate(line + below, limit))
  {
    hide Compact, Truncate, GitAnchor, Units;
    var below := BelowTask(capsule);
    var nonTask := GitAnchor(capsule) + SEPARATOR + SAFETY;
    assert below == SEPARATOR + nonTask;
    var line := Units("Task: ") + Truncate(Compact(capsule.request), 7 * limit / 10);
    assert line + SEPARATOR + nonTask == line + below;
    var short := Truncate(Units("Task: ") + Compact(capsule.request), if limit > |below| then limit - |below| else 0);
    assert short + SEPARATOR + nonTask == short + below;
  }

  /** The anchor names the branch and the first seven characters of the commit, and says whether
      anything has changed since. */
  lemma AnchorReads(capsule: Capsule)
    ensures var commit := if |capsule.commit| < 7 then capsule.commit else capsule.commit[..7];
      GitAnchor(capsule) == Units("Git: ") + capsule.branch + Units("@") + commit
        + (if capsule.changedFiles + capsule.omittedChangedFiles > 0 then Units("; dirty") else [])
  {
    hide Units;
    assert |capsule.commit| == 7 ==> capsule.commit[..7] == capsule.commit;
  }

  // ---------------------------------------------------------------- the closing lines

  /** The number of omitted items is told, and the coordination line added, exactly when there is room;
      nothing is told if nothing was omitted. */
  lemma ClosingLinesAre(capsule: Capsule, limit: nat, omittedItems: nat)
    ensures var packed := WithBlocks(limit, Mandatory(capsule, limit), BlocksOf(capsule));
      var omission := SEPARATOR + Omission(omittedItems);
      var told := omittedItems > 0 && |packed| + |omission| <= limit;
      var middle := packed + (if told then omission else []);
      var coordination := SEPARATOR + COORDINATION;
      TextOf(capsule, limit, omittedItems)
        == middle + (if |middle| + |coordination| <= limit then coordination else [])
  {
    hide WithBlocks, Mandatory, BlocksOf, Omission, Units;
    var packed := WithBlocks(limit, Mandatory(capsule, limit), BlocksOf(capsule));
    assert packed + SEPARATOR + Omission(omittedItems) == packed + (SEPARATOR + Omission(omittedItems));
    var middle := packed + (if omittedItems > 0 && |packed + (SEPARATOR + Omission(omittedItems))| <= limit
                            then SEPARATOR + Omission(omittedItems) else []);
    assert packed + [] == packed && middle + [] == middle;
    assert middle + SEPARATOR + COORDINATION == middle + (SEPARATOR + COORDINATION);
  }

  const LOWER_ITEM: string := " lower-priority item"
  const ADVICE: string := "; inspect the working tree if needed."

  lemma JoinThree(front: Text, a: string, b: string, c: string)
    ensures front + Units(a) + Units(b) + Units(c) == front + Units(a + b + c)
  {
    UnitsJoin(a, b);
    UnitsJoin(a + b, c);
    hide Units;
  }

  /** The omission line gives the number, and speaks of one item or of several. */
  lemma OmissionReads(omittedItems: nat)
    ensures Omission(omittedItems) == Units("Omitted: ") + Units(CivilDates.Decimal(omittedItems))
      + Units(LOWER_ITEM + (if omittedItems == 1 then "" else "s") + ADVICE)
  {
    JoinThree(Units("Omitted: ") + Units(CivilDates.Decimal(omittedItems)), LOWER_ITEM,
              if omittedItems == 1 then "" else "s", ADVICE);
    assert Units("") == [];
    hide Units, CivilDates.Decimal;
  }

  lemma UnitsJoin(a: string, b: string)
    ensures Units(a + b) == Units(a) + Units(b)
  {
  }

  // ---------------------------------------------------------------- code units

  /** The halves of surrogate pairs are the two blocks of 1024 units from 0xd800 on. */
  lemma SurrogateHalves(u: Unit)
    ensures High(u) <==> u / 0x400 == 0x36
    ensures Low(u) <==> u / 0x400 == 0x37
  {
  }

  const WHITE_SPACE: set<int> := {
    0x09, 0x0a, 0x0b, 0x0c, 0x0d, 0x20, 0xa0, 0x1680,
    0x2000, 0x2001, 0x2002, 0x2003, 0x2004, 0x2005, 0x2006, 0x2007, 0x2008, 0x2009, 0x200a,
    0x2028, 0x2029, 0x202f, 0x205f, 0x3000, 0xfeff}

  /** White space and line terminators as regular expressions know them. */
  lemma WhiteSpaceIs(u: Unit)
    ensures IsSpace(u) <==> u in WHITE_SPACE
  {
  }

  /** Each first half is followed by a second half, and each second half preceded by a first one. */
  ghost predicate Paired(t: Text) {
    && (forall k | 0 <= k < |t| && High(t[k]) :: k + 1 < |t| && Low(t[k + 1]))
    && (forall k | 0 <= k < |t| && Low(t[k]) :: k > 0 && High(t[k - 1]))
  }

  lemma {:induction false} PairedPrefix(t: Text, k: nat)
    requires Paired(t) && k <= |t|
    ensures ReadAll(Between, t[..k]) == if k > 0 && High(t[k - 1]) then Half else Between
  {
    if k > 0 {
      PairedPrefix(t, k - 1);
      assert t[..k][..k - 1] == t[..k - 1];
    }
  }

  /** Text is well formed exactly when all its surrogates are paired. */
  lemma WellFormedIff(t: Text)
    ensures WellFormed(t) <==> Paired(t)
  {
    if Paired(t) {
      PairedPrefix(t, |t|);
      assert t[..|t|] == t;
    }
    if WellFormed(t) {
      forall k | 0 <= k < |t| && High(t[k]) ensures k + 1 < |t| && Low(t[k + 1]) {
        WellFormedNeighbours(t, k);
      }
      forall k | 0 <= k < |t| && Low(t[k]) ensures k > 0 && High(t[k - 1]) {
        WellFormedNeighbours(t, k);
      }
    }
  }
}
