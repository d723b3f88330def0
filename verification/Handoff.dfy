/** The compact handoff of src/handoff.ts: a greedy printer with a hard bound on its length. Text is
    a sequence of UTF-16 code units, whose number is what the program counts. */
module Handoff {
  import opened Wrappers
  import opened StableSort
  import CivilDates

  type Unit = u: int | 0 <= u < 0x10000

  type Text = seq<Unit>

  const CHARACTERS_PER_TOKEN_ESTIMATE: nat := 4
  const ELLIPSIS: Unit := 0x2026
  const SPACE: Unit := 0x20
  const SEPARATOR: Text := [0x0a, 0x0a]

  /** The code units of a constant of the program. */
  function Units(s: string): (t: Text)
    ensures |t| == |s|
  {
    seq(|s|, k requires 0 <= k < |s| => if s[k] as int < 0xd800 then s[k] as int else 0xfffd)
  }

  predicate IsSpace(u: Unit) {
    || 0x09 <= u <= 0x0d || u == 0x20 || u == 0xa0 || u == 0x1680 || 0x2000 <= u <= 0x200a
    || u == 0x2028 || u == 0x2029 || u == 0x202f || u == 0x205f || u == 0x3000 || u == 0xfeff
  }

  predicate High(u: Unit) {
    0xd800 <= u <= 0xdbff
  }

  predicate Low(u: Unit) {
    0xdc00 <= u <= 0xdfff
  }

  /** Where a reader of code units is: between characters, behind the first half of a pair, or
      behind a surrogate that has no other half. */
  datatype Pairing = Between | Half | Broken

  function Read(at: Pairing, u: Unit): Pairing {
    match at
    case Between => if High(u) then Half else if Low(u) then Broken else Between
    case Half => if Low(u) then Between else Broken
    case Broken => Broken
  }

  function ReadAll(at: Pairing, t: Text): Pairing {
    if t == [] then at else Read(ReadAll(at, t[..|t| - 1]), t[|t| - 1])
  }

  /** Every surrogate is one half of a pair. */
  predicate WellFormed(t: Text) {
    ReadAll(Between, t).Between?
  }

  // ---------------------------------------------------------------- text operations

  function TrimEnd(t: Text): (r: Text)
    ensures r <= t
  {
    if t != [] && IsSpace(t[|t| - 1]) then TrimEnd(t[..|t| - 1]) else t
  }

  function TrimStart(t: Text): Text {
    if t != [] && IsSpace(t[0]) then TrimStart(t[1..]) else t
  }

  /** Every stretch of white space becomes one space. */
  function Collapse(t: Text): Text {
    if t == [] then []
    else
      var n := |t| - 1;
      var before := Collapse(t[..n]);
      if !IsSpace(t[n]) then before + [t[n]]
      else if before != [] && before[|before| - 1] == SPACE then before
      else before + [SPACE]
  }

  function Compact(t: Text): Text {
    TrimStart(TrimEnd(Collapse(t)))
  }

  /** `truncate`: at most `max` units, the last one an ellipsis if anything was cut off. */
  function Truncate(t: Text, max: nat): (r: Text)
    ensures |r| <= max
    ensures |t| <= max ==> r == t
    ensures |t| > max > 0 ==> exists k | 0 <= k < max :: r == t[..k] + [ELLIPSIS]
  {
    if |t| <= max then t
    else if max == 0 then []
    else if max == 1 then
      assert t[..0] + [ELLIPSIS] == [ELLIPSIS];
      [ELLIPSIS]
    else
      var end := if High(t[max - 2]) then max - 2 else max - 1;
      var kept := TrimEnd(t[..end]);
      assert kept == t[..|kept|];
      kept + [ELLIPSIS]
  }

  lemma {:induction false} ReadAppends(at: Pairing, a: Text, b: Text)
    ensures ReadAll(at, a + b) == ReadAll(ReadAll(at, a), b)
  {
    if b == [] {
      assert a + b == a;
    } else {
      var n := |b| - 1;
      ReadAppends(at, a, b[..n]);
      assert (a + b)[..|a| + n] == a + b[..n];
    }
  }

  lemma {:induction false} BrokenStaysBroken(t: Text)
    ensures ReadAll(Broken, t) == Broken
  {
    if t != [] {
      BrokenStaysBroken(t[..|t| - 1]);
    }
  }

  /** In well-formed text only a pair's first half is followed by a second half, and it always is. */
  lemma WellFormedNeighbours(t: Text, k: nat)
    requires WellFormed(t) && k < |t|
    ensures High(t[k]) <==> k + 1 < |t| && Low(t[k + 1])
    ensures Low(t[k]) ==> k > 0 && High(t[k - 1])
  {
    PrefixIsUnbroken(t, k);
    PrefixIsUnbroken(t, k + 1);
    assert t[..k + 1][..k] == t[..k];
    if k + 1 < |t| {
      PrefixIsUnbroken(t, k + 2);
      assert t[..k + 2][..k + 1] == t[..k + 1];
    } else {
      assert t[..k + 1] == t;
    }
  }

  /** A prefix of well-formed text is cut between characters, or right behind a high surrogate. */
  lemma PrefixIsUnbroken(t: Text, k: nat)
    requires WellFormed(t) && k <= |t|
    ensures ReadAll(Between, t[..k]) == if k > 0 && High(t[k - 1]) then Half else Between
  {
    ReadAppends(Between, t[..k], t[k..]);
    assert t[..k] + t[k..] == t;
    BrokenStaysBroken(t[k..]);
    if k > 0 {
      assert t[..k][..k - 1] == t[..k - 1];
    }
  }

  lemma Joining(a: Text, b: Text)
    requires WellFormed(a) && WellFormed(b)
    ensures WellFormed(a + b)
  {
    ReadAppends(Between, a, b);
  }

  lemma {:induction false} TrimEndKeepsPairs(t: Text)
    requires WellFormed(t)
    ensures WellFormed(TrimEnd(t))
  {
    if t != [] && IsSpace(t[|t| - 1]) {
      TrimEndKeepsPairs(t[..|t| - 1]);
    }
  }

  lemma {:induction false} TrimStartKeepsPairs(t: Text)
    requires WellFormed(t)
    ensures WellFormed(TrimStart(t))
  {
    if t != [] && IsSpace(t[0]) {
      ReadAppends(Between, [t[0]], t[1..]);
      assert [t[0]] + t[1..] == t && [t[0]][..0] == [];
      TrimStartKeepsPairs(t[1..]);
    }
  }

  lemma {:induction false} CollapseKeepsPairs(t: Text)
    requires !ReadAll(Between, t).Broken?
    ensures ReadAll(Between, Collapse(t)) == ReadAll(Between, t)
  {
    if t != [] {
      var n := |t| - 1;
      var before := Collapse(t[..n]);
      CollapseKeepsPairs(t[..n]);
      hide Collapse;
      OneUnitMore(before, t[n]);
      OneUnitMore(before, SPACE);
      CollapseOne(t);
    }
  }

  lemma OneUnitMore(t: Text, u: Unit)
    ensures ReadAll(Between, t + [u]) == Read(ReadAll(Between, t), u)
  {
    assert (t + [u])[..|t|] == t;
  }

  /** The last unit is kept, or is white space that becomes one space behind the rest. */
  lemma CollapseOne(t: Text)
    requires t != []
    ensures var last, before := t[|t| - 1], Collapse(t[..|t| - 1]);
      || Collapse(t) == before + [last]
      || (IsSpace(last) && (Collapse(t) == before + [SPACE] || (Collapse(t) == before && EndsInSpace(before))))
  {
  }

  predicate EndsInSpace(t: Text) {
    t != [] && t[|t| - 1] == SPACE
  }

  lemma CompactKeepsPairs(t: Text)
    requires WellFormed(t)
    ensures WellFormed(Compact(t))
  {
    CollapseKeepsPairs(t);
    TrimEndKeepsPairs(Collapse(t));
    TrimStartKeepsPairs(TrimEnd(Collapse(t)));
  }

  lemma OneUnit(u: Unit)
    requires !High(u) && !Low(u)
    ensures WellFormed([u])
  {
    assert [u][..0] == [];
  }

  /** Cutting well-formed text never leaves half a pair. */
  lemma TruncateKeepsPairs(t: Text, max: nat)
    requires WellFormed(t)
    ensures WellFormed(Truncate(t, max))
  {
    OneUnit(ELLIPSIS);
    if |t| > max && max >= 2 {
      var end := if High(t[max - 2]) then max - 2 else max - 1;
      PrefixIsUnbroken(t, end);
      PrefixIsUnbroken(t, max - 1);
      assert end > 0 && end < max - 1 ==> !High(t[end - 1]) by {
        if 0 < end < max - 1 {
          WellFormedNeighbours(t, end - 1);
        }
      }
      TrimEndKeepsPairs(t[..end]);
      Joining(TrimEnd(t[..end]), [ELLIPSIS]);
    }
  }

  // ---------------------------------------------------------------- the capsule

  datatype Kind = Done | Next | Decision | Rejected | Blocker | Question

  datatype Freshness = Current | Changed | Diverged

  datatype Note = Note(
    kind: Kind, text: Text, reason: Option<Text>, freshness: Freshness, createdAt: int, resolved: bool)

  datatype Test = Test(command: Text, summary: Option<Text>, failed: bool)

  datatype Capsule = Capsule(
    request: Text, branch: Text, commit: Text, changedFiles: nat, omittedChangedFiles: nat,
    notes: seq<Note>, tests: seq<Test>)

  datatype Config = Config(maxCharacters: nat, maxTokens: nat, targetCharacters: nat, targetTokens: nat)

  const CONTINUATION_KINDS: seq<Kind> := [Next, Blocker, Rejected, Decision, Question]

  function Title(kind: Kind): Text {
    match kind
    case Next => Units("Next")
    case Blocker => Units("Blocked")
    case Rejected => Units("Avoid")
    case Decision => Units("Decision")
    case Question => Units("Question")
    case Done => Units("Done")
  }

  function Reason(reason: Option<Text>): Text {
    if reason.Some? && reason.value != [] then Units(" ") + [0x2014] + Units(" ") + Compact(reason.value) else []
  }

  function Mark(freshness: Freshness): Text {
    match freshness
    case Current => []
    case Changed => Units(" [changed]")
    case Diverged => Units(" [diverged]")
  }

  function FormatNote(note: Note): Text {
    Compact(note.text) + Reason(note.reason) + Mark(note.freshness)
  }

  function LastFailed(tests: seq<Test>): Option<Test> {
    if tests == [] then None
    else if tests[|tests| - 1].failed then Some(tests[|tests| - 1])
    else LastFailed(tests[..|tests| - 1])
  }

  function TestItem(test: Test): Text {
    Units("failed ") + Compact(test.command) + Reason(test.summary)
  }

  function Unresolved(notes: seq<Note>): seq<Note> {
    if notes == [] then []
    else Unresolved(notes[..|notes| - 1]) + (if notes[|notes| - 1].resolved then [] else [notes[|notes| - 1]])
  }

  /** Unresolved notes, newest first. */
  function Listed(notes: seq<Note>): seq<Note> {
    SortDescending(Unresolved(notes), (note: Note) => note.createdAt)
  }

  /** The formatted notes of one kind, in order. */
  function ItemsOf(notes: seq<Note>, kind: Kind): seq<Text> {
    if notes == [] then []
    else
      var n := |notes| - 1;
      ItemsOf(notes[..n], kind) + (if notes[n].kind == kind then [FormatNote(notes[n])] else [])
  }

  datatype Block = Block(title: Text, items: seq<Text>, mandatory: bool)

  /** The newest note of each kind, in the order of the kinds. */
  function FirstBlocks(notes: seq<Note>, kinds: seq<Kind>): seq<Block> {
    if kinds == [] then []
    else
      var n := |kinds| - 1;
      var items := ItemsOf(notes, kinds[n]);
      FirstBlocks(notes, kinds[..n])
        + (if items == [] then [] else [Block(Title(kinds[n]), items[..1], kinds[n].Next? || kinds[n].Blocker?)])
  }

  function RestBlocks(notes: seq<Note>, kinds: seq<Kind>): seq<Block> {
    if kinds == [] then []
    else
      var n := |kinds| - 1;
      var items := ItemsOf(notes, kinds[n]);
      RestBlocks(notes, kinds[..n]) + (if |items| <= 1 then [] else [Block(Title(kinds[n]), items[1..], false)])
  }

  function TestBlocks(tests: seq<Test>): seq<Block> {
    var failed := LastFailed(tests);
    if failed.None? then [] else [Block(Units("Test"), [TestItem(failed.value)], false)]
  }

  function BlocksOf(capsule: Capsule): seq<Block> {
    var notes := Listed(capsule.notes);
    FirstBlocks(notes, CONTINUATION_KINDS) + RestBlocks(notes, CONTINUATION_KINDS) + TestBlocks(capsule.tests)
  }

  /** The loop over the kinds, which fills two lists at once. */
  method BuildBlocks(capsule: Capsule) returns (blocks: seq<Block>)
    ensures blocks == BlocksOf(capsule)
  {
    var notes := Listed(capsule.notes);
    var kinds := CONTINUATION_KINDS;
    blocks := [];
    var remaining: seq<Block> := [];
    for n := 0 to |kinds|
      invariant blocks == FirstBlocks(notes, kinds[..n])
      invariant remaining == RestBlocks(notes, kinds[..n])
    {
      assert kinds[..n + 1][..n] == kinds[..n];
      var items := ItemsOf(notes, kinds[n]);
      if items != [] {
        blocks := blocks + [Block(Title(kinds[n]), items[..1], kinds[n].Next? || kinds[n].Blocker?)];
        if |items| > 1 {
          remaining := remaining + [Block(Title(kinds[n]), items[1..], false)];
        }
      }
    }
    assert kinds[..|kinds|] == kinds;
    blocks := blocks + remaining + TestBlocks(capsule.tests);
  }

  // ---------------------------------------------------------------- packing blocks

  function Join(items: seq<Text>): Text {
    if items == [] then []
    else if |items| == 1 then items[0]
    else Join(items[..|items| - 1]) + Units("; ") + items[|items| - 1]
  }

  function Line(title: Text, items: seq<Text>): Text {
    SEPARATOR + title + Units(": ") + Join(items)
  }

  /** What becomes of an item. */
  datatype Fate = Whole | Cut(shown: Text) | LeftOut

  /** One more item of a block that stands behind `body` is taken whole, cut to the room that is left
      if the block must say something, or left out. */
  function FateOf(limit: nat, body: Text, block: Block, accepted: seq<Text>, item: Text): Fate {
    if |body| + |Line(block.title, accepted + [item])| <= limit then Whole
    else if block.mandatory && accepted == [] then
      var room := limit - |body| - |SEPARATOR| - |block.title| - 2;
      if room > 1 then Cut(Truncate(item, room)) else LeftOut
    else LeftOut
  }

  function ShownOf(fate: Fate, item: Text): seq<Text> {
    match fate
    case Whole => [item]
    case Cut(shown) => [shown]
    case LeftOut => []
  }

  function Accepted(limit: nat, body: Text, block: Block, items: seq<Text>): seq<Text> {
    if items == [] then []
    else
      var n := |items| - 1;
      var before := Accepted(limit, body, block, items[..n]);
      before + ShownOf(FateOf(limit, body, block, before, items[n]), items[n])
  }

  function WithBlock(limit: nat, body: Text, block: Block): Text {
    var accepted := Accepted(limit, body, block, block.items);
    if accepted == [] then body else body + Line(block.title, accepted)
  }

  function WithBlocks(limit: nat, body: Text, blocks: seq<Block>): Text {
    if blocks == [] then body
    else WithBlock(limit, WithBlocks(limit, body, blocks[..|blocks| - 1]), blocks[|blocks| - 1])
  }

  datatype CutItem = CutItem(item: Text, shown: Text)

  /** The items by what becomes of them. */
  datatype Shares = Shares(whole: seq<Text>, cut: seq<CutItem>, omitted: seq<Text>)

  function AddFate(shares: Shares, item: Text, fate: Fate): Shares {
    match fate
    case Whole => shares.(whole := shares.whole + [item])
    case Cut(shown) => shares.(cut := shares.cut + [CutItem(item, shown)])
    case LeftOut => shares.(omitted := shares.omitted + [item])
  }

  /** The items of one block, added to the shares so far. */
  function SharesOf(limit: nat, body: Text, block: Block, items: seq<Text>, before: Shares): Shares {
    if items == [] then before
    else
      var n := |items| - 1;
      AddFate(SharesOf(limit, body, block, items[..n], before), items[n],
              FateOf(limit, body, block, Accepted(limit, body, block, items[..n]), items[n]))
  }

  function AllShares(limit: nat, body: Text, blocks: seq<Block>): Shares {
    if blocks == [] then Shares([], [], [])
    else
      var n := |blocks| - 1;
      SharesOf(limit, WithBlocks(limit, body, blocks[..n]), blocks[n], blocks[n].items, AllShares(limit, body, blocks[..n]))
  }

  function AllItems(blocks: seq<Block>): seq<Text> {
    if blocks == [] then [] else AllItems(blocks[..|blocks| - 1]) + blocks[|blocks| - 1].items
  }

  lemma OneMoreItem(limit: nat, body: Text, block: Block, items: seq<Text>, item: Text, before: Shares)
    ensures var accepted := Accepted(limit, body, block, items);
      var fate := FateOf(limit, body, block, accepted, item);
      && Accepted(limit, body, block, items + [item]) == accepted + ShownOf(fate, item)
      && |SharesOf(limit, body, block, items + [item], before).omitted|
         == |SharesOf(limit, body, block, items, before).omitted| + (if fate.LeftOut? then 1 else 0)
  {
    hide FateOf;
    assert (items + [item])[..|items|] == items;
  }

  lemma BeforeAnything(limit: nat, body: Text, block: Block, items: seq<Text>, blocks: seq<Block>, before: Shares)
    ensures items == [] ==> Accepted(limit, body, block, items) == [] && SharesOf(limit, body, block, items, before) == before
    ensures blocks == [] ==> WithBlocks(limit, body, blocks) == body && AllShares(limit, body, blocks).omitted == []
  {
  }

  lemma OneMoreBlock(limit: nat, body: Text, blocks: seq<Block>, block: Block)
    ensures var before := WithBlocks(limit, body, blocks);
      && WithBlocks(limit, body, blocks + [block]) == WithBlock(limit, before, block)
      && AllShares(limit, body, blocks + [block])
         == SharesOf(limit, before, block, block.items, AllShares(limit, body, blocks))
  {
    hide WithBlock, SharesOf;
    assert (blocks + [block])[..|blocks|] == blocks;
  }

  /** The two nested loops: every item is shown or counted as omitted. */
  method PackBlocks(limit: nat, mandatory: Text, blocks: seq<Block>) returns (body: Text, omittedItems: nat)
    ensures body == WithBlocks(limit, mandatory, blocks)
    ensures omittedItems == |AllShares(limit, mandatory, blocks).omitted|
  {
    hide Line, Truncate, Accepted, SharesOf, WithBlocks, AllShares;
    body, omittedItems := mandatory, 0;
    BeforeAnything(limit, mandatory, Block([], [], false), [], blocks[..0], Shares([], [], []));
    for b := 0 to |blocks|
      invariant body == WithBlocks(limit, mandatory, blocks[..b])
      invariant omittedItems == |AllShares(limit, mandatory, blocks[..b]).omitted|
    {
      var block := blocks[b];
      assert blocks[..b + 1] == blocks[..b] + [block];
      OneMoreBlock(limit, mandatory, blocks[..b], block);
      ghost var before := AllShares(limit, mandatory, blocks[..b]);
      var accepted: seq<Text> := [];
      BeforeAnything(limit, body, block, block.items[..0], [], before);
      for n := 0 to |block.items|
        invariant accepted == Accepted(limit, body, block, block.items[..n])
        invariant omittedItems == |SharesOf(limit, body, block, block.items[..n], before).omitted|
      {
        var item := block.items[n];
        assert block.items[..n + 1] == block.items[..n] + [item];
        OneMoreItem(limit, body, block, block.items[..n], item, before);
        if |body + Line(block.title, accepted + [item])| <= limit {
          accepted := accepted + [item];
        } else if block.mandatory && |accepted| == 0 {
          var itemBudget := limit - |body| - |SEPARATOR| - |block.title| - 2;
          if itemBudget > 1 {
            accepted := accepted + [Truncate(item, itemBudget)];
          } else {
            omittedItems := omittedItems + 1;
          }
        } else {
          omittedItems := omittedItems + 1;
        }
      }
      assert block.items[..|block.items|] == block.items;
      if |accepted| > 0 {
        body := body + Line(block.title, accepted);
      }
    }
    assert blocks[..|blocks|] == blocks;
  }

  // ---------------------------------------------------------------- every item has its share

  function Originals(cut: seq<CutItem>): (items: seq<Text>)
    ensures |items| == |cut|
  {
    seq(|cut|, k requires 0 <= k < |cut| => cut[k].item)
  }

  ghost function Shared(shares: Shares): multiset<Text> {
    multiset(shares.whole) + multiset(Originals(shares.cut)) + multiset(shares.omitted)
  }

  lemma AddFateAddsItem(shares: Shares, item: Text, fate: Fate)
    ensures Shared(AddFate(shares, item, fate)) == Shared(shares) + multiset{item}
  {
    if fate.Cut? {
      assert Originals(shares.cut + [CutItem(item, fate.shown)]) == Originals(shares.cut) + [item];
    }
  }

  lemma {:induction false} SharesAddItems(limit: nat, body: Text, block: Block, items: seq<Text>, before: Shares)
    ensures Shared(SharesOf(limit, body, block, items, before)) == Shared(before) + multiset(items)
  {
    hide FateOf, Accepted, Shared;
    if items != [] {
      var n := |items| - 1;
      SharesAddItems(limit, body, block, items[..n], before);
      AddFateAddsItem(SharesOf(limit, body, block, items[..n], before), items[n],
                      FateOf(limit, body, block, Accepted(limit, body, block, items[..n]), items[n]));
      assert items == items[..n] + [items[n]];
    }
  }

  /** Whole, cut and omitted items together are exactly the items of the blocks. */
  lemma {:induction false} SharesAreAllItems(limit: nat, body: Text, blocks: seq<Block>)
    ensures Shared(AllShares(limit, body, blocks)) == multiset(AllItems(blocks))
  {
    if blocks != [] {
      hide SharesOf, WithBlocks, Shared;
      var n := |blocks| - 1;
      SharesAreAllItems(limit, body, blocks[..n]);
      SharesAddItems(limit, WithBlocks(limit, body, blocks[..n]), blocks[n], blocks[n].items,
                     AllShares(limit, body, blocks[..n]));
    }
  }

  ghost predicate StandsAt(piece: Text, text: Text, at: nat) {
    at + |piece| <= |text| && text[at..at + |piece|] == piece
  }

  /** The piece stands somewhere in the text, unbroken. */
  ghost predicate Occurs(piece: Text, text: Text) {
    exists at: nat :: StandsAt(piece, text, at)
  }

  lemma OccursInside(piece: Text, left: Text, middle: Text, right: Text)
    requires Occurs(piece, middle)
    ensures Occurs(piece, left + middle + right)
  {
    var at: nat :| StandsAt(piece, middle, at);
    var text := left + middle + right;
    assert text[|left|..|left| + |middle|] == middle;
    assert StandsAt(piece, text, |left| + at);
  }

  lemma OccursInItself(piece: Text)
    ensures Occurs(piece, piece)
  {
    assert StandsAt(piece, piece, 0);
  }

  lemma {:induction false} ItemsOccurInJoin(items: seq<Text>, k: nat)
    requires k < |items|
    ensures Occurs(items[k], Join(items))
  {
    hide Occurs, Units;
    OccursInItself(items[k]);
    if |items| > 1 {
      var n := |items| - 1;
      var front := Join(items[..n]) + Units("; ");
      if k < n {
        ItemsOccurInJoin(items[..n], k);
        OccursInside(items[k], [], Join(items[..n]), Units("; ") + items[n]);
        assert [] + Join(items[..n]) + (Units("; ") + items[n]) == Join(items);
      } else {
        OccursInside(items[k], front, items[n], []);
        assert front + items[n] + [] == Join(items);
      }
    }
  }

  lemma ItemsOccurInLine(body: Text, title: Text, items: seq<Text>, item: Text)
    requires item in items
    ensures Occurs(item, body + Line(title, items))
  {
    var k :| 0 <= k < |items| && items[k] == item;
    ItemsOccurInJoin(items, k);
    hide Occurs, Units, Join;
    var front := body + (SEPARATOR + title + Units(": "));
    OccursInside(item, front, Join(items), []);
    assert front + Join(items) + [] == body + Line(title, items);
  }

  /** A cut item lacked room, and a stump of at least one character and the ellipsis is shown. */
  ghost predicate IsCut(c: CutItem) {
    exists room: nat :: 2 <= room < |c.item| && c.shown == Truncate(c.item, room)
  }

  /** The shares tell of `text` what they are meant to. */
  ghost predicate SharesShow(shares: Shares, text: Text) {
    && (forall item | item in shares.whole :: Occurs(item, text))
    && (forall c | c in shares.cut :: IsCut(c) && Occurs(c.shown, text))
  }

  lemma FateShows(limit: nat, body: Text, block: Block, accepted: seq<Text>, item: Text)
    ensures var fate := FateOf(limit, body, block, accepted, item); fate.Cut? ==> IsCut(CutItem(item, fate.shown))
  {
    if block.mandatory && accepted == [] && |body| + |Line(block.title, accepted + [item])| > limit {
      assert accepted + [item] == [item];
      var room := limit - |body| - |SEPARATOR| - |block.title| - 2;
      if room > 1 {
        assert 2 <= room < |item|;
      }
    }
  }

  /** Items of the block that are not left out occur in any text in which the accepted ones do. */
  lemma {:induction false} BlockSharesShow(
    limit: nat, body: Text, block: Block, items: seq<Text>, before: Shares, text: Text)
    requires SharesShow(before, text)
    requires forall item | item in Accepted(limit, body, block, items) :: Occurs(item, text)
    ensures SharesShow(SharesOf(limit, body, block, items, before), text)
  {
    hide FateOf, IsCut, Occurs;
    if items != [] {
      var n := |items| - 1;
      var accepted := Accepted(limit, body, block, items[..n]);
      forall item | item in accepted ensures Occurs(item, text) {
        assert item in Accepted(limit, body, block, items);
      }
      BlockSharesShow(limit, body, block, items[..n], before, text);
      FateShows(limit, body, block, accepted, items[n]);
      var fate := FateOf(limit, body, block, accepted, items[n]);
      forall item | item in ShownOf(fate, items[n]) ensures Occurs(item, text) {
        assert item in Accepted(limit, body, block, items);
      }
    }
  }

  lemma SharesStayShown(shares: Shares, text: Text, right: Text)
    requires SharesShow(shares, text)
    ensures SharesShow(shares, text + right)
  {
    hide IsCut;
    forall item | item in shares.whole ensures Occurs(item, text + right) {
      OccursInside(item, [], text, right);
      assert [] + text + right == text + right;
    }
    forall c | c in shares.cut ensures Occurs(c.shown, text + right) {
      OccursInside(c.shown, [], text, right);
      assert [] + text + right == text + right;
    }
  }

  /** Whole items stand in the text as they are, cut items with their stump. */
  lemma {:induction false} PackedShares(limit: nat, body: Text, blocks: seq<Block>)
    ensures SharesShow(AllShares(limit, body, blocks), WithBlocks(limit, body, blocks))
  {
    if blocks != [] {
      hide SharesOf, Accepted, Line, SharesShow, Occurs;
      var n := |blocks| - 1;
      var block := blocks[n];
      var before := WithBlocks(limit, body, blocks[..n]);
      var accepted := Accepted(limit, before, block, block.items);
      var text := WithBlocks(limit, body, blocks);
      PackedShares(limit, body, blocks[..n]);
      SharesStayShown(AllShares(limit, body, blocks[..n]), before, if accepted == [] then [] else Line(block.title, accepted));
      assert text == before + if accepted == [] then [] else Line(block.title, accepted);
      forall item | item in accepted ensures Occurs(item, text) {
        ItemsOccurInLine(before, block.title, accepted, item);
      }
      BlockSharesShow(limit, before, block, block.items, AllShares(limit, body, blocks[..n]), text);
    }
  }

  lemma FateFits(limit: nat, body: Text, block: Block, before: seq<Text>, item: Text)
    requires |body| <= limit
    requires before != [] ==> |body| + |Line(block.title, before)| <= limit
    ensures var accepted := before + ShownOf(FateOf(limit, body, block, before, item), item);
      accepted != [] ==> |body| + |Line(block.title, accepted)| <= limit
  {
    hide Truncate;
    var fate := FateOf(limit, body, block, before, item);
    if fate.LeftOut? {
      assert before + [] == before;
    } else if fate.Cut? {
      assert before + [fate.shown] == [fate.shown];
    }
  }

  /** What a block shows never passes the limit. */
  lemma {:induction false} AcceptedFits(limit: nat, body: Text, block: Block, items: seq<Text>)
    requires |body| <= limit
    ensures var accepted := Accepted(limit, body, block, items);
      accepted != [] ==> |body| + |Line(block.title, accepted)| <= limit
  {
    if items != [] {
      hide FateOf, Line;
      var n := |items| - 1;
      AcceptedFits(limit, body, block, items[..n]);
      FateFits(limit, body, block, Accepted(limit, body, block, items[..n]), items[n]);
    }
  }

  lemma {:induction false} BlocksFit(limit: nat, body: Text, blocks: seq<Block>)
    requires |body| <= limit
    ensures |WithBlocks(limit, body, blocks)| <= limit
  {
    hide Accepted, Line;
    if blocks != [] {
      var n := |blocks| - 1;
      BlocksFit(limit, body, blocks[..n]);
      AcceptedFits(limit, WithBlocks(limit, body, blocks[..n]), blocks[n], blocks[n].items);
    }
  }

  /** Items are shown in their order, whole; only the first item of a block that must say something
      may be cut. */
  ghost predicate ShownFrom(block: Block, accepted: seq<Text>, items: seq<Text>)
    decreases |items|
  {
    if items == [] then accepted == []
    else
      var n := |items| - 1;
      || ShownFrom(block, accepted, items[..n])
      || (accepted != [] && ShownFrom(block, accepted[..|accepted| - 1], items[..n])
          && (accepted[|accepted| - 1] == items[n]
              || (block.mandatory && |accepted| == 1 && exists room: nat :: accepted[0] == Truncate(items[n], room))))
  }

  lemma {:induction false} AcceptedAreShown(limit: nat, body: Text, block: Block, items: seq<Text>)
    ensures ShownFrom(block, Accepted(limit, body, block, items), items)
  {
    hide Line, Truncate;
    if items != [] {
      var n := |items| - 1;
      AcceptedAreShown(limit, body, block, items[..n]);
      var before := Accepted(limit, body, block, items[..n]);
      var accepted := Accepted(limit, body, block, items);
      if accepted != before {
        assert accepted[..|accepted| - 1] == before;
      }
    }
  }

  lemma {:induction false} PrefixStays(limit: nat, body: Text, blocks: seq<Block>, b: nat)
    requires b <= |blocks|
    ensures WithBlocks(limit, body, blocks[..b]) <= WithBlocks(limit, body, blocks)
  {
    hide Accepted, Line;
    if b == |blocks| {
      assert blocks[..b] == blocks;
    } else {
      PrefixStays(limit, body, blocks[..|blocks| - 1], b);
      assert blocks[..|blocks| - 1][..b] == blocks[..b];
    }
  }

  /** Blocks stand in the text in their order, each as one line that joins what it shows: its items
      in their order and whole, but for a first one that had to be cut. */
  lemma LinesStandInOrder(limit: nat, body: Text, blocks: seq<Block>, b: nat)
    requires b < |blocks|
    ensures var before := WithBlocks(limit, body, blocks[..b]);
      var accepted := Accepted(limit, before, blocks[b], blocks[b].items);
      && ShownFrom(blocks[b], accepted, blocks[b].items)
      && before + (if accepted == [] then [] else Line(blocks[b].title, accepted)) <= WithBlocks(limit, body, blocks)
  {
    hide Accepted, Line, ShownFrom;
    var before := WithBlocks(limit, body, blocks[..b]);
    var accepted := Accepted(limit, before, blocks[b], blocks[b].items);
    AcceptedAreShown(limit, before, blocks[b], blocks[b].items);
    PrefixStays(limit, body, blocks, b + 1);
    assert blocks[..b + 1][..b] == blocks[..b];
    assert before + [] == before;
  }

  /** The newest next step, and the newest blocker, is left out exactly when neither it nor a stump
      of two characters has room. */
  lemma MandatoryIsShownIff(limit: nat, body: Text, block: Block)
    requires block.mandatory && |block.items| == 1
    ensures var room := limit - |body| - |SEPARATOR| - |block.title| - 2;
      Accepted(limit, body, block, block.items) == [] <==> room < |block.items[0]| && room <= 1
  {
    var none := Accepted(limit, body, block, block.items[..0]);
    assert none == [];
    assert none + [block.items[0]] == [block.items[0]];
  }

  // ---------------------------------------------------------------- the blocks hold every note once

  predicate IsContinuation(note: Note) {
    !note.resolved && !note.kind.Done?
  }

  function FormattedOne(note: Note): seq<Text> {
    if IsContinuation(note) then [FormatNote(note)] else []
  }

  /** The unresolved continuation notes, formatted, in the order of the log. */
  function Formatted(notes: seq<Note>): seq<Text> {
    if notes == [] then [] else Formatted(notes[..|notes| - 1]) + FormattedOne(notes[|notes| - 1])
  }

  function TestItems(tests: seq<Test>): seq<Text> {
    if LastFailed(tests).Some? then [TestItem(LastFailed(tests).value)] else []
  }

  /** What a handoff owes its reader. */
  function Owed(capsule: Capsule): seq<Text> {
    Formatted(capsule.notes) + TestItems(capsule.tests)
  }

  lemma FormattedOneMore(notes: seq<Note>, note: Note)
    ensures Formatted(notes + [note]) == Formatted(notes) + FormattedOne(note)
  {
    assert (notes + [note])[..|notes|] == notes;
  }

  lemma {:induction false} InsertKeepsFormatted(sorted: seq<Note>, note: Note, key: Note -> int)
    ensures multiset(Formatted(Insert(sorted, note, key))) == multiset(Formatted(sorted)) + multiset(FormattedOne(note))
  {
    hide FormattedOne;
    if sorted == [] || key(sorted[|sorted| - 1]) >= key(note) {
      assert sorted == [] ==> [] + [note] == [note];
      FormattedOneMore(sorted, note);
    } else {
      var m := |sorted| - 1;
      InsertKeepsFormatted(sorted[..m], note, key);
      FormattedOneMore(Insert(sorted[..m], note, key), sorted[m]);
    }
  }

  lemma {:induction false} SortKeepsFormatted(notes: seq<Note>, key: Note -> int)
    ensures multiset(Formatted(SortDescending(notes, key))) == multiset(Formatted(notes))
  {
    hide FormattedOne;
    if notes != [] {
      var n := |notes| - 1;
      SortKeepsFormatted(notes[..n], key);
      InsertKeepsFormatted(SortDescending(notes[..n], key), notes[n], key);
    }
  }

  lemma {:induction false} UnresolvedKeepsFormatted(notes: seq<Note>)
    ensures Formatted(Unresolved(notes)) == Formatted(notes)
  {
    hide FormatNote;
    if notes != [] {
      var n := |notes| - 1;
      UnresolvedKeepsFormatted(notes[..n]);
      if notes[n].resolved {
        assert Unresolved(notes) == Unresolved(notes[..n]);
      } else {
        FormattedOneMore(Unresolved(notes[..n]), notes[n]);
      }
    }
  }

  lemma {:induction false} UnresolvedAreOpen(notes: seq<Note>)
    ensures forall note | note in Unresolved(notes) :: note in notes && !note.resolved
  {
    if notes != [] {
      UnresolvedAreOpen(notes[..|notes| - 1]);
    }
  }

  /** Each unresolved note other than a done one is an item of exactly one kind. */
  lemma {:induction false} KindsPartition(notes: seq<Note>)
    requires forall k | 0 <= k < |notes| :: !notes[k].resolved
    ensures multiset(ItemsOf(notes, Next)) + multiset(ItemsOf(notes, Blocker)) + multiset(ItemsOf(notes, Rejected))
      + multiset(ItemsOf(notes, Decision)) + multiset(ItemsOf(notes, Question)) == multiset(Formatted(notes))
  {
    hide FormatNote;
    if notes != [] {
      KindsPartition(notes[..|notes| - 1]);
    }
  }

  lemma AllItemsOneMore(blocks: seq<Block>, block: Block)
    ensures AllItems(blocks + [block]) == AllItems(blocks) + block.items
  {
    assert (blocks + [block])[..|blocks|] == blocks;
  }

  lemma AllItemsAppendOne(a: seq<Block>, b: seq<Block>, block: Block)
    requires AllItems(a + b) == AllItems(a) + AllItems(b)
    ensures AllItems(a + (b + [block])) == AllItems(a) + AllItems(b + [block])
  {
    hide AllItems;
    AllItemsOneMore(a + b, block);
    AllItemsOneMore(b, block);
    assert a + b + [block] == a + (b + [block]);
  }

  lemma {:induction false} AllItemsAppend(a: seq<Block>, b: seq<Block>)
    ensures AllItems(a + b) == AllItems(a) + AllItems(b)
  {
    hide AllItems;
    if b == [] {
      NoItems(b);
      assert a + b == a;
    } else {
      var n := |b| - 1;
      AllItemsAppend(a, b[..n]);
      AllItemsAppendOne(a, b[..n], b[n]);
      assert b[..n] + [b[n]] == b;
    }
  }

  lemma OneBlock(block: Block)
    ensures AllItems([block]) == block.items
  {
    assert [block][..0] == [];
  }

  function KindItems(notes: seq<Note>, kinds: seq<Kind>): seq<Text> {
    if kinds == [] then [] else KindItems(notes, kinds[..|kinds| - 1]) + ItemsOf(notes, kinds[|kinds| - 1])
  }

  lemma {:induction false} FirstAndRest(notes: seq<Note>, kinds: seq<Kind>)
    ensures multiset(AllItems(FirstBlocks(notes, kinds))) + multiset(AllItems(RestBlocks(notes, kinds)))
      == multiset(KindItems(notes, kinds))
  {
    hide ItemsOf, Title, AllItems;
    if kinds == [] {
      NoItems(FirstBlocks(notes, kinds));
      NoItems(RestBlocks(notes, kinds));
    } else {
      var n := |kinds| - 1;
      FirstAndRest(notes, kinds[..n]);
      var items := ItemsOf(notes, kinds[n]);
      var first := if items == [] then [] else [Block(Title(kinds[n]), items[..1], kinds[n].Next? || kinds[n].Blocker?)];
      var rest := if |items| <= 1 then [] else [Block(Title(kinds[n]), items[1..], false)];
      AllItemsAppend(FirstBlocks(notes, kinds[..n]), first);
      AllItemsAppend(RestBlocks(notes, kinds[..n]), rest);
      SplitItems(items, first, rest);
    }
  }

  lemma NoItems(blocks: seq<Block>)
    ensures blocks == [] ==> AllItems(blocks) == []
  {
  }

  lemma SplitItems(items: seq<Text>, first: seq<Block>, rest: seq<Block>)
    requires if items == [] then first == [] else |first| == 1 && first[0].items == items[..1]
    requires if |items| <= 1 then rest == [] else |rest| == 1 && rest[0].items == items[1..]
    ensures multiset(AllItems(first)) + multiset(AllItems(rest)) == multiset(items)
  {
    NoItems(first);
    NoItems(rest);
    if items != [] {
      OneBlock(first[0]);
      assert first == [first[0]] && items == items[..1] + items[1..];
    }
    if |items| > 1 {
      OneBlock(rest[0]);
      assert rest == [rest[0]];
    } else if |items| == 1 {
      assert items[1..] == [];
    }
  }

  lemma KindItemsOfAll(notes: seq<Note>)
    ensures multiset(KindItems(notes, CONTINUATION_KINDS)) == multiset(ItemsOf(notes, Next)) + multiset(ItemsOf(notes, Blocker))
      + multiset(ItemsOf(notes, Rejected)) + multiset(ItemsOf(notes, Decision)) + multiset(ItemsOf(notes, Question))
  {
    hide ItemsOf;
    var kinds := CONTINUATION_KINDS;
    assert kinds[..4][..3] == kinds[..3] && kinds[..3][..2] == kinds[..2] && kinds[..2][..1] == kinds[..1];
    assert kinds[..1][..0] == [];
    assert KindItems(notes, kinds[..1]) == ItemsOf(notes, Next);
    assert KindItems(notes, kinds[..2]) == KindItems(notes, kinds[..1]) + ItemsOf(notes, Blocker);
    assert KindItems(notes, kinds[..3]) == KindItems(notes, kinds[..2]) + ItemsOf(notes, Rejected);
    assert KindItems(notes, kinds[..4]) == KindItems(notes, kinds[..3]) + ItemsOf(notes, Decision);
    assert KindItems(notes, kinds) == KindItems(notes, kinds[..4]) + ItemsOf(notes, Question);
  }

  lemma ListedAreOpen(notes: seq<Note>)
    ensures forall note | note in Listed(notes) :: note in notes && !note.resolved
  {
    UnresolvedAreOpen(notes);
    SortIsStablePermutation(Unresolved(notes), (note: Note) => note.createdAt);
    hide Unresolved, SortDescending;
    forall note | note in Listed(notes) ensures note in notes && !note.resolved {
      assert note in multiset(Listed(notes));
      assert note in Unresolved(notes);
    }
  }

  /** The items of the blocks are exactly what is owed: each unresolved continuation note once, and
      the latest failed test. */
  lemma BlocksHoldEverything(capsule: Capsule)
    ensures multiset(AllItems(BlocksOf(capsule))) == multiset(Owed(capsule))
  {
    hide ItemsOf, FirstBlocks, RestBlocks, Insert, SortDescending, TestItem, Formatted, KindItems, AllItems, Unresolved;
    var notes := Listed(capsule.notes);
    ListedAreOpen(capsule.notes);
    UnresolvedKeepsFormatted(capsule.notes);
    SortKeepsFormatted(Unresolved(capsule.notes), (note: Note) => note.createdAt);
    KindsPartition(notes);
    KindItemsOfAll(notes);
    FirstAndRest(notes, CONTINUATION_KINDS);
    var first, rest, test :=
      FirstBlocks(notes, CONTINUATION_KINDS), RestBlocks(notes, CONTINUATION_KINDS), TestBlocks(capsule.tests);
    AllItemsAppend(first, rest);
    AllItemsAppend(first + rest, test);
    TestBlocksHoldTest(capsule.tests);
  }

  lemma TestBlocksHoldTest(tests: seq<Test>)
    ensures AllItems(TestBlocks(tests)) == TestItems(tests)
  {
    hide LastFailed, TestItem, Units;
    if LastFailed(tests).Some? {
      OneBlock(TestBlocks(tests)[0]);
    }
  }

  // ---------------------------------------------------------------- the whole text

  function Min(a: nat, b: nat): nat {
    if a < b then a else b
  }

  function EffectiveTokens(config: Config): nat {
    Min(config.maxTokens, config.targetTokens)
  }

  function EffectiveCharacters(config: Config): nat {
    Min(Min(config.maxCharacters, config.targetCharacters), EffectiveTokens(config) * CHARACTERS_PER_TOKEN_ESTIMATE)
  }

  /** Seven tenths of the limit, rounded down. */
  function TaskShare(limit: nat): nat {
    7 * limit / 10
  }

  function GitAnchor(capsule: Capsule): Text {
    Units("Git: ") + capsule.branch + Units("@")
      + (if |capsule.commit| <= 7 then capsule.commit else capsule.commit[..7])
      + (if capsule.changedFiles > 0 || capsule.omittedChangedFiles > 0 then Units("; dirty") else [])
  }

  const SAFETY: Text := Units("Inspect the working tree and preserve existing changes.")

  function Mandatory(capsule: Capsule, limit: nat): Text {
    var request := Compact(capsule.request);
    var taskItem := Units("Task: ") + Truncate(request, TaskShare(limit));
    var nonTask := GitAnchor(capsule) + SEPARATOR + SAFETY;
    var whole := taskItem + SEPARATOR + nonTask;
    if |whole| <= limit then whole
    else
      var taskBudget := limit - |nonTask| - |SEPARATOR|;
      if taskBudget > 0 then Truncate(Units("Task: ") + request, taskBudget) + SEPARATOR + nonTask
      else Truncate(whole, limit)
  }

  lemma MandatoryFits(capsule: Capsule, limit: nat)
    ensures |Mandatory(capsule, limit)| <= limit
  {
    hide Compact, GitAnchor, Units;
  }

  function WithLine(body: Text, line: Text, limit: nat): Text {
    if |body + SEPARATOR + line| <= limit then body + SEPARATOR + line else body
  }

  function Omission(omittedItems: nat): Text {
    Units("Omitted: ") + Units(CivilDates.Decimal(omittedItems)) + Units(" lower-priority item")
      + (if omittedItems == 1 then [] else Units("s")) + Units("; inspect the working tree if needed.")
  }

  const COORDINATION: Text :=
    Units("Use `relay message peers --json` and `relay message inbox --json` for local Rirei coordination.")

  datatype Rendered = Rendered(
    text: Text, maxCharacters: nat, maxTokens: nat, usedCharacters: nat, estimatedTokens: nat, omittedItems: nat)

  /** The text is the mandatory head, the packed blocks, and the two closing lines if they fit. */
  function TextOf(capsule: Capsule, limit: nat, omittedItems: nat): Text {
    var packed := WithBlocks(limit, Mandatory(capsule, limit), BlocksOf(capsule));
    WithLine(if omittedItems > 0 then WithLine(packed, Omission(omittedItems), limit) else packed, COORDINATION, limit)
  }

  /** The packed blocks are the beginning of the text. */
  lemma TextShowsShares(capsule: Capsule, limit: nat, omittedItems: nat)
    ensures SharesShow(AllShares(limit, Mandatory(capsule, limit), BlocksOf(capsule)), TextOf(capsule, limit, omittedItems))
  {
    hide Mandatory, WithBlocks, BlocksOf, Omission, Units, AllShares, SharesShow;
    var shares := AllShares(limit, Mandatory(capsule, limit), BlocksOf(capsule));
    var packed := WithBlocks(limit, Mandatory(capsule, limit), BlocksOf(capsule));
    PackedShares(limit, Mandatory(capsule, limit), BlocksOf(capsule));
    LineKeepsShares(shares, packed, Omission(omittedItems), limit);
    var middle := if omittedItems > 0 then WithLine(packed, Omission(omittedItems), limit) else packed;
    LineKeepsShares(shares, middle, COORDINATION, limit);
  }

  lemma LineKeepsShares(shares: Shares, body: Text, line: Text, limit: nat)
    requires SharesShow(shares, body)
    ensures SharesShow(shares, WithLine(body, line, limit))
  {
    SharesStayShown(shares, body, SEPARATOR + line);
    assert body + SEPARATOR + line == body + (SEPARATOR + line);
  }

  lemma TextFits(capsule: Capsule, limit: nat, omittedItems: nat)
    ensures |TextOf(capsule, limit, omittedItems)| <= limit
  {
    hide Mandatory, WithBlocks, BlocksOf, Omission, Units;
    MandatoryFits(capsule, limit);
    BlocksFit(limit, Mandatory(capsule, limit), BlocksOf(capsule));
  }

  /** `renderCompactHandoff`: the text keeps to both limits. What is owed falls into three shares,
      without loss or repetition: items that stand in the text, items of which a stump stands there,
      and the omitted ones, which are counted. */
  method RenderCompactHandoff(capsule: Capsule, config: Config) returns (r: Rendered)
    ensures r.text == TextOf(capsule, r.maxCharacters, r.omittedItems)
    ensures r.maxCharacters == EffectiveCharacters(config) && r.maxTokens == EffectiveTokens(config)
    ensures r.usedCharacters == |r.text| <= r.maxCharacters
    ensures r.maxCharacters <= config.maxCharacters && r.maxCharacters <= config.targetCharacters
    ensures r.estimatedTokens <= r.maxTokens && r.maxTokens <= config.maxTokens && r.maxTokens <= config.targetTokens
    ensures (r.estimatedTokens - 1) * CHARACTERS_PER_TOKEN_ESTIMATE < |r.text| <= r.estimatedTokens * CHARACTERS_PER_TOKEN_ESTIMATE
    ensures var shares := AllShares(r.maxCharacters, Mandatory(capsule, r.maxCharacters), BlocksOf(capsule));
      && Shared(shares) == multiset(Owed(capsule))
      && SharesShow(shares, r.text)
      && r.omittedItems == |shares.omitted|
  {
    hide Mandatory, BlocksOf, WithBlocks, Omission, Units, AllShares, Shared, SharesShow, Owed, AllItems;
    var maxTokens := EffectiveTokens(config);
    var limit := EffectiveCharacters(config);
    var mandatory := Mandatory(capsule, limit);
    var blocks := BuildBlocks(capsule);
    var body, omittedItems := PackBlocks(limit, mandatory, blocks);
    BlocksHoldEverything(capsule);
    SharesAreAllItems(limit, mandatory, blocks);
    TextFits(capsule, limit, omittedItems);
    TextShowsShares(capsule, limit, omittedItems);
    if omittedItems > 0 {
      var omission := Omission(omittedItems);
      if |body + SEPARATOR + omission| <= limit {
        body := body + SEPARATOR + omission;
      }
    }
    if |body + SEPARATOR + COORDINATION| <= limit {
      body := body + SEPARATOR + COORDINATION;
    }
    var estimated := (|body| + CHARACTERS_PER_TOKEN_ESTIMATE - 1) / CHARACTERS_PER_TOKEN_ESTIMATE;
    r := Rendered(body, limit, maxTokens, |body|, estimated, omittedItems);
  }

  /** So a given note is in the text, cut in the text, or among the omitted ones. */
  lemma EveryNoteIsAccountedFor(capsule: Capsule, shares: Shares, text: Text, note: Note)
    requires Shared(shares) == multiset(Owed(capsule)) && SharesShow(shares, text)
    requires note in capsule.notes && IsContinuation(note)
    ensures var item := FormatNote(note);
      || Occurs(item, text)
      || (exists c | c in shares.cut :: c.item == item && IsCut(c) && Occurs(c.shown, text))
      || item in shares.omitted
  {
    hide IsCut, Occurs, FormatNote, Formatted, Shared;
    var item := FormatNote(note);
    NotesAreFormatted(capsule.notes, note);
    assert item in Owed(capsule);
    assert item in multiset(Owed(capsule));
    SharedItem(shares, item);
  }

  lemma SharedItem(shares: Shares, item: Text)
    requires item in Shared(shares)
    ensures item in shares.whole || (exists c | c in shares.cut :: c.item == item) || item in shares.omitted
  {
    if item in Originals(shares.cut) {
      var k :| 0 <= k < |shares.cut| && shares.cut[k].item == item;
      assert shares.cut[k] in shares.cut;
    }
  }

  lemma {:induction false} NotesAreFormatted(notes: seq<Note>, note: Note)
    requires note in notes && IsContinuation(note)
    ensures FormatNote(note) in Formatted(notes)
  {
    hide FormatNote;
    var n := |notes| - 1;
    if note in notes[..n] {
      NotesAreFormatted(notes[..n], note);
    } else {
      assert note == notes[n];
    }
  }

  // ---------------------------------------------------------------- no half pairs anywhere

  lemma {:induction false} PlainIsWellFormed(t: Text)
    requires forall k | 0 <= k < |t| :: !High(t[k]) && !Low(t[k])
    ensures WellFormed(t)
  {
    if t != [] {
      PlainIsWellFormed(t[..|t| - 1]);
    }
  }

  lemma UnitsArePlain(s: string)
    ensures WellFormed(Units(s))
  {
    PlainIsWellFormed(Units(s));
  }

  lemma PlainPieces()
    ensures WellFormed([]) && WellFormed(SEPARATOR) && WellFormed([0x2014])
  {
    PlainIsWellFormed([]);
    PlainIsWellFormed(SEPARATOR);
    PlainIsWellFormed([0x2014]);
  }

  ghost predicate NoteFormed(note: Note) {
    WellFormed(note.text) && (note.reason.Some? ==> WellFormed(note.reason.value))
  }

  ghost predicate TestFormed(test: Test) {
    WellFormed(test.command) && (test.summary.Some? ==> WellFormed(test.summary.value))
  }

  /** All texts of the capsule are well formed; a commit is a hexadecimal string. */
  ghost predicate CapsuleFormed(capsule: Capsule) {
    && WellFormed(capsule.request) && WellFormed(capsule.branch)
    && (forall k | 0 <= k < |capsule.commit| :: !High(capsule.commit[k]) && !Low(capsule.commit[k]))
    && (forall k | 0 <= k < |capsule.notes| :: NoteFormed(capsule.notes[k]))
    && (forall k | 0 <= k < |capsule.tests| :: TestFormed(capsule.tests[k]))
  }

  ghost predicate AllFormed(items: seq<Text>) {
    forall k | 0 <= k < |items| :: WellFormed(items[k])
  }

  ghost predicate BlocksFormed(blocks: seq<Block>) {
    forall k | 0 <= k < |blocks| :: WellFormed(blocks[k].title) && AllFormed(blocks[k].items)
  }

  lemma ReasonFormed(reason: Option<Text>)
    requires reason.Some? ==> WellFormed(reason.value)
    ensures WellFormed(Reason(reason))
  {
    hide Units, Compact, WellFormed;
    PlainPieces();
    if reason.Some? && reason.value != [] {
      UnitsArePlain(" ");
      CompactKeepsPairs(reason.value);
      Joining(Units(" "), [0x2014]);
      Joining(Units(" ") + [0x2014], Units(" "));
      Joining(Units(" ") + [0x2014] + Units(" "), Compact(reason.value));
    }
  }

  lemma FormattedNoteFormed(note: Note)
    requires NoteFormed(note)
    ensures WellFormed(FormatNote(note))
  {
    hide Units, Compact, Reason, WellFormed;
    CompactKeepsPairs(note.text);
    ReasonFormed(note.reason);
    UnitsArePlain(" [changed]");
    UnitsArePlain(" [diverged]");
    PlainPieces();
    Joining(Compact(note.text), Reason(note.reason));
    Joining(Compact(note.text) + Reason(note.reason), Mark(note.freshness));
  }

  lemma TestItemFormed(test: Test)
    requires TestFormed(test)
    ensures WellFormed(TestItem(test))
  {
    hide Units, Compact, Reason, WellFormed;
    UnitsArePlain("failed ");
    CompactKeepsPairs(test.command);
    ReasonFormed(test.summary);
    Joining(Units("failed "), Compact(test.command));
    Joining(Units("failed ") + Compact(test.command), Reason(test.summary));
  }

  lemma {:induction false} ItemsFormed(notes: seq<Note>, kind: Kind)
    requires forall k | 0 <= k < |notes| :: NoteFormed(notes[k])
    ensures AllFormed(ItemsOf(notes, kind))
  {
    hide NoteFormed, FormatNote, WellFormed;
    if notes != [] {
      ItemsFormed(notes[..|notes| - 1], kind);
      FormattedNoteFormed(notes[|notes| - 1]);
    }
  }

  lemma TitleFormed(kind: Kind)
    ensures WellFormed(Title(kind))
  {
    PlainIsWellFormed(Title(kind));
  }

  lemma {:induction false} KindBlocksFormed(notes: seq<Note>, kinds: seq<Kind>)
    requires forall k | 0 <= k < |notes| :: NoteFormed(notes[k])
    ensures BlocksFormed(FirstBlocks(notes, kinds)) && BlocksFormed(RestBlocks(notes, kinds))
  {
    hide NoteFormed, ItemsOf, WellFormed, Title;
    if kinds != [] {
      var n := |kinds| - 1;
      KindBlocksFormed(notes, kinds[..n]);
      ItemsFormed(notes, kinds[n]);
      TitleFormed(kinds[n]);
    }
  }

  lemma {:induction false} LastFailedFormed(tests: seq<Test>)
    requires forall k | 0 <= k < |tests| :: TestFormed(tests[k])
    ensures LastFailed(tests).Some? ==> TestFormed(LastFailed(tests).value)
  {
    if tests != [] {
      LastFailedFormed(tests[..|tests| - 1]);
    }
  }

  lemma CapsuleBlocksFormed(capsule: Capsule)
    requires CapsuleFormed(capsule)
    ensures BlocksFormed(BlocksOf(capsule))
  {
    hide NoteFormed, TestFormed, WellFormed, FirstBlocks, RestBlocks, LastFailed, TestItem, Units, SortDescending;
    var notes := Listed(capsule.notes);
    ListedAreOpen(capsule.notes);
    forall k | 0 <= k < |notes| ensures NoteFormed(notes[k]) {
      assert notes[k] in notes;
    }
    KindBlocksFormed(notes, CONTINUATION_KINDS);
    LastFailedFormed(capsule.tests);
    UnitsArePlain("Test");
    if LastFailed(capsule.tests).Some? {
      TestItemFormed(LastFailed(capsule.tests).value);
    }
  }

  lemma {:induction false} JoinFormed(items: seq<Text>)
    requires AllFormed(items)
    ensures WellFormed(Join(items))
  {
    hide WellFormed, Units;
    if |items| == 0 {
      PlainPieces();
    } else if |items| > 1 {
      var n := |items| - 1;
      JoinFormed(items[..n]);
      UnitsArePlain("; ");
      Joining(Join(items[..n]), Units("; "));
      Joining(Join(items[..n]) + Units("; "), items[n]);
    }
  }

  lemma {:induction false} AcceptedFormed(limit: nat, body: Text, block: Block, items: seq<Text>)
    requires AllFormed(items)
    ensures AllFormed(Accepted(limit, body, block, items))
  {
    hide WellFormed, Line, Truncate;
    if items != [] {
      var n := |items| - 1;
      AcceptedFormed(limit, body, block, items[..n]);
      forall max: nat ensures WellFormed(Truncate(items[n], max)) {
        TruncateKeepsPairs(items[n], max);
      }
    }
  }

  lemma LineFormed(title: Text, items: seq<Text>)
    requires WellFormed(title) && AllFormed(items)
    ensures WellFormed(Line(title, items))
  {
    PlainPieces();
    hide WellFormed, Units, Join, AllFormed;
    UnitsArePlain(": ");
    JoinFormed(items);
    Joining(SEPARATOR, title);
    Joining(SEPARATOR + title, Units(": "));
    Joining(SEPARATOR + title + Units(": "), Join(items));
  }

  lemma {:induction false} PackedFormed(limit: nat, body: Text, blocks: seq<Block>)
    requires WellFormed(body) && BlocksFormed(blocks)
    ensures WellFormed(WithBlocks(limit, body, blocks))
  {
    hide WellFormed, AllFormed, Accepted, Line;
    if blocks != [] {
      var n := |blocks| - 1;
      PackedFormed(limit, body, blocks[..n]);
      var before := WithBlocks(limit, body, blocks[..n]);
      AcceptedFormed(limit, before, blocks[n], blocks[n].items);
      LineFormed(blocks[n].title, Accepted(limit, before, blocks[n], blocks[n].items));
      Joining(before, Line(blocks[n].title, Accepted(limit, before, blocks[n], blocks[n].items)));
    }
  }

  lemma GitAnchorFormed(capsule: Capsule)
    requires CapsuleFormed(capsule)
    ensures WellFormed(GitAnchor(capsule))
  {
    var commit := if |capsule.commit| <= 7 then capsule.commit else capsule.commit[..7];
    var mark := if capsule.changedFiles > 0 || capsule.omittedChangedFiles > 0 then Units("; dirty") else [];
    PlainIsWellFormed(commit);
    PlainIsWellFormed(mark);
    UnitsArePlain("Git: ");
    UnitsArePlain("@");
    hide WellFormed, Units;
    Joining(Units("Git: "), capsule.branch);
    Joining(Units("Git: ") + capsule.branch, Units("@"));
    Joining(Units("Git: ") + capsule.branch + Units("@"), commit);
    Joining(Units("Git: ") + capsule.branch + Units("@") + commit, mark);
  }

  lemma MandatoryFormed(capsule: Capsule, limit: nat)
    requires CapsuleFormed(capsule)
    ensures WellFormed(Mandatory(capsule, limit))
  {
    PlainPieces();
    assert WellFormed(capsule.request);
    GitAnchorFormed(capsule);
    hide WellFormed, Units, GitAnchor, Compact, Truncate, CapsuleFormed;
    var request := Compact(capsule.request);
    var task := Units("Task: ");
    var short := Truncate(request, TaskShare(limit));
    var nonTask := GitAnchor(capsule) + SEPARATOR + SAFETY;
    CompactKeepsPairs(capsule.request);
    UnitsArePlain("Task: ");
    UnitsArePlain("Inspect the working tree and preserve existing changes.");
    TruncateKeepsPairs(request, TaskShare(limit));
    Joining(GitAnchor(capsule), SEPARATOR);
    Joining(GitAnchor(capsule) + SEPARATOR, SAFETY);
    Joining(task, short);
    Joining(task + short, SEPARATOR);
    Joining(task + short + SEPARATOR, nonTask);
    Joining(task, request);
    TruncateKeepsPairs(task + short + SEPARATOR + nonTask, limit);
    var taskBudget := limit - |nonTask| - |SEPARATOR|;
    if taskBudget > 0 {
      TruncateKeepsPairs(task + request, taskBudget);
      Joining(Truncate(task + request, taskBudget), SEPARATOR);
      Joining(Truncate(task + request, taskBudget) + SEPARATOR, nonTask);
    }
  }

  lemma OmissionFormed(omittedItems: nat)
    ensures WellFormed(Omission(omittedItems))
  {
    var count, plural := Units(CivilDates.Decimal(omittedItems)), if omittedItems == 1 then [] else Units("s");
    PlainIsWellFormed(plural);
    UnitsArePlain("Omitted: ");
    UnitsArePlain(CivilDates.Decimal(omittedItems));
    UnitsArePlain(" lower-priority item");
    UnitsArePlain("; inspect the working tree if needed.");
    hide WellFormed, Units, CivilDates.Decimal;
    Joining(Units("Omitted: "), count);
    Joining(Units("Omitted: ") + count, Units(" lower-priority item"));
    Joining(Units("Omitted: ") + count + Units(" lower-priority item"), plural);
    Joining(Units("Omitted: ") + count + Units(" lower-priority item") + plural,
            Units("; inspect the working tree if needed."));
  }

  lemma WithLineFormed(body: Text, line: Text, limit: nat)
    requires WellFormed(body) && WellFormed(line)
    ensures WellFormed(WithLine(body, line, limit))
  {
    PlainPieces();
    Joining(body, SEPARATOR);
    Joining(body + SEPARATOR, line);
  }

  /** From well-formed texts, no truncation anywhere in the rendering leaves half a surrogate pair. */
  lemma RenderedTextIsWellFormed(capsule: Capsule, limit: nat, omittedItems: nat)
    requires CapsuleFormed(capsule)
    ensures WellFormed(TextOf(capsule, limit, omittedItems))
  {
    MandatoryFormed(capsule, limit);
    CapsuleBlocksFormed(capsule);
    hide WellFormed, Mandatory, BlocksOf, WithBlocks, Omission, Units, WithLine;
    PackedFormed(limit, Mandatory(capsule, limit), BlocksOf(capsule));
    var packed := WithBlocks(limit, Mandatory(capsule, limit), BlocksOf(capsule));
    OmissionFormed(omittedItems);
    WithLineFormed(packed, Omission(omittedItems), limit);
    UnitsArePlain("Use `relay message peers --json` and `relay message inbox --json` for local Rirei coordination.");
    WithLineFormed(packed, COORDINATION, limit);
    WithLineFormed(WithLine(packed, Omission(omittedItems), limit), COORDINATION, limit);
  }
}
