/** The token report of src/token-usage/normalize.ts: raw daily output is normalized into a cache,
    and a report for a range of days is derived from that cache. Token counts are whole numbers. */
module TokenReport {
  import opened Wrappers
  import opened CivilDates
  import opened StableSort

  datatype Agent = Claude | Codex | Gemini | Antigravity | OpenCode

  const AGENT_REGISTRY: seq<Agent> := [Claude, Codex, Gemini, Antigravity, OpenCode]

  datatype ModelUsage = ModelUsage(model: string, tokens: nat)

  /** Components as they were reported: an absent one is unknown. */
  datatype Components = Components(
    input: Option<nat>, cacheCreation: Option<nat>, cacheRead: Option<nat>, output: Option<nat>)

  datatype Day = Day(date: string, tokens: nat, components: Option<Components>, models: Option<seq<ModelUsage>>)

  /** Summed components. */
  datatype Parts = Parts(input: nat, cacheCreation: nat, cacheRead: nat, output: nat) {
    function Sum(): nat {
      input + cacheCreation + cacheRead + output
    }
  }

  const NO_PARTS := Parts(0, 0, 0, 0)

  function AddComponents(p: Parts, c: Components): Parts {
    Parts(p.input + c.input.GetOr(0), p.cacheCreation + c.cacheCreation.GetOr(0),
          p.cacheRead + c.cacheRead.GetOr(0), p.output + c.output.GetOr(0))
  }

  function AddParts(p: Parts, q: Parts): Parts {
    Parts(p.input + q.input, p.cacheCreation + q.cacheCreation, p.cacheRead + q.cacheRead, p.output + q.output)
  }

  // ---------------------------------------------------------------- reconciliation

  datatype Reconciled = Reconciled(itemized: bool, unitemized: nat)

  /** Parts are a breakdown of the total when at most one percent of it is missing from them. */
  function Reconcile(partsSum: nat, total: nat): (r: Reconciled)
    ensures r.itemized <==> partsSum <= total && 100 * (total - partsSum) <= total
    ensures r.itemized ==> partsSum + r.unitemized == total
    ensures !r.itemized ==> r.unitemized == total
  {
    if partsSum == total then Reconciled(true, 0)
    else if partsSum < total && 100 * (total - partsSum) <= total then Reconciled(true, total - partsSum)
    else Reconciled(false, total)
  }

  // ---------------------------------------------------------------- model totals

  function ModelTokens(models: seq<ModelUsage>): nat {
    if models == [] then 0 else ModelTokens(models[..|models| - 1]) + models[|models| - 1].tokens
  }

  /** The tokens of the entries named `name`. */
  function TokensNamed(models: seq<ModelUsage>, name: string): nat {
    if models == [] then 0
    else
      var n := |models| - 1;
      TokensNamed(models[..n], name) + (if models[n].model == name then models[n].tokens else 0)
  }

  ghost predicate UniqueModels(models: seq<ModelUsage>) {
    forall j, k | 0 <= j < k < |models| :: models[j].model != models[k].model
  }

  /** `Map.set` on the totals: an entry keeps the place where its name was first seen. */
  function AddModel(totals: seq<ModelUsage>, m: ModelUsage): seq<ModelUsage> {
    if totals == [] then [m]
    else if totals[0].model == m.model then [ModelUsage(m.model, totals[0].tokens + m.tokens)] + totals[1..]
    else [totals[0]] + AddModel(totals[1..], m)
  }

  function MergeModels(totals: seq<ModelUsage>, models: seq<ModelUsage>): seq<ModelUsage> {
    if models == [] then totals
    else AddModel(MergeModels(totals, models[..|models| - 1]), models[|models| - 1])
  }

  method SumModelUsage(totals: seq<ModelUsage>, models: seq<ModelUsage>) returns (merged: seq<ModelUsage>)
    ensures merged == MergeModels(totals, models)
  {
    merged := totals;
    for n := 0 to |models|
      invariant merged == MergeModels(totals, models[..n])
    {
      assert models[..n + 1][..n] == models[..n];
      merged := AddModel(merged, models[n]);
    }
    assert models[..|models|] == models;
  }

  lemma {:induction false} ModelTokensFirst(models: seq<ModelUsage>)
    requires models != []
    ensures ModelTokens(models) == models[0].tokens + ModelTokens(models[1..])
    ensures forall name ::
      TokensNamed(models, name) == TokensNamed(models[1..], name) + if models[0].model == name then models[0].tokens else 0
  {
    var n := |models| - 1;
    if n > 0 {
      ModelTokensFirst(models[..n]);
      assert models[..n][1..] == models[1..][..n - 1];
      assert models[1..][n - 1] == models[n];
    }
  }

  lemma {:induction false} AddedNames(totals: seq<ModelUsage>, m: ModelUsage, name: string)
    requires name != m.model && forall k | 0 <= k < |totals| :: totals[k].model != name
    ensures forall k | 0 <= k < |AddModel(totals, m)| :: AddModel(totals, m)[k].model != name
  {
    if totals != [] && totals[0].model != m.model {
      AddedNames(totals[1..], m, name);
    }
  }

  lemma {:induction false} AddingStaysUnique(totals: seq<ModelUsage>, m: ModelUsage)
    requires UniqueModels(totals)
    ensures UniqueModels(AddModel(totals, m))
  {
    if totals != [] && totals[0].model != m.model {
      AddingStaysUnique(totals[1..], m);
      AddedNames(totals[1..], m, totals[0].model);
    }
  }

  lemma {:induction false} AddingKeepsTokens(totals: seq<ModelUsage>, m: ModelUsage, name: string)
    ensures ModelTokens(AddModel(totals, m)) == ModelTokens(totals) + m.tokens
    ensures TokensNamed(AddModel(totals, m), name) == TokensNamed(totals, name) + if m.model == name then m.tokens else 0
  {
    var added := AddModel(totals, m);
    ModelTokensFirst(added);
    if totals == [] {
      assert added[1..] == [];
    } else {
      ModelTokensFirst(totals);
      if totals[0].model == m.model {
        assert added[1..] == totals[1..];
      } else {
        AddingKeepsTokens(totals[1..], m, name);
        assert added[1..] == AddModel(totals[1..], m);
      }
    }
  }

  /** Merging entries of equal name loses no tokens, overall and for each name, and leaves one
      entry for each name. */
  lemma {:induction false} MergingKeepsTokens(totals: seq<ModelUsage>, models: seq<ModelUsage>, name: string)
    requires UniqueModels(totals)
    ensures ModelTokens(MergeModels(totals, models)) == ModelTokens(totals) + ModelTokens(models)
    ensures TokensNamed(MergeModels(totals, models), name) == TokensNamed(totals, name) + TokensNamed(models, name)
    ensures UniqueModels(MergeModels(totals, models))
  {
    if models != [] {
      var n := |models| - 1;
      MergingKeepsTokens(totals, models[..n], name);
      AddingKeepsTokens(MergeModels(totals, models[..n]), models[n], name);
      AddingStaysUnique(MergeModels(totals, models[..n]), models[n]);
    }
  }

  // ---------------------------------------------------------------- sums over days

  function Tokens(daily: seq<Day>): nat {
    if daily == [] then 0 else Tokens(daily[..|daily| - 1]) + daily[|daily| - 1].tokens
  }

  function PartsOf(daily: seq<Day>): Parts {
    if daily == [] then NO_PARTS
    else
      var day := daily[|daily| - 1];
      var before := PartsOf(daily[..|daily| - 1]);
      if day.components.Some? then AddComponents(before, day.components.value) else before
  }

  // ---------------------------------------------------------------- each kind of token by itself

  datatype TokenKind = InputTokens | CacheCreationTokens | CacheReadTokens | OutputTokens

  function Reported(c: Components, kind: TokenKind): nat {
    var count := match kind
      case InputTokens => c.input
      case CacheCreationTokens => c.cacheCreation
      case CacheReadTokens => c.cacheRead
      case OutputTokens => c.output;
    count.GetOr(0)
  }

  function PartOf(p: Parts, kind: TokenKind): nat {
    match kind
    case InputTokens => p.input
    case CacheCreationTokens => p.cacheCreation
    case CacheReadTokens => p.cacheRead
    case OutputTokens => p.output
  }

  /** What the days report of one kind; days without components, and unknown counts, add nothing. */
  function ReportedOn(daily: seq<Day>, kind: TokenKind): nat {
    if daily == [] then 0
    else
      var day := daily[|daily| - 1];
      ReportedOn(daily[..|daily| - 1], kind) + (if day.components.Some? then Reported(day.components.value, kind) else 0)
  }

  /** Each part is the sum of what the days report of its own kind. */
  lemma {:induction false} EachPartIsItsSum(daily: seq<Day>, kind: TokenKind)
    ensures PartOf(PartsOf(daily), kind) == ReportedOn(daily, kind)
  {
    if daily != [] {
      EachPartIsItsSum(daily[..|daily| - 1], kind);
    }
  }

  function ModelsOfDay(day: Day): seq<ModelUsage> {
    day.models.GetOr([])
  }

  /** All model entries of the days, not merged. */
  function ModelEntries(daily: seq<Day>): seq<ModelUsage> {
    if daily == [] then [] else ModelEntries(daily[..|daily| - 1]) + ModelsOfDay(daily[|daily| - 1])
  }

  function ModelTotals(daily: seq<Day>): seq<ModelUsage> {
    if daily == [] then [] else MergeModels(ModelTotals(daily[..|daily| - 1]), ModelsOfDay(daily[|daily| - 1]))
  }

  lemma {:induction false} TokensAppend(a: seq<ModelUsage>, b: seq<ModelUsage>, name: string)
    ensures ModelTokens(a + b) == ModelTokens(a) + ModelTokens(b)
    ensures TokensNamed(a + b, name) == TokensNamed(a, name) + TokensNamed(b, name)
  {
    if b == [] {
      assert a + b == a;
    } else {
      var n := |b| - 1;
      TokensAppend(a, b[..n], name);
      assert (a + b)[..|a| + n] == a + b[..n];
    }
  }

  /** Each model's total over the days is the sum of what its entries say. */
  lemma {:induction false} ModelTotalsAddUp(daily: seq<Day>, name: string)
    ensures TokensNamed(ModelTotals(daily), name) == TokensNamed(ModelEntries(daily), name)
    ensures ModelTokens(ModelTotals(daily)) == ModelTokens(ModelEntries(daily))
    ensures UniqueModels(ModelTotals(daily))
  {
    if daily != [] {
      var n := |daily| - 1;
      ModelTotalsAddUp(daily[..n], name);
      MergingKeepsTokens(ModelTotals(daily[..n]), ModelsOfDay(daily[n]), name);
      TokensAppend(ModelEntries(daily[..n]), ModelsOfDay(daily[n]), name);
    }
  }

  // ---------------------------------------------------------------- normalization

  /** One model's line in a standard day's breakdown. */
  datatype Breakdown = Breakdown(
    model: string, input: Option<nat>, cacheCreation: Option<nat>, cacheRead: Option<nat>, output: Option<nat>)

  datatype RawDay = RawDay(
    date: string, input: Option<nat>, cacheCreation: Option<nat>, cacheRead: Option<nat>, output: Option<nat>,
    tokens: nat, breakdowns: Option<seq<Breakdown>>)

  function KnownSum(b: Breakdown): nat {
    b.input.GetOr(0) + b.cacheCreation.GetOr(0) + b.cacheRead.GetOr(0) + b.output.GetOr(0)
  }

  function PerModel(breakdowns: seq<Breakdown>): seq<ModelUsage> {
    seq(|breakdowns|, k requires 0 <= k < |breakdowns| => ModelUsage(breakdowns[k].model, KnownSum(breakdowns[k])))
  }

  function ComponentsOf(raw: RawDay): Components {
    Components(raw.input, raw.cacheCreation, raw.cacheRead, raw.output)
  }

  /** A standard day keeps its model totals only when they reconcile with the day's own total. */
  function NormalDay(raw: RawDay): Day {
    Day(raw.date, raw.tokens, Some(ComponentsOf(raw)),
        if raw.breakdowns.None? then None
        else
          var perModel := PerModel(raw.breakdowns.value);
          if Reconcile(ModelTokens(perModel), raw.tokens).itemized then Some(MergeModels([], perModel)) else None)
  }

  /** A normal day takes over what was reported, and the models exactly when at most one percent of
      the day's tokens is missing from them. */
  lemma NormalDayKeeps(raw: RawDay)
    ensures var day := NormalDay(raw);
      && day.date == raw.date && day.tokens == raw.tokens
      && day.components == Some(Components(raw.input, raw.cacheCreation, raw.cacheRead, raw.output))
      && (day.models.Some? <==>
            raw.breakdowns.Some?
            && var known := ModelTokens(PerModel(raw.breakdowns.value));
               known <= raw.tokens && 100 * (raw.tokens - known) <= raw.tokens)
  {
  }

  /** The known ones among some counts. */
  function KnownTokens(counts: seq<Option<nat>>): nat {
    if counts == [] then 0 else KnownTokens(counts[..|counts| - 1]) + counts[|counts| - 1].GetOr(0)
  }

  /** A model's tokens are all that its breakdown knows. */
  lemma ModelTokensAreKnown(breakdowns: seq<Breakdown>, k: nat)
    requires k < |breakdowns|
    ensures var b := breakdowns[k];
      && |PerModel(breakdowns)| == |breakdowns|
      && PerModel(breakdowns)[k] == ModelUsage(b.model, KnownTokens([b.input, b.cacheCreation, b.cacheRead, b.output]))
  {
    var b := breakdowns[k];
    KnownOneMore([], b.input);
    KnownOneMore([b.input], b.cacheCreation);
    KnownOneMore([b.input, b.cacheCreation], b.cacheRead);
    KnownOneMore([b.input, b.cacheCreation, b.cacheRead], b.output);
    hide KnownTokens;
    assert [] + [b.input] == [b.input];
    assert [b.input] + [b.cacheCreation] == [b.input, b.cacheCreation];
    assert [b.input, b.cacheCreation] + [b.cacheRead] == [b.input, b.cacheCreation, b.cacheRead];
    assert [b.input, b.cacheCreation, b.cacheRead] + [b.output] == [b.input, b.cacheCreation, b.cacheRead, b.output];
  }

  lemma KnownOneMore(counts: seq<Option<nat>>, count: Option<nat>)
    ensures KnownTokens(counts + [count]) == KnownTokens(counts) + count.GetOr(0)
    ensures counts == [] ==> KnownTokens(counts) == 0
  {
    assert (counts + [count])[..|counts|] == counts;
  }

  datatype Normalized = Normalized(
    daily: seq<Day>, models: seq<ModelUsage>, total: nat, parts: Parts, itemized: bool, earliest: Option<string>)

  /** `first` is the first of the days' dates in string order; without days there is none. */
  ghost predicate IsEarliest(daily: seq<Day>, first: Option<string>) {
    && (first.None? <==> daily == [])
    && (first.Some? ==>
          && (exists k | 0 <= k < |daily| :: daily[k].date == first.value)
          && forall k | 0 <= k < |daily| :: AtMost(first.value, daily[k].date))
  }

  /** The first of the sorted dates. */
  function Earliest(daily: seq<Day>): (first: Option<string>)
    ensures IsEarliest(daily, first)
  {
    if daily == [] then None
    else
      var n := |daily| - 1;
      var before := Earliest(daily[..n]);
      EarliestOneMore(daily, before);
      if before.None? || Less(daily[n].date, before.value) then Some(daily[n].date) else before
  }

  lemma EarliestOneMore(daily: seq<Day>, before: Option<string>)
    requires daily != [] && IsEarliest(daily[..|daily| - 1], before)
    ensures var date := daily[|daily| - 1].date;
      IsEarliest(daily, if before.None? || Less(date, before.value) then Some(date) else before)
  {
    hide Less;
    var n := |daily| - 1;
    var date := daily[n].date;
    if before.Some? {
      OneOrder(date, before.value);
      var k :| 0 <= k < n && daily[..n][k].date == before.value;
      assert daily[k].date == before.value;
      forall k | 0 <= k < n ensures AtMost(before.value, daily[k].date) && (Less(date, before.value) ==> AtMost(date, daily[k].date)) {
        assert daily[..n][k] == daily[k];
        if Less(date, before.value) {
          AtMostIsTransitive(date, before.value, daily[k].date);
        }
      }
    }
  }

  /** The models a standard day keeps, with its duplicate names merged. */
  method ModelsFor(day: RawDay) returns (models: Option<seq<ModelUsage>>)
    ensures Day(day.date, day.tokens, Some(ComponentsOf(day)), models) == NormalDay(day)
  {
    models := None;
    if day.breakdowns.Some? {
      var perModel := PerModel(day.breakdowns.value);
      if Reconcile(ModelTokens(perModel), day.tokens).itemized {
        var merged := SumModelUsage([], perModel);
        models := Some(merged);
      }
    }
  }

  /** `normalizeAgentDailyOutput` for the four agents with standard output. */
  method NormalizeStandardDaily(raw: seq<RawDay>, reported: Option<nat>) returns (r: Normalized)
    ensures |r.daily| == |raw| && forall k | 0 <= k < |raw| :: r.daily[k] == NormalDay(raw[k])
    ensures forall k | 0 <= k < |raw| ::
      && r.daily[k].date == raw[k].date && r.daily[k].tokens == raw[k].tokens
      && r.daily[k].components == Some(Components(raw[k].input, raw[k].cacheCreation, raw[k].cacheRead, raw[k].output))
    ensures r.models == ModelTotals(r.daily)
    ensures r.parts == PartsOf(r.daily) && forall kind :: PartOf(r.parts, kind) == ReportedOn(r.daily, kind)
    ensures r.total == reported.GetOr(Tokens(r.daily))
    ensures r.itemized <==> r.parts.Sum() <= r.total && 100 * (r.total - r.parts.Sum()) <= r.total
    ensures IsEarliest(r.daily, r.earliest)
  {
    hide NormalDay, Reconcile, IsEarliest;
    var daily: seq<Day> := [];
    var modelTotals: seq<ModelUsage> := [];
    var parts := NO_PARTS;
    var grandTotal := 0;
    for n := 0 to |raw|
      invariant |daily| == n && forall k | 0 <= k < n :: daily[k] == NormalDay(raw[k])
      invariant modelTotals == ModelTotals(daily)
      invariant parts == PartsOf(daily)
      invariant grandTotal == Tokens(daily)
    {
      var day := raw[n];
      var dayModels := ModelsFor(day);
      ghost var before := daily;
      daily := daily + [Day(day.date, day.tokens, Some(ComponentsOf(day)), dayModels)];
      assert daily[..n] == before;
      parts := Parts(parts.input + day.input.GetOr(0), parts.cacheCreation + day.cacheCreation.GetOr(0),
                     parts.cacheRead + day.cacheRead.GetOr(0), parts.output + day.output.GetOr(0));
      grandTotal := grandTotal + day.tokens;
      modelTotals := SumModelUsage(modelTotals, dayModels.GetOr([]));
    }
    var total := reported.GetOr(grandTotal);
    forall kind ensures PartOf(parts, kind) == ReportedOn(daily, kind) {
      EachPartIsItsSum(daily, kind);
    }
    forall k | 0 <= k < |raw|
      ensures daily[k].date == raw[k].date && daily[k].tokens == raw[k].tokens
      ensures daily[k].components == Some(Components(raw[k].input, raw[k].cacheCreation, raw[k].cacheRead, raw[k].output))
    {
      NormalDayKeeps(raw[k]);
    }
    hide PartOf, ReportedOn;
    r := Normalized(daily, modelTotals, total, parts, Reconcile(parts.Sum(), total).itemized, Earliest(daily));
  }

  /** The models of a day fit into its total. */
  ghost predicate DayFits(day: Day) {
    ModelTokens(ModelsOfDay(day)) <= day.tokens
  }

  /** A normalized standard day shows models only as a breakdown of its total, with at most one
      percent missing, one entry for each model and each model's own tokens. */
  lemma StandardDaysFit(raw: RawDay, name: string)
    ensures var day := NormalDay(raw);
      && DayFits(day)
      && UniqueModels(ModelsOfDay(day))
      && (day.models.Some? ==>
            && 100 * (day.tokens - ModelTokens(day.models.value)) <= day.tokens
            && TokensNamed(day.models.value, name) == TokensNamed(PerModel(raw.breakdowns.value), name))
  {
    if raw.breakdowns.Some? {
      MergingKeepsTokens([], PerModel(raw.breakdowns.value), name);
    }
  }

  /** A Codex day takes over the models it was given. */
  function CodexDay(date: string, tokens: nat, components: Components, models: Option<seq<ModelUsage>>): Day {
    Day(date, tokens, Some(components), models)
  }

  lemma CodexDaysNeedNotFit()
    ensures exists date, components, models :: !DayFits(CodexDay(date, 1, components, models))
  {
    var components := Components(None, None, None, None);
    assert ModelTokens([ModelUsage("m", 2)]) == 2;
    assert !DayFits(CodexDay("2026-01-01", 1, components, Some([ModelUsage("m", 2)])));
  }

  // ---------------------------------------------------------------- windows

  /** The days of a selection of dates, in order. */
  function Selected(daily: seq<Day>, dates: set<string>): seq<Day> {
    if daily == [] then []
    else
      var n := |daily| - 1;
      Selected(daily[..n], dates) + (if daily[n].date in dates then [daily[n]] else [])
  }

  predicate InWindow(w: Window, date: string) {
    FullDate(w.since) && FullDate(w.until) && FullDate(date) && DayOf(w.since) <= DayOf(date) <= DayOf(w.until)
  }

  /** The days whose dates lie in the window, as days of the calendar. */
  function InRange(daily: seq<Day>, w: Window): seq<Day> {
    if daily == [] then []
    else
      var n := |daily| - 1;
      InRange(daily[..n], w) + (if InWindow(w, daily[n].date) then [daily[n]] else [])
  }

  ghost predicate DatesOf(w: Window, dates: set<string>) {
    forall date :: date in dates <==> InWindow(w, date)
  }

  lemma {:induction false} SelectedIsInRange(daily: seq<Day>, w: Window, dates: set<string>)
    requires DatesOf(w, dates)
    ensures Selected(daily, dates) == InRange(daily, w)
  {
    hide InWindow;
    if daily != [] {
      SelectedIsInRange(daily[..|daily| - 1], w, dates);
    }
  }

  /** The generated dates are exactly those of the window. */
  lemma SequenceCoversWindow(w: Window, dates: seq<string>)
    requires FullDate(w.since) && FullDate(w.until)
    requires |dates| == if DayOf(w.since) <= DayOf(w.until) then DayOf(w.until) - DayOf(w.since) + 1 else 0
    requires forall k | 0 <= k < |dates| :: FullDate(dates[k]) && DayOf(dates[k]) == DayOf(w.since) + k
    ensures DatesOf(w, set date | date in dates)
  {
    hide FullDate, DayOf;
    forall date ensures date in dates <==> InWindow(w, date) {
      if date in dates {
        var k :| 0 <= k < |dates| && dates[k] == date;
      }
      if InWindow(w, date) {
        StringOrderIsDayOrder(dates[DayOf(date) - DayOf(w.since)], date);
      }
    }
  }

  function ModelTokensOn(daily: seq<Day>, dates: set<string>): nat {
    ModelTokens(ModelTotals(Selected(daily, dates)))
  }

  lemma {:induction false} ModelTokensOnSplit(daily: seq<Day>, dates: set<string>, more: set<string>)
    requires dates !! more
    ensures ModelTokensOn(daily, dates + more) == ModelTokensOn(daily, dates) + ModelTokensOn(daily, more)
    ensures Tokens(Selected(daily, dates + more)) == Tokens(Selected(daily, dates)) + Tokens(Selected(daily, more))
  {
    if daily != [] {
      var n := |daily| - 1;
      ModelTokensOnSplit(daily[..n], dates, more);
      SelectedOneMore(daily, dates);
      SelectedOneMore(daily, more);
      SelectedOneMore(daily, dates + more);
    }
  }

  lemma SelectedOneMore(daily: seq<Day>, dates: set<string>)
    requires daily != []
    ensures var n := |daily| - 1;
      var counted := daily[n].date in dates;
      && ModelTokensOn(daily, dates)
         == ModelTokensOn(daily[..n], dates) + (if counted then ModelTokens(ModelsOfDay(daily[n])) else 0)
      && Tokens(Selected(daily, dates)) == Tokens(Selected(daily[..n], dates)) + (if counted then daily[n].tokens else 0)
  {
    var n := |daily| - 1;
    var before := Selected(daily[..n], dates);
    ModelTotalsAddUp(before, "");
    if daily[n].date in dates {
      assert (before + [daily[n]])[..|before|] == before;
      MergingKeepsTokens(ModelTotals(before), ModelsOfDay(daily[n]), "");
    } else {
      assert Selected(daily, dates) == before;
    }
  }

  ghost predicate FitsOn(daily: seq<Day>, dates: set<string>) {
    ModelTokensOn(daily, dates) <= Tokens(Selected(daily, dates))
  }

  lemma {:induction false} NothingSelected(daily: seq<Day>)
    ensures Selected(daily, {}) == []
  {
    if daily != [] {
      NothingSelected(daily[..|daily| - 1]);
    }
  }

  lemma {:induction false} FitsWhenEachDateFits(daily: seq<Day>, dates: set<string>)
    requires forall date | date in dates :: FitsOn(daily, {date})
    ensures FitsOn(daily, dates)
    decreases |dates|
  {
    if dates == {} {
      NothingSelected(daily);
    } else {
      var date :| date in dates;
      FitsWhenEachDateFits(daily, dates - {date});
      ModelTokensOnSplit(daily, dates - {date}, {date});
      assert dates - {date} + {date} == dates;
    }
  }

  /** Model totals stay within the agent's total for every selection of dates exactly when they do
      on every single date. */
  lemma ModelsFitEveryRangeIff(daily: seq<Day>)
    ensures (forall dates: set<string> :: FitsOn(daily, dates)) <==> (forall date :: FitsOn(daily, {date}))
  {
    if forall date :: FitsOn(daily, {date}) {
      forall dates: set<string> ensures FitsOn(daily, dates) {
        FitsWhenEachDateFits(daily, dates);
      }
    }
  }

  lemma {:induction false} FittingDaysFit(daily: seq<Day>, dates: set<string>)
    requires forall k | 0 <= k < |daily| :: DayFits(daily[k])
    ensures FitsOn(daily, dates)
  {
    if daily != [] {
      var n := |daily| - 1;
      FittingDaysFit(daily[..n], dates);
      SelectedOneMore(daily, dates);
      assert DayFits(daily[n]);
    }
  }

  /** For an agent with standard output, model totals never exceed the agent's total, in any window. */
  lemma StandardModelsFitEveryRange(raw: seq<RawDay>, daily: seq<Day>, dates: set<string>)
    requires |daily| == |raw| && forall k | 0 <= k < |raw| :: daily[k] == NormalDay(raw[k])
    ensures ModelTokens(ModelTotals(Selected(daily, dates))) <= Tokens(Selected(daily, dates))
  {
    forall k | 0 <= k < |daily| ensures DayFits(daily[k]) {
      StandardDaysFit(raw[k], "");
    }
    FittingDaysFit(daily, dates);
  }

  // ---------------------------------------------------------------- the report

  datatype Status = Available | Unavailable | Unsupported | Error

  /** What the cache holds for one agent; `capturedOn` is the local date of its capture time, absent
      when that time cannot be read. */
  datatype Snapshot = Snapshot(status: Status, earliestDate: Option<string>, capturedOn: Option<string>, daily: seq<Day>)

  type Cache = map<Agent, Snapshot>

  datatype AgentReport = AgentReport(
    agent: Agent,
    status: Status,
    itemized: bool,
    complete: bool,
    tokens: Option<nat>,
    unitemized: nat,
    parts: Option<Parts>,
    daily: seq<Day>,
    models: seq<ModelUsage>,
    previousTokens: Option<nat>)

  datatype Totals = Totals(tokens: nat, parts: Parts, unitemized: nat)

  /** One square of the activity heatmap, and the squares of one agent. */
  datatype Square = Square(date: string, tokens: nat)

  datatype AgentSquares = AgentSquares(agent: Agent, squares: seq<Square>)

  datatype Report = Report(
    current: Window,
    previous: Window,
    heatmapSince: string,
    heatmap: seq<AgentSquares>,
    agents: seq<AgentReport>,
    totals: Option<Totals>,
    currentTokens: nat,
    previousTokens: nat,
    comparable: bool,
    percentage: Option<int>,
    partial: bool)

  predicate IsAvailable(cache: Cache, agent: Agent) {
    agent in cache && cache[agent].status.Available?
  }

  /** The agent has no figures at all: never read, or its last read failed. */
  predicate IsMissing(cache: Cache, agent: Agent) {
    agent in cache ==> cache[agent].status.Error?
  }

  predicate ReachesBack(snapshot: Snapshot, since: string) {
    snapshot.earliestDate.None? || AtMost(snapshot.earliestDate.value, since)
  }

  /** With the earliest of its dates on record, an agent's data reach back to a day exactly when it
      has no data at all, or has some on that day or before it. */
  lemma ReachingBackIsHavingDays(snapshot: Snapshot, since: string)
    requires IsEarliest(snapshot.daily, snapshot.earliestDate)
    ensures ReachesBack(snapshot, since)
      <==> snapshot.daily == [] || exists k | 0 <= k < |snapshot.daily| :: AtMost(snapshot.daily[k].date, since)
  {
    hide Less;
    forall k | 0 <= k < |snapshot.daily| && AtMost(snapshot.daily[k].date, since) ensures ReachesBack(snapshot, since) {
      AtMostIsTransitive(snapshot.earliestDate.value, snapshot.daily[k].date, since);
    }
  }

  function ByTokens(): ModelUsage -> int {
    (m: ModelUsage) => m.tokens
  }

  function AvailableReport(agent: Agent, snapshot: Snapshot, current: Window, previous: Window): AgentReport {
    var daily := InRange(snapshot.daily, current);
    var parts := PartsOf(daily);
    var reconciled := Reconcile(parts.Sum(), Tokens(daily));
    AgentReport(agent, Available, reconciled.itemized, ReachesBack(snapshot, current.since), Some(Tokens(daily)),
                reconciled.unitemized, Some(parts), daily, SortDescending(ModelTotals(daily), ByTokens()),
                Some(Tokens(InRange(snapshot.daily, previous))))
  }

  /** A failure is never shown as zero. */
  function MissingReport(agent: Agent, status: Status): AgentReport {
    AgentReport(agent, status, false, false, None, 0, None, [], [], None)
  }

  /** An agent that is not installed or not supported has used nothing. */
  function IdleReport(agent: Agent, status: Status): AgentReport {
    AgentReport(agent, status, true, false, Some(0), 0, None, [], [], None)
  }

  function AgentReportOf(cache: Cache, agent: Agent, current: Window, previous: Window): AgentReport {
    if IsMissing(cache, agent) then MissingReport(agent, if agent in cache then Error else Unavailable)
    else if cache[agent].status.Available? then AvailableReport(agent, cache[agent], current, previous)
    else IdleReport(agent, cache[agent].status)
  }

  /** The tokens that the available agents among `agents` used on the days of the window. */
  function TokensIn(agents: seq<Agent>, cache: Cache, w: Window): nat {
    if agents == [] then 0
    else
      var agent := agents[|agents| - 1];
      TokensIn(agents[..|agents| - 1], cache, w)
        + (if IsAvailable(cache, agent) then Tokens(InRange(cache[agent].daily, w)) else 0)
  }

  /** The heatmap picks days by comparing their dates as strings. */
  function SquaresOf(daily: seq<Day>, since: string, until: string): seq<Square> {
    if daily == [] then []
    else
      var n := |daily| - 1;
      SquaresOf(daily[..n], since, until)
        + (if AtMost(since, daily[n].date) && AtMost(daily[n].date, until) then [Square(daily[n].date, daily[n].tokens)] else [])
  }

  function HeatmapOf(cache: Cache, agents: seq<Agent>, since: string, until: string): seq<AgentSquares> {
    if agents == [] then []
    else
      var agent := agents[|agents| - 1];
      HeatmapOf(cache, agents[..|agents| - 1], since, until)
        + (if IsAvailable(cache, agent) then [AgentSquares(agent, SquaresOf(cache[agent].daily, since, until))] else [])
  }

  function ShownTokens(agents: seq<AgentReport>): nat {
    if agents == [] then 0 else ShownTokens(agents[..|agents| - 1]) + agents[|agents| - 1].tokens.GetOr(0)
  }

  /** Capture dates come from formatting an instant in the report's timezone. */
  ghost predicate CapturesOk(cache: Cache) {
    forall agent | agent in cache && cache[agent].capturedOn.Some? :: FullDate(cache[agent].capturedOn.value)
  }

  /** An agent's data stops before `until`. */
  predicate EndsEarly(cache: Cache, agent: Agent, until: string) {
    IsAvailable(cache, agent) && cache[agent].capturedOn.Some? && Less(cache[agent].capturedOn.value, until)
  }

  predicate StartsLate(cache: Cache, agent: Agent, since: string) {
    IsAvailable(cache, agent) && !ReachesBack(cache[agent], since)
  }

  /** Every date of both windows and of the heatmap has a four-digit year, and the range does not end
      on the last one. */
  predicate Representable(days: int, today: string) {
    && FullDate(today) && today != LAST_DATE && FIRST_DAY + 90 <= DayOf(today)
    && (var count := if days < 1 then 1 else days;
        FIRST_DAY <= DayOf(today) - count && FIRST_DAY <= DayOf(today) - count + 1 - days <= LAST_DAY)
  }

  method DatesIn(w: Window) returns (dates: set<string>)
    requires FullDate(w.since) && FullDate(w.until) && w.until != LAST_DATE
    ensures DatesOf(w, dates)
  {
    hide *;
    var sequence := GenerateDateSequence(w.since, w.until);
    SequenceCoversWindow(w, sequence);
    dates := set date | date in sequence;
  }

  /** The loop over the days of one agent's window. */
  method SumDays(daily: seq<Day>) returns (parts: Parts, models: seq<ModelUsage>)
    ensures parts == PartsOf(daily)
    ensures models == ModelTotals(daily)
  {
    parts, models := NO_PARTS, [];
    for n := 0 to |daily|
      invariant parts == PartsOf(daily[..n])
      invariant models == ModelTotals(daily[..n])
    {
      assert daily[..n + 1][..n] == daily[..n];
      if daily[n].components.Some? {
        parts := AddComponents(parts, daily[n].components.value);
      }
      models := SumModelUsage(models, ModelsOfDay(daily[n]));
    }
    assert daily[..|daily|] == daily;
  }

  method ReportAvailable(agent: Agent, snapshot: Snapshot, current: Window, previous: Window,
                         dates: set<string>, previousDates: set<string>) returns (report: AgentReport)
    requires DatesOf(current, dates) && DatesOf(previous, previousDates) && snapshot.status.Available?
    ensures report == AvailableReport(agent, snapshot, current, previous)
  {
    hide DatesOf, InRange, Tokens, PartsOf, ModelTotals, Reconcile, SortDescending, ReachesBack;
    SelectedIsInRange(snapshot.daily, current, dates);
    SelectedIsInRange(snapshot.daily, previous, previousDates);
    var daily := Selected(snapshot.daily, dates);
    var parts, models := SumDays(daily);
    var total := Tokens(daily);
    var reconciled := Reconcile(parts.Sum(), total);
    report := AgentReport(agent, Available, reconciled.itemized, ReachesBack(snapshot, current.since), Some(total),
                          reconciled.unitemized, Some(parts), daily, SortDescending(models, ByTokens()),
                          Some(Tokens(Selected(snapshot.daily, previousDates))));
  }

  /** Which agents the comparison can use: none missing, none ending before today, none starting
      after the previous window does. */
  ghost predicate ComparableAgents(cache: Cache, agents: seq<Agent>, until: string, previousSince: string) {
    forall k | 0 <= k < |agents| ::
      && IsAvailable(cache, agents[k])
      && !EndsEarly(cache, agents[k], until)
      && !StartsLate(cache, agents[k], previousSince)
  }

  datatype Ranges = Ranges(current: Window, previous: Window, heatmapSince: string)

  function RangesFor(days: int, today: string): (r: Ranges)
    requires Representable(days, today)
    ensures FullDate(r.current.since) && r.current.until == today
    ensures FullDate(r.previous.since) && FullDate(r.previous.until) && r.previous.until != LAST_DATE
  {
    WindowsAreAdjacent(days, today);
    var current := RangeWindow(days, today);
    var previous := PreviousWindow(days, current.since);
    DayBeforeIsNotLast(previous.until, current.since);
    Ranges(current, previous, CalendarSince(today))
  }

  lemma DayBeforeIsNotLast(day: string, next: string)
    requires FullDate(day) && FullDate(next) && DayOf(day) + 1 == DayOf(next)
    ensures day != LAST_DATE
  {
    hide *;
    LastDateIsLast();
    DayRange(next);
  }

  /** `through` is the earliest capture date among the available agents. */
  ghost predicate EarliestCapture(cache: Cache, agents: seq<Agent>, through: Option<string>) {
    && (through.Some? ==> FullDate(through.value))
    && forall until | FullDate(until) ::
         (through.Some? && Less(through.value, until)) <==> exists k | 0 <= k < |agents| :: EndsEarly(cache, agents[k], until)
  }

  function EarlierCapture(cache: Cache, agent: Agent, through: Option<string>): Option<string> {
    if IsAvailable(cache, agent) && cache[agent].capturedOn.Some?
       && (through.None? || Less(cache[agent].capturedOn.value, through.value))
    then cache[agent].capturedOn else through
  }

  lemma EarliestCaptureOneMore(cache: Cache, agents: seq<Agent>, agent: Agent, through: Option<string>)
    requires CapturesOk(cache) && EarliestCapture(cache, agents, through)
    ensures EarliestCapture(cache, agents + [agent], EarlierCapture(cache, agent, through))
  {
    hide FullDate, DayOf, Less;
    var longer := agents + [agent];
    var next := EarlierCapture(cache, agent, through);
    forall until | FullDate(until)
      ensures (next.Some? && Less(next.value, until)) <==> exists k | 0 <= k < |longer| :: EndsEarly(cache, longer[k], until)
    {
      assert (exists k | 0 <= k < |longer| :: EndsEarly(cache, longer[k], until))
        <==> (exists k | 0 <= k < |agents| :: EndsEarly(cache, agents[k], until)) || EndsEarly(cache, agent, until) by {
        if k :| 0 <= k < |agents| && EndsEarly(cache, agents[k], until) {
          assert longer[k] == agents[k];
        }
        assert longer[|agents|] == agent;
      }
      if IsAvailable(cache, agent) && cache[agent].capturedOn.Some? {
        StringOrderIsDayOrder(cache[agent].capturedOn.value, until);
        if through.Some? {
          StringOrderIsDayOrder(through.value, until);
          StringOrderIsDayOrder(cache[agent].capturedOn.value, through.value);
        }
      }
    }
  }

  ghost predicate AnyAvailable(cache: Cache, agents: seq<Agent>) {
    exists k | 0 <= k < |agents| :: IsAvailable(cache, agents[k])
  }

  /** An agent without figures, or one whose logs start inside the range. */
  ghost predicate AnyGap(cache: Cache, agents: seq<Agent>, since: string) {
    exists k | 0 <= k < |agents| :: IsMissing(cache, agents[k]) || StartsLate(cache, agents[k], since)
  }

  ghost predicate AnyEndsEarly(cache: Cache, agents: seq<Agent>, until: string) {
    exists k | 0 <= k < |agents| :: EndsEarly(cache, agents[k], until)
  }

  /** The tokens of one kind that the agents show, as far as they are itemized. */
  function ShownOfKind(agents: seq<AgentReport>, kind: TokenKind): nat {
    if agents == [] then 0
    else
      var last := agents[|agents| - 1];
      ShownOfKind(agents[..|agents| - 1], kind)
        + (if last.itemized && last.parts.Some? then PartOf(last.parts.value, kind) else 0)
  }

  ghost predicate KindsAddUp(totals: Totals, agents: seq<AgentReport>) {
    forall kind :: PartOf(totals.parts, kind) == ShownOfKind(agents, kind)
  }

  lemma KindsOneMore(totals: Totals, agents: seq<AgentReport>, report: AgentReport)
    requires KindsAddUp(totals, agents)
    ensures KindsAddUp(AddReport(totals, report), agents + [report])
  {
    assert (agents + [report])[..|agents|] == agents;
  }

  lemma NoKindsYet(agents: seq<AgentReport>)
    requires agents == []
    ensures KindsAddUp(Totals(0, NO_PARTS, 0), agents)
  {
  }

  /** What the loop over the agents has added up. */
  datatype Tally = Tally(
    agents: seq<AgentReport>, heatmap: seq<AgentSquares>, totals: Totals, found: bool, gap: bool, through: Option<string>)

  ghost predicate Tallied(cache: Cache, agents: seq<Agent>, ranges: Ranges, t: Tally) {
    && |t.agents| == |agents|
    && (forall k | 0 <= k < |agents| :: t.agents[k] == AgentReportOf(cache, agents[k], ranges.current, ranges.previous))
    && t.totals.tokens == TokensIn(agents, cache, ranges.current) == ShownTokens(t.agents)
    && t.heatmap == HeatmapOf(cache, agents, ranges.heatmapSince, ranges.current.until)
    && Balanced(t.totals) && KindsAddUp(t.totals, t.agents)
    && (t.found <==> AnyAvailable(cache, agents))
    && (t.gap <==> AnyGap(cache, agents, ranges.current.since))
    && EarliestCapture(cache, agents, t.through)
  }

  function AddReport(totals: Totals, report: AgentReport): Totals {
    Totals(totals.tokens + report.tokens.GetOr(0),
           if report.itemized && report.parts.Some? then AddParts(totals.parts, report.parts.value) else totals.parts,
           totals.unitemized + report.unitemized)
  }

  /** Summed components and unitemized tokens are the total. */
  ghost predicate Balanced(totals: Totals) {
    totals.parts.Sum() + totals.unitemized == totals.tokens
  }

  /** What an agent shows is its itemized parts and the rest. */
  ghost predicate BalancedReport(report: AgentReport) {
    report.tokens.GetOr(0)
      == (if report.itemized && report.parts.Some? then report.parts.value.Sum() else 0) + report.unitemized
  }

  lemma AddingStaysBalanced(totals: Totals, report: AgentReport)
    requires Balanced(totals) && BalancedReport(report)
    ensures Balanced(AddReport(totals, report))
    ensures AddReport(totals, report).tokens == totals.tokens + report.tokens.GetOr(0)
  {
  }

  function TallyOne(cache: Cache, agent: Agent, report: AgentReport, ranges: Ranges, t: Tally): Tally {
    Tally(t.agents + [report],
          t.heatmap + (if IsAvailable(cache, agent)
                       then [AgentSquares(agent, SquaresOf(cache[agent].daily, ranges.heatmapSince, ranges.current.until))]
                       else []),
          AddReport(t.totals, report),
          t.found || report.status.Available?,
          t.gap || report.tokens.None? || (report.status.Available? && !report.complete),
          EarlierCapture(cache, agent, t.through))
  }

  lemma AvailableTokensAreParts(agent: Agent, snapshot: Snapshot, current: Window, previous: Window)
    ensures var report := AvailableReport(agent, snapshot, current, previous);
      && report.tokens == Some(Tokens(InRange(snapshot.daily, current)))
      && BalancedReport(report)
      && report.status.Available?
      && report.complete == ReachesBack(snapshot, current.since)
  {
    hide InRange, Tokens, PartsOf, ModelTotals, SortDescending, ReachesBack, ByTokens;
  }

  lemma OtherReportsAreBalanced(agent: Agent, status: Status)
    ensures BalancedReport(MissingReport(agent, status)) && BalancedReport(IdleReport(agent, status))
    ensures MissingReport(agent, status).tokens.None? && MissingReport(agent, status).status == status
    ensures IdleReport(agent, status).tokens == Some(0) && IdleReport(agent, status).status == status
  {
  }

  /** What one agent shows is its itemized parts and the rest, and is what its days in the window hold. */
  lemma AgentTokensAreParts(cache: Cache, agent: Agent, ranges: Ranges)
    ensures var report := AgentReportOf(cache, agent, ranges.current, ranges.previous);
      && BalancedReport(report)
      && report.tokens.GetOr(0) ==
           (if IsAvailable(cache, agent) then Tokens(InRange(cache[agent].daily, ranges.current)) else 0)
      && (report.status.Available? <==> IsAvailable(cache, agent))
      && (report.tokens.None? <==> IsMissing(cache, agent))
      && (report.status.Available? && !report.complete <==> StartsLate(cache, agent, ranges.current.since))
  {
    hide AvailableReport, MissingReport, IdleReport, ReachesBack, BalancedReport, InRange, Tokens;
    if agent in cache {
      OtherReportsAreBalanced(agent, cache[agent].status);
      if IsAvailable(cache, agent) {
        AvailableTokensAreParts(agent, cache[agent], ranges.current, ranges.previous);
      }
    }
    OtherReportsAreBalanced(agent, Error);
    OtherReportsAreBalanced(agent, Unavailable);
  }

  lemma AnyOneMore(cache: Cache, agents: seq<Agent>, agent: Agent, since: string)
    ensures AnyAvailable(cache, agents + [agent]) <==> AnyAvailable(cache, agents) || IsAvailable(cache, agent)
    ensures AnyGap(cache, agents + [agent], since)
      <==> AnyGap(cache, agents, since) || IsMissing(cache, agent) || StartsLate(cache, agent, since)
  {
    hide IsAvailable, IsMissing, StartsLate;
    var longer := agents + [agent];
    assert longer[|agents|] == agent;
    assert forall k | 0 <= k < |agents| :: longer[k] == agents[k];
  }

  lemma TokensOneMore(cache: Cache, agents: seq<Agent>, agent: Agent, reports: seq<AgentReport>, report: AgentReport, w: Window)
    ensures ShownTokens(reports + [report]) == ShownTokens(reports) + report.tokens.GetOr(0)
    ensures TokensIn(agents + [agent], cache, w) == TokensIn(agents, cache, w)
      + if IsAvailable(cache, agent) then Tokens(InRange(cache[agent].daily, w)) else 0
  {
    hide InRange, Tokens;
    assert (agents + [agent])[..|agents|] == agents && (reports + [report])[..|reports|] == reports;
  }

  lemma HeatmapOneMore(cache: Cache, agents: seq<Agent>, agent: Agent, since: string, until: string)
    ensures HeatmapOf(cache, agents + [agent], since, until) == HeatmapOf(cache, agents, since, until)
      + (if IsAvailable(cache, agent) then [AgentSquares(agent, SquaresOf(cache[agent].daily, since, until))] else [])
  {
    hide SquaresOf;
    assert (agents + [agent])[..|agents|] == agents;
  }

  lemma TallyOneMore(cache: Cache, agents: seq<Agent>, agent: Agent, ranges: Ranges, t: Tally)
    requires CapturesOk(cache) && Tallied(cache, agents, ranges, t)
    ensures Tallied(cache, agents + [agent], ranges,
                    TallyOne(cache, agent, AgentReportOf(cache, agent, ranges.current, ranges.previous), ranges, t))
  {
    hide HeatmapOf, SquaresOf, AgentReportOf, EarliestCapture, EarlierCapture, IsAvailable, IsMissing, StartsLate, InRange,
      Tokens, TokensIn, ShownTokens, AnyAvailable, AnyGap, AddReport, Balanced, BalancedReport, KindsAddUp;
    var report := AgentReportOf(cache, agent, ranges.current, ranges.previous);
    AgentTokensAreParts(cache, agent, ranges);
    EarliestCaptureOneMore(cache, agents, agent, t.through);
    AddingStaysBalanced(t.totals, report);
    KindsOneMore(t.totals, t.agents, report);
    AnyOneMore(cache, agents, agent, ranges.current.since);
    TokensOneMore(cache, agents, agent, t.agents, report, ranges.current);
    HeatmapOneMore(cache, agents, agent, ranges.heatmapSince, ranges.current.until);
  }

  function NothingYet(): Tally {
    Tally([], [], Totals(0, NO_PARTS, 0), false, false, None)
  }

  lemma NothingTallied(cache: Cache, agents: seq<Agent>, ranges: Ranges, t: Tally)
    requires agents == [] && t.agents == [] && t.heatmap == []
    requires Balanced(t.totals) && KindsAddUp(t.totals, t.agents) && t.totals.tokens == 0 && !t.found && !t.gap && t.through.None?
    ensures Tallied(cache, agents, ranges, t)
  {
    hide FullDate, Less, InRange, AgentReportOf, EndsEarly, StartsLate, IsMissing, IsAvailable, Balanced, KindsAddUp;
    assert !AnyAvailable(cache, agents) && !AnyGap(cache, agents, ranges.current.since);
    assert EarliestCapture(cache, agents, t.through);
  }

  lemma NothingYetIsBalanced()
    ensures var t := NothingYet();
      && t.agents == [] && t.heatmap == [] && Balanced(t.totals) && KindsAddUp(t.totals, t.agents)
      && t.totals.tokens == 0 && !t.found && !t.gap && t.through.None?
  {
    NoKindsYet(NothingYet().agents);
  }

  /** The loop over the agents. */
  method TallyAgents(cache: Cache, agents: seq<Agent>, ranges: Ranges, dates: set<string>, previousDates: set<string>)
    returns (t: Tally)
    requires CapturesOk(cache) && DatesOf(ranges.current, dates) && DatesOf(ranges.previous, previousDates)
    ensures Tallied(cache, agents, ranges, t)
  {
    hide Tallied, CapturesOk, DatesOf, AvailableReport, MissingReport, IdleReport, NothingYet, Balanced, KindsAddUp;
    t := NothingYet();
    NothingYetIsBalanced();
    NothingTallied(cache, agents[..0], ranges, t);
    for n := 0 to |agents|
      invariant Tallied(cache, agents[..n], ranges, t)
    {
      var agent := agents[n];
      var report;
      if IsMissing(cache, agent) {
        report := MissingReport(agent, if agent in cache then Error else Unavailable);
      } else if cache[agent].status.Available? {
        report := ReportAvailable(agent, cache[agent], ranges.current, ranges.previous, dates, previousDates);
      } else {
        report := IdleReport(agent, cache[agent].status);
      }
      TallyOneMore(cache, agents[..n], agent, ranges, t);
      assert agents[..n] + [agent] == agents[..n + 1];
      t := TallyOne(cache, agent, report, ranges, t);
    }
    assert agents[..|agents|] == agents;
  }

  /** The comparison's own loop over the agents. */
  method TallyPrevious(cache: Cache, agents: seq<Agent>, previous: Window, previousDates: set<string>)
    returns (tokens: nat, unavailable: seq<Agent>, shortHistory: seq<Agent>)
    requires DatesOf(previous, previousDates)
    ensures tokens == TokensIn(agents, cache, previous)
    ensures unavailable == [] <==> forall k | 0 <= k < |agents| :: IsAvailable(cache, agents[k])
    ensures shortHistory == [] <==> forall k | 0 <= k < |agents| :: !StartsLate(cache, agents[k], previous.since)
  {
    hide DatesOf, ReachesBack;
    tokens, unavailable, shortHistory := 0, [], [];
    for n := 0 to |agents|
      invariant tokens == TokensIn(agents[..n], cache, previous)
      invariant unavailable == [] <==> forall k | 0 <= k < n :: IsAvailable(cache, agents[k])
      invariant shortHistory == [] <==> forall k | 0 <= k < n :: !StartsLate(cache, agents[k], previous.since)
    {
      var agent := agents[n];
      assert agents[..n + 1][..n] == agents[..n];
      if !IsAvailable(cache, agent) {
        unavailable := unavailable + [agent];
      } else {
        if !ReachesBack(cache[agent], previous.since) {
          shortHistory := shortHistory + [agent];
        }
        SelectedIsInRange(cache[agent].daily, previous, previousDates);
        tokens := tokens + Tokens(Selected(cache[agent].daily, previousDates));
      }
    }
    assert agents[..|agents|] == agents;
  }

  lemma {:induction false} NothingAvailable(cache: Cache, agents: seq<Agent>, w: Window)
    requires !AnyAvailable(cache, agents)
    ensures TokensIn(agents, cache, w) == 0
  {
    if agents != [] {
      var n := |agents| - 1;
      assert !IsAvailable(cache, agents[n]);
      forall k | 0 <= k < n ensures !IsAvailable(cache, agents[..n][k]) {
        assert !IsAvailable(cache, agents[k]);
      }
      NothingAvailable(cache, agents[..n], w);
    }
  }

  lemma TalliedMeans(cache: Cache, agents: seq<Agent>, ranges: Ranges, t: Tally)
    requires Tallied(cache, agents, ranges, t) && FullDate(ranges.current.until)
    ensures |t.agents| == |agents|
    ensures forall k | 0 <= k < |agents| :: t.agents[k] == AgentReportOf(cache, agents[k], ranges.current, ranges.previous)
    ensures t.heatmap == HeatmapOf(cache, agents, ranges.heatmapSince, ranges.current.until)
    ensures t.totals.tokens == TokensIn(agents, cache, ranges.current) == ShownTokens(t.agents)
    ensures t.totals.parts.Sum() + t.totals.unitemized == t.totals.tokens
    ensures KindsAddUp(t.totals, t.agents)
    ensures t.found <==> AnyAvailable(cache, agents)
    ensures t.gap <==> AnyGap(cache, agents, ranges.current.since)
    ensures t.through.Some? && Less(t.through.value, ranges.current.until)
      <==> AnyEndsEarly(cache, agents, ranges.current.until)
  {
    hide FullDate, Less, KindsAddUp;
  }

  lemma ComparableMeans(cache: Cache, agents: seq<Agent>, until: string, since: string)
    ensures ComparableAgents(cache, agents, until, since) <==>
      && (forall k | 0 <= k < |agents| :: IsAvailable(cache, agents[k]))
      && !AnyEndsEarly(cache, agents, until)
      && (forall k | 0 <= k < |agents| :: !StartsLate(cache, agents[k], since))
    ensures agents != [] && ComparableAgents(cache, agents, until, since) ==> AnyAvailable(cache, agents)
  {
    hide IsAvailable, EndsEarly, StartsLate;
    if agents != [] && ComparableAgents(cache, agents, until, since) {
      assert IsAvailable(cache, agents[0]);
    }
  }

  /** The whole number of percent nearest to the change, the larger one if two are. */
  ghost predicate NearestPercent(percent: int, current: nat, previous: nat) {
    (2 * percent - 1) * previous <= 200 * (current - previous) < (2 * percent + 1) * previous
  }

  /** `Math.round` of the change in percent, computed exactly. */
  function Percent(current: nat, previous: nat): (percent: int)
    requires previous > 0
    ensures NearestPercent(percent, current, previous)
  {
    (200 * (current - previous) + previous) / (2 * previous)
  }

  /** `deriveReportFromCache`: component sums plus unitemized tokens are the total, which is what
      the agents show and what the calendar says; both windows are summed by the same rule. */
  method DeriveReport(cache: Cache, days: int, today: string) returns (r: Report)
    requires Representable(days, today) && CapturesOk(cache)
    ensures Ranges(r.current, r.previous, r.heatmapSince) == RangesFor(days, today)
    ensures r.heatmap == HeatmapOf(cache, AGENT_REGISTRY, r.heatmapSince, r.current.until)
    ensures |r.agents| == |AGENT_REGISTRY|
    ensures forall k | 0 <= k < |AGENT_REGISTRY| ::
      r.agents[k] == AgentReportOf(cache, AGENT_REGISTRY[k], r.current, r.previous)
    ensures r.currentTokens == TokensIn(AGENT_REGISTRY, cache, r.current) == ShownTokens(r.agents)
    ensures r.previousTokens == TokensIn(AGENT_REGISTRY, cache, r.previous)
    ensures r.totals.Some? <==> AnyAvailable(cache, AGENT_REGISTRY)
    ensures r.totals.Some? ==>
      && r.totals.value.tokens == r.currentTokens
      && r.totals.value.parts.Sum() + r.totals.value.unitemized == r.totals.value.tokens
      && KindsAddUp(r.totals.value, r.agents)
    ensures r.comparable <==> ComparableAgents(cache, AGENT_REGISTRY, r.current.until, r.previous.since)
    ensures r.percentage.Some? <==> r.comparable && r.previousTokens > 0
    ensures r.percentage.Some? ==> NearestPercent(r.percentage.value, r.currentTokens, r.previousTokens)
    ensures r.partial <==>
      AnyGap(cache, AGENT_REGISTRY, r.current.since) || AnyEndsEarly(cache, AGENT_REGISTRY, r.current.until)
  {
    var agents := AGENT_REGISTRY;
    assert agents == AGENT_REGISTRY && agents != [];
    assert FullDate(today) && today != LAST_DATE;
    var ranges := RangesFor(days, today);
    hide *;
    var dates := DatesIn(ranges.current);
    var previousDates := DatesIn(ranges.previous);
    var t := TallyAgents(cache, agents, ranges, dates, previousDates);
    var staleEnd := t.through.Some? && Less(t.through.value, ranges.current.until);
    var previousTokens, comparable := 0, false;
    if t.found {
      var unavailable, shortHistory;
      previousTokens, unavailable, shortHistory := TallyPrevious(cache, agents, ranges.previous, previousDates);
      comparable := unavailable == [] && !staleEnd && shortHistory == [];
    } else {
      NothingAvailable(cache, agents, ranges.previous);
    }
    TalliedMeans(cache, agents, ranges, t);
    ComparableMeans(cache, agents, ranges.current.until, ranges.previous.since);
    var percentage := if comparable && previousTokens > 0 then Some(Percent(t.totals.tokens, previousTokens)) else None;
    r := Report(ranges.current, ranges.previous, ranges.heatmapSince, t.heatmap, t.agents,
                if t.found then Some(t.totals) else None,
                t.totals.tokens, previousTokens, comparable, percentage, t.gap || staleEnd);
  }

  /** The previous window is the one the same derivation would have covered had it been asked on the
      window's last day, exactly when at least one day was asked for. */
  lemma PreviousIsAnEarlierRangeIff(days: int, today: string)
    requires Representable(days, today) && DayOf(RangesFor(days, today).previous.until) + 1 - days >= 0
    ensures var previous := RangesFor(days, today).previous;
      previous == RangeWindow(days, previous.until) <==> days >= 1
  {
    hide FullDate, DayOf, ShiftDate, Less, AtMost, FromDay;
    WindowsAreAdjacent(days, today);
    hide Representable;
    var previous := RangesFor(days, today).previous;
    DayRange(previous.until);
    if days < 1 {
      ShiftMovesDay(previous.until, 0);
    }
  }

  /** So previous-window tokens are the tokens the same derivation gives for that earlier day. */
  lemma PreviousTokensAreAnEarlierReports(cache: Cache, days: int, today: string)
    requires days >= 1 && Representable(days, today)
    requires Representable(days, RangesFor(days, today).previous.until)
    ensures var ranges := RangesFor(days, today);
      TokensIn(AGENT_REGISTRY, cache, ranges.previous)
        == TokensIn(AGENT_REGISTRY, cache, RangesFor(days, ranges.previous.until).current)
  {
    PreviousIsAnEarlierRangeIff(days, today);
  }

  lemma {:induction false} EmptyPrevious(daily: seq<Day>, w: Window)
    requires FullDate(w.since) && FullDate(w.until) && DayOf(w.since) > DayOf(w.until)
    ensures InRange(daily, w) == []
  {
    hide FullDate, DayOf;
    if daily != [] {
      EmptyPrevious(daily[..|daily| - 1], w);
    }
  }

  lemma {:induction false} EmptyWindowHoldsNothing(agents: seq<Agent>, cache: Cache, w: Window)
    requires FullDate(w.since) && FullDate(w.until) && DayOf(w.since) > DayOf(w.until)
    ensures TokensIn(agents, cache, w) == 0
  {
    hide FullDate, DayOf, InRange;
    if agents != [] {
      var agent := agents[|agents| - 1];
      EmptyWindowHoldsNothing(agents[..|agents| - 1], cache, w);
      if IsAvailable(cache, agent) {
        EmptyPrevious(cache[agent].daily, w);
      }
    }
  }

  /** Asked for less than a day, the derivation compares one day with nothing. */
  lemma WithoutDaysPreviousIsNothing(cache: Cache, days: int, today: string)
    requires days < 1 && Representable(days, today)
    ensures TokensIn(AGENT_REGISTRY, cache, RangesFor(days, today).previous) == 0
  {
    hide TokensIn, FullDate, DayOf, ShiftDate, Less;
    WindowsAreAdjacent(days, today);
    EmptyWindowHoldsNothing(AGENT_REGISTRY, cache, RangesFor(days, today).previous);
  }

  // ---------------------------------------------------------------- what an agent's report says

  /** An agent that was never read, or whose read failed, shows no tokens and says which; one that is
      not installed or not supported shows none used; an available one shows its days of the window,
      their total, the total of the days of the previous window, each kind of token as reported,
      whether these make up the total to within one percent, and whether its data reach back. */
  lemma AgentReportReads(cache: Cache, agent: Agent, current: Window, previous: Window)
    ensures var r := AgentReportOf(cache, agent, current, previous);
      && r.agent == agent
      && (agent !in cache ==> r.status.Unavailable? && r.tokens.None? && !r.itemized && r.daily == [] && r.previousTokens.None?)
      && (agent in cache ==> r.status == cache[agent].status)
      && (agent in cache && r.status.Error? ==> r.tokens.None? && !r.itemized && r.daily == [] && r.previousTokens.None?)
      && (agent in cache && (r.status.Unavailable? || r.status.Unsupported?) ==>
            r.tokens == Some(0) && r.unitemized == 0 && r.daily == [] && r.models == [])
      && (agent in cache && r.status.Available? ==>
            var days := InRange(cache[agent].daily, current);
            && r.daily == days && r.tokens == Some(Tokens(days))
            && r.previousTokens == Some(Tokens(InRange(cache[agent].daily, previous)))
            && r.parts.Some? && (forall kind :: PartOf(r.parts.value, kind) == ReportedOn(days, kind))
            && (r.itemized <==>
                  r.parts.value.Sum() <= Tokens(days) && 100 * (Tokens(days) - r.parts.value.Sum()) <= Tokens(days))
            && (r.complete <==>
                  cache[agent].earliestDate.None? || AtMost(cache[agent].earliestDate.value, current.since)))
  {
    hide InRange, Tokens, PartsOf, ModelTotals, SortDescending, ByTokens, AtMost, PartOf, ReportedOn;
    if agent in cache && cache[agent].status.Available? {
      forall kind ensures PartOf(PartsOf(InRange(cache[agent].daily, current)), kind)
        == ReportedOn(InRange(cache[agent].daily, current), kind)
      {
        EachPartIsItsSum(InRange(cache[agent].daily, current), kind);
      }
    }
  }

  ghost predicate Between(day: Day, since: string, until: string) {
    AtMost(since, day.date) && AtMost(day.date, until)
  }

  /** The squares of an agent are its days between the ends of the heatmap, and no others. */
  lemma {:induction false} SquaresAre(daily: seq<Day>, since: string, until: string)
    ensures forall day | day in daily && Between(day, since, until) :: Square(day.date, day.tokens) in SquaresOf(daily, since, until)
    ensures forall s | s in SquaresOf(daily, since, until) ::
      exists day :: day in daily && Between(day, since, until) && s == Square(day.date, day.tokens)
  {
    hide AtMost;
    if daily != [] {
      var n := |daily| - 1;
      SquaresAre(daily[..n], since, until);
      assert daily == daily[..n] + [daily[n]];
      forall s | s in SquaresOf(daily, since, until)
        ensures exists day :: day in daily && Between(day, since, until) && s == Square(day.date, day.tokens)
      {
        if s in SquaresOf(daily[..n], since, until) {
          var day :| day in daily[..n] && Between(day, since, until) && s == Square(day.date, day.tokens);
          assert day in daily;
        } else {
          assert daily[n] in daily && Between(daily[n], since, until);
        }
      }
    }
  }

  // ---------------------------------------------------------------- heatmap and totals

  /** What the squares between two dates, compared as strings, add up to. */
  function SquareTokens(squares: seq<Square>, since: string, until: string): nat {
    if squares == [] then 0
    else
      var last := squares[|squares| - 1];
      SquareTokens(squares[..|squares| - 1], since, until)
        + (if AtMost(since, last.date) && AtMost(last.date, until) then last.tokens else 0)
  }

  /** The tokens on days whose date string lies in the window but is no date, such as a thirtieth
      of February. */
  function TokensOnNoDate(daily: seq<Day>, w: Window): nat {
    if daily == [] then 0
    else
      var n := |daily| - 1;
      TokensOnNoDate(daily[..n], w)
        + (if AtMost(w.since, daily[n].date) && AtMost(daily[n].date, w.until) && !FullDate(daily[n].date)
           then daily[n].tokens else 0)
  }

  lemma SquareTokensOneMore(squares: seq<Square>, square: Square, since: string, until: string)
    ensures SquareTokens(squares + [square], since, until) == SquareTokens(squares, since, until)
      + (if AtMost(since, square.date) && AtMost(square.date, until) then square.tokens else 0)
  {
    hide AtMost;
    assert (squares + [square])[..|squares|] == squares;
  }

  lemma TokensOneMoreDay(daily: seq<Day>, day: Day)
    ensures Tokens(daily + [day]) == Tokens(daily) + day.tokens
  {
    assert (daily + [day])[..|daily|] == daily;
  }

  lemma DatesCompareAsStrings(date: string, w: Window)
    requires FullDate(w.since) && FullDate(w.until)
    ensures InWindow(w, date) <==> FullDate(date) && AtMost(w.since, date) && AtMost(date, w.until)
  {
    hide FullDate, AtMost, DayOf;
    if FullDate(date) {
      StringOrderIsDayOrder(w.since, date);
      StringOrderIsDayOrder(date, w.until);
    }
  }

  /** The heatmap and the totals pick the days of a window by different rules, one by comparing
      strings and the other by membership in the generated dates. What they make of a window inside
      the heatmap differs exactly by the tokens on strings that are no dates. */
  lemma {:induction false} HeatmapExceedsTotals(daily: seq<Day>, w: Window, since: string, until: string)
    requires FullDate(w.since) && FullDate(w.until) && AtMost(since, w.since) && AtMost(w.until, until)
    ensures SquareTokens(SquaresOf(daily, since, until), w.since, w.until)
      == Tokens(InRange(daily, w)) + TokensOnNoDate(daily, w)
  {
    hide FullDate, AtMost, InWindow;
    if daily != [] {
      var n := |daily| - 1;
      var day := daily[n];
      HeatmapExceedsTotals(daily[..n], w, since, until);
      SquareTokensOneMore(SquaresOf(daily[..n], since, until), Square(day.date, day.tokens), w.since, w.until);
      TokensOneMoreDay(InRange(daily[..n], w), day);
      DatesCompareAsStrings(day.date, w);
      if AtMost(w.since, day.date) && AtMost(day.date, w.until) {
        AtMostIsTransitive(since, w.since, day.date);
        AtMostIsTransitive(day.date, w.until, until);
      }
      assert InRange(daily[..n], w) + [] == InRange(daily[..n], w);
      assert SquaresOf(daily[..n], since, until) + [] == SquaresOf(daily[..n], since, until);
    }
  }

  lemma StrangeFormat()
    ensures Format(Civil(2026, 2, 30)) == "2026-02-30"
  {
    assert Decimal(2026) == "2026" by {
      assert Decimal(2) == "2" && Decimal(20) == "20" && Decimal(202) == "202";
    }
    assert Pad2(2) == "02" && Pad2(30) == "30";
  }

  lemma LessBehind(head: string, a: string, b: string)
    requires a != "" && b != "" && a[0] < b[0]
    ensures Less(head + a, head + b)
  {
    LessByParts(head, head, a, b);
  }

  lemma StrangeOrder()
    ensures Less("2026-02-01", "2026-02-30") && Less("2026-02-30", "2026-03-31")
  {
    hide Less;
    LessBehind("2026-02-", "01", "30");
    assert "2026-02-" + "01" == "2026-02-01" && "2026-02-" + "30" == "2026-02-30";
    LessBehind("2026-0", "2-30", "3-31");
    assert "2026-0" + "2-30" == "2026-02-30" && "2026-0" + "3-31" == "2026-03-31";
  }

  /** Such a string passes for a day between the first of February and the end of March. */
  lemma ThirtiethOfFebruaryIsNoDate()
    ensures AtMost("2026-02-01", "2026-02-30") && AtMost("2026-02-30", "2026-03-31") && !FullDate("2026-02-30")
  {
    hide Format, Parse, Less;
    StrangeFormat();
    StrangeOrder();
    ParseFormat(Civil(2026, 2, 30));
  }

  // ---------------------------------------------------------------- what a caller can ask for

  const DEFAULT_DAYS := 30

  /** The guard of the entry point: no days, or fewer than one, mean thirty. */
  function RequestedDays(days: Option<int>): int {
    if days.Some? && days.value > 0 then days.value else DEFAULT_DAYS
  }

  /** The cache file, or what the program takes for it: data of another timezone counts as none. */
  datatype Stored = Stored(timezone: string, agents: Cache)

  function Effective(stored: Option<Stored>, timezone: string): Cache {
    if stored.Some? && stored.value.timezone == timezone then stored.value.agents else map[]
  }

  /** Both windows are as long as what was asked for, thirty days if nothing or less than a day was, the
      previous one ends the day before the current one starts, and it is the range the same request
      covers on that day. */
  ghost predicate LikeWithLike(days: Option<int>, today: string, current: Window, previous: Window) {
    var count := if days.None? || days.value < 1 then 30 else days.value;
    && FullDate(today) && FullDate(current.since) && FullDate(previous.since) && FullDate(previous.until)
    && current.until == today && Span(current) == Span(previous) == count
    && DayOf(previous.until) + 1 == DayOf(current.since)
    && DayOf(previous.until) + 1 - count >= 0
    && previous == RangeWindow(count, previous.until)
  }

  lemma RequestsCompareLikeWithLike(days: Option<int>, today: string)
    requires Representable(RequestedDays(days), today)
    ensures var ranges := RangesFor(RequestedDays(days), today);
      LikeWithLike(days, today, ranges.current, ranges.previous)
  {
    hide FullDate, DayOf, ShiftDate, Less, AtMost, FromDay;
    var count := RequestedDays(days);
    WindowsAreAdjacent(count, today);
    var previous := RangesFor(count, today).previous;
    DayRange(previous.since);
    assert DayOf(previous.until) + 1 - count == DayOf(previous.since);
    PreviousIsAnEarlierRangeIff(count, today);
  }

  /** `getCachedTokenUsage` after its last read of the cache file: whatever number of days a caller
      passes, the change it is shown is between two ranges of that length. */
  method GetCachedTokenUsage(stored: Option<Stored>, days: Option<int>, timezone: string, today: string)
    returns (r: Report)
    requires Representable(RequestedDays(days), today) && (stored.Some? ==> CapturesOk(stored.value.agents))
    ensures LikeWithLike(days, today, r.current, r.previous)
    ensures r.currentTokens == TokensIn(AGENT_REGISTRY, Effective(stored, timezone), r.current)
    ensures r.previousTokens == TokensIn(AGENT_REGISTRY, Effective(stored, timezone), r.previous)
    ensures stored.Some? && stored.value.timezone == timezone ==>
      && r.currentTokens == TokensIn(AGENT_REGISTRY, stored.value.agents, r.current)
      && |r.agents| == |AGENT_REGISTRY|
      && forall k | 0 <= k < |AGENT_REGISTRY| ::
           r.agents[k] == AgentReportOf(stored.value.agents, AGENT_REGISTRY[k], r.current, r.previous)
    ensures stored.None? || stored.value.timezone != timezone ==> r.totals.None? && !r.comparable
  {
    hide LikeWithLike, TokensIn, FullDate, DayOf;
    var requested := if days.Some? && days.value > 0 then days.value else DEFAULT_DAYS;
    var cache: Cache := map[];
    if stored.Some? && stored.value.timezone == timezone {
      cache := stored.value.agents;
    }
    RequestsCompareLikeWithLike(days, today);
    r := DeriveReport(cache, requested, today);
    if stored.None? || stored.value.timezone != timezone {
      assert !IsAvailable(cache, AGENT_REGISTRY[0]);
    }
  }

  /** In the report of an agent with standard output, the models shown, largest first, are all of
      the window's models and never exceed the agent's total. */
  lemma ReportedModelsFit(agent: Agent, snapshot: Snapshot, raw: seq<RawDay>, current: Window, previous: Window, name: string)
    requires snapshot.status.Available?
    requires |snapshot.daily| == |raw| && forall k | 0 <= k < |raw| :: snapshot.daily[k] == NormalDay(raw[k])
    ensures var report := AvailableReport(agent, snapshot, current, previous);
      && ModelTokens(report.models) <= report.tokens.value
      && TokensNamed(report.models, name) == TokensNamed(ModelEntries(report.daily), name)
      && Descending(report.models, ByTokens())
  {
    hide NormalDay, PartsOf, ReachesBack, InRange;
    var report := AvailableReport(agent, snapshot, current, previous);
    var models := ModelTotals(report.daily);
    SortIsStablePermutation(models, ByTokens());
    ModelTotalsAddUp(report.daily, name);
    PermutedTokens(models, report.models, name);
    forall k | 0 <= k < |report.daily| ensures DayFits(report.daily[k]) {
      InRangeMembers(snapshot.daily, current);
      var q :| 0 <= q < |raw| && report.daily[k] == snapshot.daily[q];
      StandardDaysFit(raw[q], name);
    }
    FittingDaysSum(report.daily);
  }

  lemma {:induction false} InRangeMembers(daily: seq<Day>, w: Window)
    ensures forall k | 0 <= k < |InRange(daily, w)| :: InRange(daily, w)[k] in daily
  {
    hide InWindow;
    if daily != [] {
      InRangeMembers(daily[..|daily| - 1], w);
    }
  }

  lemma {:induction false} FittingDaysSum(daily: seq<Day>)
    requires forall k | 0 <= k < |daily| :: DayFits(daily[k])
    ensures ModelTokens(ModelTotals(daily)) <= Tokens(daily)
  {
    if daily != [] {
      var n := |daily| - 1;
      FittingDaysSum(daily[..n]);
      ModelTotalsAddUp(daily[..n], "");
      MergingKeepsTokens(ModelTotals(daily[..n]), ModelsOfDay(daily[n]), "");
      assert DayFits(daily[n]);
    }
  }

  lemma TokensWithoutOne(b: seq<ModelUsage>, k: nat, name: string)
    requires k < |b|
    ensures var rest := b[..k] + b[k + 1..];
      && ModelTokens(b) == ModelTokens(rest) + b[k].tokens
      && TokensNamed(b, name) == TokensNamed(rest, name) + (if b[k].model == name then b[k].tokens else 0)
  {
    assert b[..k + 1][..k] == b[..k];
    assert b == b[..k + 1] + b[k + 1..];
    TokensAppend(b[..k + 1], b[k + 1..], name);
    TokensAppend(b[..k], b[k + 1..], name);
  }

  lemma MultisetWithoutOne<T>(b: seq<T>, k: nat)
    requires k < |b|
    ensures multiset(b) == multiset(b[..k] + b[k + 1..]) + multiset{b[k]}
  {
    assert b == b[..k] + [b[k]] + b[k + 1..];
  }

  lemma RestsArePermuted<T>(a: seq<T>, b: seq<T>, k: nat)
    requires multiset(a) == multiset(b) && a != [] && k < |b| && b[k] == a[|a| - 1]
    ensures multiset(a[..|a| - 1]) == multiset(b[..k] + b[k + 1..])
  {
    var n := |a| - 1;
    MultisetWithoutOne(b, k);
    MultisetWithoutOne(a, n);
    assert a[..n] + a[n + 1..] == a[..n];
    assert multiset(a[..n]) == multiset(a) - multiset{a[n]};
    assert multiset(b[..k] + b[k + 1..]) == multiset(b) - multiset{b[k]};
  }

  lemma {:induction false} PermutedTokens(a: seq<ModelUsage>, b: seq<ModelUsage>, name: string)
    requires multiset(a) == multiset(b)
    ensures ModelTokens(a) == ModelTokens(b) && TokensNamed(a, name) == TokensNamed(b, name)
  {
    if a == [] {
      assert |b| == |multiset(b)| == 0;
    } else {
      var n := |a| - 1;
      assert a[n] in multiset(b);
      var k :| 0 <= k < |b| && b[k] == a[n];
      RestsArePermuted(a, b, k);
      TokensWithoutOne(b, k, name);
      PermutedTokens(a[..n], b[..k] + b[k + 1..], name);
    }
  }
}
