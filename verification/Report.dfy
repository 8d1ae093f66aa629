/** Usage reports: totals of a period, broken down by model. */
module Reports {
  import opened Options
  import opened Sequences
  import opened Usages

  datatype PeriodType = Daily | Weekly | Monthly | Custom(start: int, end: int)

  datatype ModelUsage = ModelUsage(
    model: string,
    requests: nat,
    inputTokens: nat,
    outputTokens: nat,
    totalTokens: nat)
  {
    function AsTotals(): Totals { Totals(requests, inputTokens, outputTokens, totalTokens) }
  }

  datatype UsageReport = UsageReport(
    userId: string,
    period: PeriodType,
    generatedAt: int,
    totalRequests: nat,
    totalInputTokens: nat,
    totalOutputTokens: nat,
    totalTokens: nat,
    perModel: seq<ModelUsage>)

  /** Every period ends now; the end of a custom one is not looked at. */
  function StartOf(period: PeriodType, now: int): int {
    match period
    case Daily => now - Days(1)
    case Weekly => now - Days(7)
    case Monthly => now - Days(30)
    case Custom(start, _) => start
  }

  function Within(start: int, end: int): UsageRecord -> bool {
    (r: UsageRecord) => start <= r.timestamp <= end
  }

  /** How far back the fixed periods reach, in nanoseconds: a day, a week, thirty days; and none into the future. */
  lemma PeriodsReachBack(r: UsageRecord, now: int)
    ensures var age := now - r.timestamp; var day := 24 * 60 * 60 * 1_000_000_000;
      && (Within(StartOf(Daily, now), now)(r) <==> 0 <= age <= day)
      && (Within(StartOf(Weekly, now), now)(r) <==> 0 <= age <= 7 * day)
      && (Within(StartOf(Monthly, now), now)(r) <==> 0 <= age <= 30 * day)
  {}

  // ----- custom periods -----

  /** A record of the custom period or of the reported one, but not of both. */
  predicate Misplaced(r: UsageRecord, start: int, end: int, now: int) {
    start <= r.timestamp && Min(end, now) < r.timestamp <= Max(end, now)
  }

  /** A report on a custom period covers the period asked for exactly when no record lies between its end and now. */
  lemma CustomPeriodExactly(records: seq<UsageRecord>, start: int, end: int, now: int)
    ensures Filter(Within(StartOf(Custom(start, end), now), now), records) == Filter(Within(start, end), records)
      <==> forall r :: r in records ==> !Misplaced(r, start, end, now)
  {
    var strict, loose := Within(start, Min(end, now)), Within(start, Max(end, now));
    StricterFilter(loose, strict, records);
    assert forall r :: loose(r) && !strict(r) <==> Misplaced(r, start, end, now);
    assert (exists i :: 0 <= i < |records| && loose(records[i]) && !strict(records[i]))
      <==> exists r :: r in records && Misplaced(r, start, end, now);
  }

  /** A record made after the period asked for is reported all the same. */
  lemma LaterUseIsReported(start: int, end: int, now: int)
    requires start <= end < now
    ensures exists records :: (Filter(Within(StartOf(Custom(start, end), now), now), records) == records
      && records != [] && Filter(Within(start, end), records) == [])
  {
    var records := [UsageRecord(0, "user", "model", 1, 1, 2, now)];
    assert Filter(Within(start, now), records) == records;
    assert Filter(Within(start, end), records) == [];
  }

  function NotModel(model: string): UsageRecord -> bool { (r: UsageRecord) => r.model != model }

  /** What the records of one model add up to. */
  function UsageFor(records: seq<UsageRecord>, model: string): (usage: ModelUsage)
    ensures usage.model == model
  {
    if records == [] then ModelUsage(model, 0, 0, 0, 0)
    else
      var u, r := UsageFor(records[..|records| - 1], model), records[|records| - 1];
      Counted(u, r, model)
  }

  function Counted(u: ModelUsage, r: UsageRecord, model: string): ModelUsage {
    if r.model != model then u
    else
      ModelUsage(u.model, u.requests + 1, u.inputTokens + r.inputTokens, u.outputTokens + r.outputTokens,
                 u.totalTokens + r.totalTokens)
  }

  function DescendingTotal(): ModelUsage -> real { (u: ModelUsage) => -(u.totalTokens as real) }

  function ModelsIn(records: seq<UsageRecord>): set<string> {
    if records == [] then {} else ModelsIn(records[..|records| - 1]) + {records[|records| - 1].model}
  }

  /** The entry of every model in use. */
  function GroupsOf(records: seq<UsageRecord>): map<string, ModelUsage> {
    map m | m in ModelsIn(records) :: UsageFor(records, m)
  }

  /** A list of the map's values, each once, in some order. */
  ghost predicate Lists(entries: seq<ModelUsage>, groups: map<string, ModelUsage>) {
    && Distinct(entries)
    && (forall u :: u in entries ==> u.model in groups && groups[u.model] == u)
    && (forall m :: m in groups ==> groups[m].model == m && groups[m] in entries)
  }

  /** Exactly one entry for every model in use, holding the totals of the model's records. */
  ghost predicate Breakdown(perModel: seq<ModelUsage>, records: seq<UsageRecord>) {
    Lists(perModel, GroupsOf(records))
  }

  function SumOf(entries: seq<ModelUsage>): Totals {
    if entries == [] then ZERO else SumOf(entries[..|entries| - 1]).Plus(entries[|entries| - 1].AsTotals())
  }

  // ----- conservation -----

  lemma {:induction false} TotalsSplitByModel(records: seq<UsageRecord>, model: string)
    ensures TotalsOf(records) == TotalsOf(Filter(NotModel(model), records)).Plus(UsageFor(records, model).AsTotals())
  {
    if records != [] {
      var front, last := records[..|records| - 1], records[|records| - 1];
      TotalsSplitByModel(front, model);
      if last.model != model {
        TotalsPush(Filter(NotModel(model), front), last);
      }
    }
  }

  lemma {:induction false} OtherModelsUntouched(records: seq<UsageRecord>, model: string, other: string)
    requires model != other
    ensures UsageFor(Filter(NotModel(model), records), other) == UsageFor(records, other)
  {
    if records != [] {
      var front, last := records[..|records| - 1], records[|records| - 1];
      OtherModelsUntouched(front, model, other);
      if last.model != model {
        UsageForPush(Filter(NotModel(model), front), last, other);
      }
    }
  }

  lemma UsageForPush(records: seq<UsageRecord>, r: UsageRecord, m: string)
    ensures UsageFor(records + [r], m) == Counted(UsageFor(records, m), r, m)
  {
    assert (records + [r])[..|records|] == records;
  }

  lemma ModelsPush(records: seq<UsageRecord>, r: UsageRecord)
    ensures ModelsIn(records + [r]) == ModelsIn(records) + {r.model}
  {
    assert (records + [r])[..|records|] == records;
  }

  lemma {:induction false} ModelsWithoutOne(records: seq<UsageRecord>, model: string)
    ensures ModelsIn(Filter(NotModel(model), records)) == ModelsIn(records) - {model}
  {
    if records != [] {
      var front, last := records[..|records| - 1], records[|records| - 1];
      ModelsWithoutOne(front, model);
      var rest := Filter(NotModel(model), front);
      if last.model != model {
        assert Filter(NotModel(model), records) == rest + [last];
        ModelsPush(rest, last);
      } else {
        assert Filter(NotModel(model), records) == rest;
      }
    }
  }

  /** Without the records of one model, the groups are the same but for that model's. */
  lemma GroupsWithoutOne(records: seq<UsageRecord>, model: string)
    ensures GroupsOf(Filter(NotModel(model), records)) == GroupsOf(records) - {model}
  {
    ModelsWithoutOne(records, model);
    var rest := Filter(NotModel(model), records);
    forall m | m in ModelsIn(rest) ensures UsageFor(rest, m) == UsageFor(records, m) {
      OtherModelsUntouched(records, model, m);
    }
  }

  lemma ListsWithoutLast(entries: seq<ModelUsage>, groups: map<string, ModelUsage>)
    requires entries != [] && Lists(entries, groups)
    ensures Lists(entries[..|entries| - 1], groups - {entries[|entries| - 1].model})
  {
    var n := |entries| - 1;
    var front, last := entries[..n], entries[n];
    assert entries == front + [last];
    assert last in entries;
    forall u | u in front ensures u in entries && u.model != last.model {
      var i :| 0 <= i < n && entries[i] == u;
    }
    forall m | m in groups - {last.model} ensures groups[m] in front {
      assert groups[m] in entries && groups[m] != last;
    }
  }

  /** However the entries are ordered, they add up to the totals of the report. */
  lemma {:induction false} BreakdownConserves(perModel: seq<ModelUsage>, records: seq<UsageRecord>)
    requires Breakdown(perModel, records)
    ensures SumOf(perModel) == TotalsOf(records)
    decreases |perModel|
  {
    if perModel != [] {
      var model := perModel[|perModel| - 1].model;
      assert perModel[|perModel| - 1] in perModel;
      ListsWithoutLast(perModel, GroupsOf(records));
      GroupsWithoutOne(records, model);
      BreakdownConserves(perModel[..|perModel| - 1], Filter(NotModel(model), records));
      TotalsSplitByModel(records, model);
    } else {
      assert GroupsOf(records).Keys == {};
      NoModelsNoRecords(records);
    }
  }

  lemma NoModelsNoRecords(records: seq<UsageRecord>)
    ensures ModelsIn(records) == {} <==> records == []
  {
    if records != [] {
      assert records[|records| - 1].model in ModelsIn(records);
    }
  }

  ghost predicate LargestFirst(perModel: seq<ModelUsage>) {
    forall i, j :: 0 <= i < j < |perModel| ==> perModel[i].totalTokens >= perModel[j].totalTokens
  }

  lemma SortKeepsBreakdown(perModel: seq<ModelUsage>, records: seq<UsageRecord>)
    requires Breakdown(perModel, records)
    ensures Breakdown(StableSort(DescendingTotal(), perModel), records)
    ensures LargestFirst(StableSort(DescendingTotal(), perModel))
  {
    var key, sorted := DescendingTotal(), StableSort(DescendingTotal(), perModel);
    StableSortProperties(key, perModel);
    SameElements(sorted, perModel);
    PermutationKeepsDistinct(perModel, sorted);
    forall i, j | 0 <= i < j < |sorted| ensures sorted[i].totalTokens >= sorted[j].totalTokens {
      assert key(sorted[i]) <= key(sorted[j]);
    }
  }

  // ----- the generator -----

  lemma {:induction false} UnusedModelIsZero(records: seq<UsageRecord>, m: string)
    requires m !in ModelsIn(records)
    ensures UsageFor(records, m) == ModelUsage(m, 0, 0, 0, 0)
  {
    if records != [] {
      UnusedModelIsZero(records[..|records| - 1], m);
    }
  }

  /** One more record changes its own model's entry and no other. */
  lemma GroupsPush(records: seq<UsageRecord>, r: UsageRecord)
    ensures GroupsOf(records + [r]) == GroupsOf(records)[r.model := UsageFor(records + [r], r.model)]
  {
    ModelsPush(records, r);
    forall m | m in ModelsIn(records) && m != r.model ensures UsageFor(records + [r], m) == UsageFor(records, m) {
      UsageForPush(records, r, m);
    }
  }

  /** Groups the records in a map, one pass. */
  method GroupByModel(filtered: seq<UsageRecord>) returns (modelMap: map<string, ModelUsage>)
    ensures modelMap == GroupsOf(filtered)
  {
    modelMap := map[];
    for i := 0 to |filtered|
      invariant modelMap == GroupsOf(filtered[..i])
    {
      var r := filtered[i];
      var entry := if r.model in modelMap then modelMap[r.model] else ModelUsage(r.model, 0, 0, 0, 0);
      ghost var seen := filtered[..i];
      if r.model !in modelMap {
        UnusedModelIsZero(seen, r.model);
      }
      assert entry == UsageFor(seen, r.model);
      UsageForPush(seen, r, r.model);
      GroupsPush(seen, r);
      modelMap := modelMap[r.model := ModelUsage(entry.model, entry.requests + 1, entry.inputTokens + r.inputTokens,
                                                 entry.outputTokens + r.outputTokens,
                                                 entry.totalTokens + r.totalTokens)];
      assert filtered[..i + 1] == seen + [r];
    }
    assert filtered[..|filtered|] == filtered;
  }

  /** Lists the map's values, in whatever order the map yields them. */
  method ValuesOf(modelMap: map<string, ModelUsage>) returns (entries: seq<ModelUsage>)
    requires forall m :: m in modelMap ==> modelMap[m].model == m
    ensures Lists(entries, modelMap)
  {
    entries := [];
    var todo := modelMap.Keys;
    while todo != {}
      invariant todo <= modelMap.Keys
      invariant Distinct(entries)
      invariant forall u :: u in entries ==> u.model in modelMap && u.model !in todo && modelMap[u.model] == u
      invariant forall m :: m in modelMap && m !in todo ==> modelMap[m] in entries
      decreases todo
    {
      var m :| m in todo;
      entries := entries + [modelMap[m]];
      todo := todo - {m};
    }
  }

  /** The figures of a report on these records, and a breakdown by model, largest first, that adds up to them. */
  ghost predicate ReportsOn(report: UsageReport, filtered: seq<UsageRecord>) {
    && Totals(report.totalRequests, report.totalInputTokens, report.totalOutputTokens, report.totalTokens)
        == TotalsOf(filtered)
    && SumOf(report.perModel) == TotalsOf(filtered)
    && Breakdown(report.perModel, filtered)
    && LargestFirst(report.perModel)
  }

  /** The per-model list: grouped, listed, sorted. */
  method RankModels(filtered: seq<UsageRecord>) returns (perModel: seq<ModelUsage>)
    ensures Breakdown(perModel, filtered) && LargestFirst(perModel)
  {
    var modelMap := GroupByModel(filtered);
    var entries := ValuesOf(modelMap);
    perModel := StableSort(DescendingTotal(), entries);
    SortKeepsBreakdown(entries, filtered);
  }

  /** The totals of the filtered records, and their breakdown. */
  method Summarize(userId: string, period: PeriodType, now: int, filtered: seq<UsageRecord>)
    returns (report: UsageReport)
    requires Balanced(filtered)
    ensures report.userId == userId && report.period == period && report.generatedAt == now
    ensures ReportsOn(report, filtered)
  {
    var totals := TotalsOf(filtered);
    BalancedTotals(filtered);
    TotalsCount(filtered);
    var perModel := RankModels(filtered);
    BreakdownConserves(perModel, filtered);
    report := UsageReport(userId, period, now, |filtered|, totals.input, totals.output, totals.input + totals.output,
                          perModel);
  }

  class ReportGenerator {
    const tracker: UsageTracker

    constructor (tracker: UsageTracker)
      ensures this.tracker == tracker
    {
      this.tracker := tracker;
    }

    method Generate(userId: string, period: PeriodType, now: int) returns (r: Result<UsageReport, Error>)
      requires tracker.Valid()
      ensures r.Err? <==> Filter(ForUser(userId), tracker.records) == []
      ensures r.Ok? ==>
        && r.value.userId == userId && r.value.period == period && r.value.generatedAt == now
        && ReportsOn(r.value, Filter(Within(StartOf(period, now), now), Filter(ForUser(userId), tracker.records)))
    {
      var start := StartOf(period, now);
      var found := tracker.GetRecords(userId);
      if found.Err? {
        return Err(found.error);
      }
      var filtered := Filter(Within(start, now), found.value);
      FilterKeepsBalanced(ForUser(userId), tracker.records);
      FilterKeepsBalanced(Within(start, now), found.value);
      var report := Summarize(userId, period, now, filtered);
      r := Ok(report);
    }
  }
}
