/** The usage ledger and its aggregate index. */
module Usages {
  import opened Keys
  import opened Options
  import opened Sequences

  datatype UsageRecord = UsageRecord(
    id: nat,
    userId: string,
    model: string,
    inputTokens: nat,
    outputTokens: nat,
    totalTokens: nat,
    timestamp: int)

  datatype Totals = Totals(count: nat, input: nat, output: nat, total: nat) {
    function Plus(other: Totals): Totals {
      Totals(count + other.count, input + other.input, output + other.output, total + other.total)
    }
  }

  const ZERO := Totals(0, 0, 0, 0)

  function One(r: UsageRecord): Totals { Totals(1, r.inputTokens, r.outputTokens, r.totalTokens) }

  function TotalsOf(records: seq<UsageRecord>): Totals {
    if records == [] then ZERO else TotalsOf(records[..|records| - 1]).Plus(One(records[|records| - 1]))
  }

  function KeyOf(r: UsageRecord): string { Join(r.userId, r.model) }

  function ForKey(key: string): UsageRecord -> bool { (r: UsageRecord) => KeyOf(r) == key }

  function ForUser(user: string): UsageRecord -> bool { (r: UsageRecord) => r.userId == user }

  function ForUserAndModel(user: string, model: string): UsageRecord -> bool {
    (r: UsageRecord) => r.userId == user && r.model == model
  }

  lemma TotalsPush(records: seq<UsageRecord>, r: UsageRecord)
    ensures TotalsOf(records + [r]) == TotalsOf(records).Plus(One(r))
  {
    assert (records + [r])[..|records|] == records;
  }

  lemma {:induction false} TotalsCount(records: seq<UsageRecord>)
    ensures TotalsOf(records).count == |records|
  {
    if records != [] {
      TotalsCount(records[..|records| - 1]);
    }
  }

  /** Totals are the sums of the records' own figures: those of one record, and of records put together. */
  lemma TotalsOfOne(r: UsageRecord)
    ensures TotalsOf([]) == Totals(0, 0, 0, 0)
    ensures TotalsOf([r]) == Totals(1, r.inputTokens, r.outputTokens, r.totalTokens)
  {
    assert [r][..0] == [];
  }

  lemma PlusAssociates(x: Totals, y: Totals, z: Totals)
    ensures x.Plus(y).Plus(z) == x.Plus(y.Plus(z))
  {}

  lemma PushBehind(a: seq<UsageRecord>, b: seq<UsageRecord>, r: UsageRecord)
    ensures a + (b + [r]) == (a + b) + [r]
  {}

  lemma {:induction false} TotalsAreSums(a: seq<UsageRecord>, b: seq<UsageRecord>)
    ensures TotalsOf(a + b) == TotalsOf(a).Plus(TotalsOf(b))
  {
    if b == [] {
      assert a + b == a;
    } else {
      var front, last := b[..|b| - 1], b[|b| - 1];
      TotalsAreSums(a, front);
      PushBehind(a, front, last);
      assert b == front + [last];
      TotalsPush(a + front, last);
      PlusAssociates(TotalsOf(a), TotalsOf(front), One(last));
    }
  }

  ghost predicate Balanced(records: seq<UsageRecord>) {
    forall i :: 0 <= i < |records| ==> records[i].totalTokens == records[i].inputTokens + records[i].outputTokens
  }

  lemma {:induction false} BalancedTotals(records: seq<UsageRecord>)
    requires Balanced(records)
    ensures TotalsOf(records).total == TotalsOf(records).input + TotalsOf(records).output
  {
    if records != [] {
      BalancedTotals(records[..|records| - 1]);
    }
  }

  datatype Error = NotFound(message: string)

  datatype UsageAggregate = UsageAggregate(totalInput: nat, totalOutput: nat, count: nat)

  datatype UsageSummary = UsageSummary(
    userId: string,
    model: string,
    totalInputTokens: nat,
    totalOutputTokens: nat,
    totalTokens: nat,
    requestCount: nat,
    periodStart: int,
    periodEnd: int)

  function Days(n: nat): nat { n * 86_400_000_000_000 }

  function AggregateOf(records: seq<UsageRecord>): UsageAggregate {
    var t := TotalsOf(records);
    UsageAggregate(t.input, t.output, t.count)
  }

  ghost predicate Holds(summary: map<string, UsageAggregate>, key: string, filed: seq<UsageRecord>) {
    && (key in summary <==> filed != [])
    && (key in summary ==> summary[key] == AggregateOf(filed))
  }

  /** Under this key the index holds the totals of the records filed under it, if there are any. */
  ghost predicate Indexed(summary: map<string, UsageAggregate>, records: seq<UsageRecord>, key: string) {
    Holds(summary, key, Filter(ForKey(key), records))
  }

  lemma FilterPush(p: UsageRecord -> bool, records: seq<UsageRecord>, r: UsageRecord)
    ensures Filter(p, records + [r]) == Filter(p, records) + if p(r) then [r] else []
  {
    assert (records + [r])[..|records|] == records;
  }

  /** One entry of the index takes in one more record. */
  function Counted(summary: map<string, UsageAggregate>, r: UsageRecord): map<string, UsageAggregate> {
    var agg := if KeyOf(r) in summary then summary[KeyOf(r)] else UsageAggregate(0, 0, 0);
    summary[KeyOf(r) := UsageAggregate(agg.totalInput + r.inputTokens, agg.totalOutput + r.outputTokens, agg.count + 1)]
  }

  lemma CountingHolds(summary: map<string, UsageAggregate>, key: string, filed: seq<UsageRecord>, r: UsageRecord)
    requires Holds(summary, key, filed)
    ensures Holds(Counted(summary, r), key, if KeyOf(r) == key then filed + [r] else filed)
  {
    TotalsPush(filed, r);
  }

  lemma CountingKeepsIndexed(
    summary: map<string, UsageAggregate>, records: seq<UsageRecord>, r: UsageRecord, key: string)
    requires Indexed(summary, records, key)
    ensures Indexed(Counted(summary, r), records + [r], key)
  {
    var filed := Filter(ForKey(key), records);
    FilterPush(ForKey(key), records, r);
    CountingHolds(summary, key, filed, r);
    assert Filter(ForKey(key), records + [r]) == if KeyOf(r) == key then filed + [r] else filed;
  }

  class UsageTracker {
    var records: seq<UsageRecord>
    var summary: map<string, UsageAggregate>

    /** The index holds, under every key, the totals of the records that have the key. */
    ghost predicate Valid()
      reads this
    {
      && Balanced(records)
      && forall key :: Indexed(summary, records, key)
    }

    constructor ()
      ensures Valid() && records == []
    {
      records := [];
      summary := map[];
    }

    method Record(userId: string, model: string, inputTokens: nat, outputTokens: nat, id: nat, now: int)
      returns (record: UsageRecord)
      requires Valid()
      modifies this
      ensures Valid()
      ensures record == UsageRecord(id, userId, model, inputTokens, outputTokens, inputTokens + outputTokens, now)
      ensures records == old(records) + [record]
      ensures summary == Counted(old(summary), record)
    {
      record := UsageRecord(id, userId, model, inputTokens, outputTokens, inputTokens + outputTokens, now);
      records := records + [record];
      var key := Join(userId, model);
      if key in summary {
        var agg := summary[key];
        summary := summary[key :=
          UsageAggregate(agg.totalInput + inputTokens, agg.totalOutput + outputTokens, agg.count + 1)];
      } else {
        summary := summary[key := UsageAggregate(inputTokens, outputTokens, 1)];
      }
      forall k ensures Indexed(summary, records, k) {
        assert Indexed(old(summary), old(records), k);
        CountingKeepsIndexed(old(summary), old(records), record, k);
      }
    }

    method GetSummary(userId: string, model: string, now: int) returns (r: Result<UsageSummary, Error>)
      requires Valid()
      ensures var found := Filter(ForKey(Join(userId, model)), records); var t := TotalsOf(found);
        if found == [] then r.Err?
        else r == Ok(UsageSummary(userId, model, t.input, t.output, t.total, t.count, now - Days(30), now))
    {
      var key := Join(userId, model);
      assert Indexed(summary, records, key);
      if key !in summary {
        return Err(NotFound("no usage for user " + userId + " model " + model));
      }
      var agg := summary[key];
      r := Ok(UsageSummary(userId, model, agg.totalInput, agg.totalOutput, agg.totalInput + agg.totalOutput, agg.count,
                           now - Days(30), now));
      FilterKeepsBalanced(ForKey(key), records);
      BalancedTotals(Filter(ForKey(key), records));
    }

    method GetRecords(userId: string) returns (r: Result<seq<UsageRecord>, Error>)
      ensures var found := Filter(ForUser(userId), records); if found == [] then r.Err? else r == Ok(found)
    {
      var userRecords := Filter(ForUser(userId), records);
      if userRecords == [] {
        return Err(NotFound("no records for user " + userId));
      }
      r := Ok(userRecords);
    }
  }

  lemma {:induction false} FilterKeepsBalanced(p: UsageRecord -> bool, records: seq<UsageRecord>)
    requires Balanced(records)
    ensures Balanced(Filter(p, records))
  {
    if records != [] {
      FilterKeepsBalanced(p, records[..|records| - 1]);
    }
  }

  // ----- when a summary is about its user -----

  /** A record of somebody else, or of another model, that is filed under the same key. */
  predicate Strays(r: UsageRecord, user: string, model: string) {
    KeyOf(r) == Join(user, model) && !(r.userId == user && r.model == model)
  }

  ghost predicate HasStray(records: seq<UsageRecord>, user: string, model: string) {
    exists r :: r in records && Strays(r, user, model)
  }

  lemma StraysMakeTheDifference(records: seq<UsageRecord>, user: string, model: string)
    ensures var filed, own := Filter(ForKey(Join(user, model)), records), Filter(ForUserAndModel(user, model), records);
      if HasStray(records, user, model) then |filed| > |own| else filed == own
  {
    var loose, strict := ForKey(Join(user, model)), ForUserAndModel(user, model);
    StricterFilter(loose, strict, records);
    assert forall r :: loose(r) && !strict(r) <==> Strays(r, user, model);
    if i :| 0 <= i < |records| && loose(records[i]) && !strict(records[i]) {
      assert Strays(records[i], user, model);
    }
  }

  /** A summary equals the totals of the user's own records for the model exactly when no record strays. */
  lemma SummaryIsExactUnlessRecordsStray(records: seq<UsageRecord>, user: string, model: string)
    ensures AggregateOf(Filter(ForKey(Join(user, model)), records))
      == AggregateOf(Filter(ForUserAndModel(user, model), records))
      <==> forall r :: r in records ==> !Strays(r, user, model)
  {
    StraysMakeTheDifference(records, user, model);
    TotalsCount(Filter(ForKey(Join(user, model)), records));
    TotalsCount(Filter(ForUserAndModel(user, model), records));
  }

  /** User ids without a colon keep every record at home. */
  lemma ColonFreeUsersNeverStray(records: seq<UsageRecord>, user: string, model: string)
    requires ColonFree(user) && forall r :: r in records ==> ColonFree(r.userId)
    ensures forall r :: r in records ==> !Strays(r, user, model)
    ensures Filter(ForKey(Join(user, model)), records) == Filter(ForUserAndModel(user, model), records)
  {
    forall r | r in records ensures !Strays(r, user, model) {
      if KeyOf(r) == Join(user, model) {
        JoinInjective(r.userId, r.model, user, model);
      }
    }
    StraysMakeTheDifference(records, user, model);
  }

  /** With colons, one user's usage can show up in another user's summary. */
  lemma ColonsLetRecordsStray(input: nat, output: nat, now: int)
    ensures Strays(UsageRecord(0, "a:b", "c", input, output, input + output, now), "a", "b:c")
  {
    assert Join("a:b", "c") == Join("a", "b:c");
  }
}
