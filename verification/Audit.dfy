/** Audit queries: the in-memory pipeline, and the SQL that asks a database for the same thing. */
module Audits {
  import opened Options
  import opened Sequences

  datatype EventType =
    | UserLogin
    | UserLogout
    | ApiCall
    | AgentExecution
    | AdminAction
    | ConfigChange
    | PermissionChange
    | System
    | Custom(name: string)

  datatype AuditEntry = AuditEntry(
    id: nat,
    timestamp: int,
    eventType: EventType,
    eventName: string,
    actor: string,
    resourceType: string,
    resourceId: string,
    detail: string,
    traceId: Option<string>,
    source: Option<string>,
    result: string)

  datatype AuditQuery = AuditQuery(
    actor: Option<string>,
    eventType: Option<EventType>,
    eventName: Option<string>,
    resourceType: Option<string>,
    resourceId: Option<string>,
    startTime: Option<int>,
    endTime: Option<int>,
    result: Option<string>,
    offset: Option<nat>,
    limit: Option<nat>)

  const DEFAULT_LIMIT: nat := 100

  predicate Allows<T(==)>(wanted: Option<T>, actual: T) { wanted.Some? ==> wanted.value == actual }

  predicate Matches(q: AuditQuery, e: AuditEntry) {
    && Allows(q.actor, e.actor)
    && Allows(q.eventType, e.eventType)
    && Allows(q.eventName, e.eventName)
    && Allows(q.resourceType, e.resourceType)
    && Allows(q.resourceId, e.resourceId)
    && (q.startTime.Some? ==> q.startTime.value <= e.timestamp)
    && (q.endTime.Some? ==> e.timestamp <= q.endTime.value)
    && Allows(q.result, e.result)
  }

  function Matching(q: AuditQuery): AuditEntry -> bool { (e: AuditEntry) => Matches(q, e) }

  function NewestFirst(): AuditEntry -> real { (e: AuditEntry) => -(e.timestamp as real) }

  /** All matches, newest first, entries of the same time in the order they were appended. */
  function AllMatches(entries: seq<AuditEntry>, q: AuditQuery): seq<AuditEntry> {
    StableSort(NewestFirst(), Filter(Matching(q), entries))
  }

  function ApplyQuery(entries: seq<AuditEntry>, q: AuditQuery): seq<AuditEntry> {
    Take(Skip(AllMatches(entries, q), q.offset.GetOr(0)), q.limit.GetOr(DEFAULT_LIMIT))
  }

  class AuditLog {
    var entries: seq<AuditEntry>

    constructor ()
      ensures entries == []
    {
      entries := [];
    }

    method Append(entry: AuditEntry)
      modifies this
      ensures entries == old(entries) + [entry]
    {
      entries := entries + [entry];
    }

    method Query(q: AuditQuery) returns (r: seq<AuditEntry>)
      ensures r == ApplyQuery(entries, q)
    {
      var results := Filter(Matching(q), entries);
      results := StableSort(NewestFirst(), results);
      r := Take(Skip(results, q.offset.GetOr(0)), q.limit.GetOr(DEFAULT_LIMIT));
    }

    /** Counts what is left after paging: at most one page. */
    method Count(q: AuditQuery) returns (n: nat)
      ensures n == Min(q.limit.GetOr(DEFAULT_LIMIT), Max(0, |Filter(Matching(q), entries)| - q.offset.GetOr(0)))
    {
      var filtered := Query(q);
      n := |filtered|;
      PageLength(entries, q);
    }
  }

  lemma PageLength(entries: seq<AuditEntry>, q: AuditQuery)
    ensures |ApplyQuery(entries, q)|
      == Min(q.limit.GetOr(DEFAULT_LIMIT), Max(0, |Filter(Matching(q), entries)| - q.offset.GetOr(0)))
  {
    var matches, all := Filter(Matching(q), entries), AllMatches(entries, q);
    StableSortProperties(NewestFirst(), matches);
    SameLength(all, matches);
    TakeSkipLength(all, q.offset.GetOr(0), q.limit.GetOr(DEFAULT_LIMIT));
  }

  lemma SameLength<T>(a: seq<T>, b: seq<T>)
    requires multiset(a) == multiset(b)
    ensures |a| == |b|
  {
    assert |multiset(a)| == |a| && |multiset(b)| == |b|;
  }

  lemma TakeSkipLength<T>(s: seq<T>, offset: nat, limit: nat)
    ensures |Take(Skip(s, offset), limit)| == Min(limit, Max(0, |s| - offset))
  {}

  /** What a query finds, field by field: every condition that is set holds, and a time is in the closed range. */
  lemma MatchesExactly(entries: seq<AuditEntry>, q: AuditQuery, e: AuditEntry)
    ensures e in AllMatches(entries, q) <==>
      && e in entries
      && (q.actor.Some? ==> e.actor == q.actor.value)
      && (q.eventType.Some? ==> e.eventType == q.eventType.value)
      && (q.eventName.Some? ==> e.eventName == q.eventName.value)
      && (q.resourceType.Some? ==> e.resourceType == q.resourceType.value)
      && (q.resourceId.Some? ==> e.resourceId == q.resourceId.value)
      && (q.startTime.Some? ==> q.startTime.value <= e.timestamp)
      && (q.endTime.Some? ==> e.timestamp <= q.endTime.value)
      && (q.result.Some? ==> e.result == q.result.value)
  {
    var matches := Filter(Matching(q), entries);
    StableSortProperties(NewestFirst(), matches);
    SameElements(AllMatches(entries, q), matches);
    FilterMembers(Matching(q), entries);
  }

  /** Matches of the same time, which is their negative key, come in the order in which they were appended. */
  lemma SameTimeInOrder(entries: seq<AuditEntry>, q: AuditQuery, key: real)
    ensures Filter(WithKey(NewestFirst(), key), AllMatches(entries, q))
      == Filter(WithKey(NewestFirst(), key), Filter(Matching(q), entries))
  {
    StableSortKeepsTies(NewestFirst(), Filter(Matching(q), entries), key);
  }

  /** A query that asks for no page gets the first hundred matches. */
  lemma FirstPageByDefault(entries: seq<AuditEntry>, q: AuditQuery)
    requires q.offset == None && q.limit == None
    ensures var all := AllMatches(entries, q); ApplyQuery(entries, q) == all[..Min(100, |all|)]
  {}

  // ----- paging -----

  /** Where the i-th page starts. */
  function StartOf(i: nat, size: nat): nat {
    if i == 0 then 0 else StartOf(i - 1, size) + size
  }

  lemma {:induction false} StartIsMultiple(i: nat, size: nat)
    ensures StartOf(i, size) == i * size
  {
    if i > 0 {
      StartIsMultiple(i - 1, size);
    }
  }

  function Page(q: AuditQuery, i: nat, size: nat): AuditQuery {
    q.(offset := Some(StartOf(i, size)), limit := Some(size))
  }

  /** The first n pages, one after the other. */
  function Pages(entries: seq<AuditEntry>, q: AuditQuery, size: nat, n: nat): seq<AuditEntry> {
    if n == 0 then [] else Pages(entries, q, size, n - 1) + ApplyQuery(entries, Page(q, n - 1, size))
  }

  lemma {:induction false} MatchingIgnoresPaging(entries: seq<AuditEntry>, q: AuditQuery, i: nat, size: nat)
    ensures Filter(Matching(Page(q, i, size)), entries) == Filter(Matching(q), entries)
  {
    if entries != [] {
      MatchingIgnoresPaging(entries[..|entries| - 1], q, i, size);
    }
  }

  lemma TakeSkipJoins<T>(s: seq<T>, start: nat, size: nat)
    ensures Take(s, start) + Take(Skip(s, start), size) == Take(s, start + size)
  {}

  lemma PageIsSlice(entries: seq<AuditEntry>, q: AuditQuery, i: nat, size: nat)
    ensures ApplyQuery(entries, Page(q, i, size)) == Take(Skip(AllMatches(entries, q), StartOf(i, size)), size)
  {
    MatchingIgnoresPaging(entries, q, i, size);
  }

  lemma OneMorePage(entries: seq<AuditEntry>, q: AuditQuery, i: nat, size: nat)
    ensures Take(AllMatches(entries, q), StartOf(i, size)) + ApplyQuery(entries, Page(q, i, size))
      == Take(AllMatches(entries, q), StartOf(i + 1, size))
  {
    PageIsSlice(entries, q, i, size);
    TakeSkipJoins(AllMatches(entries, q), StartOf(i, size), size);
  }

  lemma {:induction false} PagesReach(entries: seq<AuditEntry>, q: AuditQuery, size: nat, n: nat)
    ensures Pages(entries, q, size, n) == Take(AllMatches(entries, q), StartOf(n, size))
  {
    if n == 0 {
      assert Take(AllMatches(entries, q), 0) == [];
    } else {
      var i: nat := n - 1;
      PagesReach(entries, q, size, i);
      OneMorePage(entries, q, i, size);
      assert Pages(entries, q, size, n) == Pages(entries, q, size, i) + ApplyQuery(entries, Page(q, i, size));
    }
  }

  /** Consecutive pages are a prefix of one fixed list. */
  lemma PagesArePrefix(entries: seq<AuditEntry>, q: AuditQuery, size: nat, n: nat)
    ensures Pages(entries, q, size, n) == Take(AllMatches(entries, q), n * size)
  {
    PagesReach(entries, q, size, n);
    StartIsMultiple(n, size);
  }

  /** With enough pages every match is delivered, each once, newest first. */
  lemma {:induction false} PagesDeliverEveryMatchOnce(entries: seq<AuditEntry>, q: AuditQuery, size: nat, n: nat)
    requires n * size >= |Filter(Matching(q), entries)|
    ensures multiset(Pages(entries, q, size, n)) == multiset(Filter(Matching(q), entries))
    ensures forall i, j :: 0 <= i < j < |Pages(entries, q, size, n)| ==>
      Pages(entries, q, size, n)[i].timestamp >= Pages(entries, q, size, n)[j].timestamp
  {
    var matches, all := Filter(Matching(q), entries), AllMatches(entries, q);
    PagesArePrefix(entries, q, size, n);
    StableSortProperties(NewestFirst(), matches);
    assert Take(all, n * size) == all;
    forall i, j | 0 <= i < j < |all| ensures all[i].timestamp >= all[j].timestamp {
      assert NewestFirst()(all[i]) <= NewestFirst()(all[j]);
    }
  }

  // ----- the SQL conditions -----

  datatype Column = ActorCol | EventTypeCol | EventNameCol | ResourceTypeCol | ResourceIdCol | TimestampCol | ResultCol

  datatype Operator = Equal | AtLeast | AtMost

  /** One "AND column operator ?" with its parameter. */
  datatype Condition = Condition(column: Column, operator: Operator, param: string)

  /** How entries are written into text columns. */
  datatype Encoding = Encoding(typeText: EventType -> string, timeText: int -> string) {
    /** Different event types have different texts, and texts of times compare like the times. */
    ghost predicate Faithful() {
      && (forall a, b :: typeText(a) == typeText(b) ==> a == b)
      && (forall a, b :: a <= b <==> TextAtMost(timeText(a), timeText(b)))
    }
  }

  /** The database's order on texts, character by character. */
  predicate TextAtMost(a: string, b: string) {
    a == "" || (b != "" && (a[0] < b[0] || (a[0] == b[0] && TextAtMost(a[1..], b[1..]))))
  }

  function CellOf(enc: Encoding, e: AuditEntry, column: Column): string {
    match column
    case ActorCol => e.actor
    case EventTypeCol => enc.typeText(e.eventType)
    case EventNameCol => e.eventName
    case ResourceTypeCol => e.resourceType
    case ResourceIdCol => e.resourceId
    case TimestampCol => enc.timeText(e.timestamp)
    case ResultCol => e.result
  }

  predicate Holds(enc: Encoding, c: Condition, e: AuditEntry) {
    var cell := CellOf(enc, e, c.column);
    match c.operator
    case Equal => cell == c.param
    case AtLeast => TextAtMost(c.param, cell)
    case AtMost => TextAtMost(cell, c.param)
  }

  /** The WHERE clause: all conditions together. */
  predicate Where(enc: Encoding, conditions: seq<Condition>, e: AuditEntry) {
    forall i :: 0 <= i < |conditions| ==> Holds(enc, conditions[i], e)
  }

  function If(wanted: Option<string>, column: Column, operator: Operator): seq<Condition> {
    if wanted.Some? then [Condition(column, operator, wanted.value)] else []
  }

  function Text<T>(wanted: Option<T>, text: T -> string): Option<string> {
    match wanted
    case Some(v) => Some(text(v))
    case None => None
  }

  function EventConditions(enc: Encoding, q: AuditQuery): seq<Condition> {
    If(q.actor, ActorCol, Equal) + If(Text(q.eventType, enc.typeText), EventTypeCol, Equal)
      + If(q.eventName, EventNameCol, Equal)
  }

  function ResourceConditions(q: AuditQuery): seq<Condition> {
    If(q.resourceType, ResourceTypeCol, Equal) + If(q.resourceId, ResourceIdCol, Equal)
  }

  function TimeConditions(enc: Encoding, q: AuditQuery): seq<Condition> {
    If(Text(q.startTime, enc.timeText), TimestampCol, AtLeast) + If(Text(q.endTime, enc.timeText), TimestampCol, AtMost)
  }

  /** The conditions in the order in which they are built. */
  function ConditionsOf(enc: Encoding, q: AuditQuery): seq<Condition> {
    EventConditions(enc, q) + ResourceConditions(q) + TimeConditions(enc, q) + If(q.result, ResultCol, Equal)
  }

  method PushIf(conditions: seq<Condition>, wanted: Option<string>, column: Column, operator: Operator)
    returns (longer: seq<Condition>)
    ensures longer == conditions + If(wanted, column, operator)
  {
    longer := conditions;
    if wanted.Some? {
      longer := longer + [Condition(column, operator, wanted.value)];
    }
  }

  /** The builder, pushing one condition after the other: together they select the entries the in-memory filter
      selects. */
  method BuildConditions(enc: Encoding, q: AuditQuery) returns (conditions: seq<Condition>)
    ensures conditions == ConditionsOf(enc, q)
    ensures enc.Faithful() ==> forall e :: Where(enc, conditions, e) <==> Matches(q, e)
  {
    conditions := PushIf([], q.actor, ActorCol, Equal);
    conditions := PushIf(conditions, Text(q.eventType, enc.typeText), EventTypeCol, Equal);
    conditions := PushIf(conditions, q.eventName, EventNameCol, Equal);
    assert conditions == EventConditions(enc, q);
    conditions := PushIf(conditions, q.resourceType, ResourceTypeCol, Equal);
    conditions := PushIf(conditions, q.resourceId, ResourceIdCol, Equal);
    assert conditions == EventConditions(enc, q) + ResourceConditions(q);
    conditions := PushIf(conditions, Text(q.startTime, enc.timeText), TimestampCol, AtLeast);
    conditions := PushIf(conditions, Text(q.endTime, enc.timeText), TimestampCol, AtMost);
    assert conditions == EventConditions(enc, q) + ResourceConditions(q) + TimeConditions(enc, q);
    conditions := PushIf(conditions, q.result, ResultCol, Equal);
    if enc.Faithful() {
      forall e ensures Where(enc, conditions, e) <==> Matches(q, e) {
        ConditionsMeanMatches(enc, q, e);
      }
    }
  }

  lemma WhereJoins(enc: Encoding, a: seq<Condition>, b: seq<Condition>, e: AuditEntry)
    ensures Where(enc, a + b, e) <==> Where(enc, a, e) && Where(enc, b, e)
  {
    if Where(enc, a + b, e) {
      forall i | 0 <= i < |a| ensures Holds(enc, a[i], e) {
        assert a[i] == (a + b)[i];
      }
      forall i | 0 <= i < |b| ensures Holds(enc, b[i], e) {
        assert b[i] == (a + b)[|a| + i];
      }
    }
  }

  lemma WhereIf(enc: Encoding, wanted: Option<string>, column: Column, operator: Operator, e: AuditEntry)
    ensures Where(enc, If(wanted, column, operator), e)
      <==> (wanted.Some? ==> Holds(enc, Condition(column, operator, wanted.value), e))
  {
    if wanted.Some? {
      assert If(wanted, column, operator)[0] == Condition(column, operator, wanted.value);
    }
  }

  lemma EventConditionsMean(enc: Encoding, q: AuditQuery, e: AuditEntry)
    requires enc.Faithful()
    ensures Where(enc, EventConditions(enc, q), e)
      <==> Allows(q.actor, e.actor) && Allows(q.eventType, e.eventType) && Allows(q.eventName, e.eventName)
  {
    var c1, c2, c3 := If(q.actor, ActorCol, Equal), If(Text(q.eventType, enc.typeText), EventTypeCol, Equal),
      If(q.eventName, EventNameCol, Equal);
    WhereJoins(enc, c1, c2, e);
    WhereJoins(enc, c1 + c2, c3, e);
    WhereIf(enc, q.actor, ActorCol, Equal, e);
    WhereIf(enc, Text(q.eventType, enc.typeText), EventTypeCol, Equal, e);
    WhereIf(enc, q.eventName, EventNameCol, Equal, e);
  }

  lemma ResourceConditionsMean(enc: Encoding, q: AuditQuery, e: AuditEntry)
    ensures Where(enc, ResourceConditions(q), e)
      <==> Allows(q.resourceType, e.resourceType) && Allows(q.resourceId, e.resourceId)
  {
    WhereJoins(enc, If(q.resourceType, ResourceTypeCol, Equal), If(q.resourceId, ResourceIdCol, Equal), e);
    WhereIf(enc, q.resourceType, ResourceTypeCol, Equal, e);
    WhereIf(enc, q.resourceId, ResourceIdCol, Equal, e);
  }

  lemma TimeConditionsMean(enc: Encoding, q: AuditQuery, e: AuditEntry)
    requires enc.Faithful()
    ensures Where(enc, TimeConditions(enc, q), e)
      <==>
        (q.startTime.Some? ==> q.startTime.value <= e.timestamp)
        && (q.endTime.Some? ==> e.timestamp <= q.endTime.value)
  {
    var c1, c2 := If(Text(q.startTime, enc.timeText), TimestampCol, AtLeast),
      If(Text(q.endTime, enc.timeText), TimestampCol, AtMost);
    WhereJoins(enc, c1, c2, e);
    WhereIf(enc, Text(q.startTime, enc.timeText), TimestampCol, AtLeast, e);
    WhereIf(enc, Text(q.endTime, enc.timeText), TimestampCol, AtMost, e);
  }

  /** The conditions sent to the database mean the filter of the in-memory log. */
  lemma ConditionsMeanMatches(enc: Encoding, q: AuditQuery, e: AuditEntry)
    requires enc.Faithful()
    ensures Where(enc, ConditionsOf(enc, q), e) <==> Matches(q, e)
  {
    var c1, c2, c3, c4 :=
      EventConditions(enc, q), ResourceConditions(q), TimeConditions(enc, q), If(q.result, ResultCol, Equal);
    EventConditionsMean(enc, q, e);
    ResourceConditionsMean(enc, q, e);
    TimeConditionsMean(enc, q, e);
    WhereIf(enc, q.result, ResultCol, Equal, e);
    WhereJoins(enc, c1, c2, e);
    WhereJoins(enc, c1 + c2, c3, e);
    WhereJoins(enc, c1 + c2 + c3, c4, e);
  }

  function Selecting(enc: Encoding, conditions: seq<Condition>): AuditEntry -> bool {
    (e: AuditEntry) => Where(enc, conditions, e)
  }

  /** SELECT COUNT(*): the rows that satisfy the conditions, whatever the paging. */
  function SqlCount(enc: Encoding, rows: seq<AuditEntry>, q: AuditQuery): nat {
    |Filter(Selecting(enc, ConditionsOf(enc, q)), rows)|
  }

  /** The database's count: it builds its conditions and asks for the number of rows that satisfy them. */
  method CountRows(enc: Encoding, rows: seq<AuditEntry>, q: AuditQuery) returns (n: nat)
    ensures n == SqlCount(enc, rows, q)
    ensures enc.Faithful() ==> n == |Filter(Matching(q), rows)|
  {
    var conditions := BuildConditions(enc, q);
    n := |Filter(Selecting(enc, conditions), rows)|;
    if enc.Faithful() {
      SelectionIsFilter(enc, conditions, rows, q);
    }
  }

  lemma {:induction false} SelectionIsFilter(
    enc: Encoding, conditions: seq<Condition>, rows: seq<AuditEntry>, q: AuditQuery)
    requires forall e :: Where(enc, conditions, e) <==> Matches(q, e)
    ensures Filter(Selecting(enc, conditions), rows) == Filter(Matching(q), rows)
  {
    if rows != [] {
      SelectionIsFilter(enc, conditions, rows[..|rows| - 1], q);
    }
  }

  /** The two counts: the database counts all matches, the log at most one page of them. */
  lemma CountsCompared(enc: Encoding, entries: seq<AuditEntry>, q: AuditQuery)
    requires enc.Faithful()
    ensures |ApplyQuery(entries, q)|
      == Min(q.limit.GetOr(DEFAULT_LIMIT), Max(0, SqlCount(enc, entries, q) - q.offset.GetOr(0)))
    ensures |ApplyQuery(entries, q)| == SqlCount(enc, entries, q)
      <==>
        SqlCount(enc, entries, q) == 0
        || (q.offset.GetOr(0) == 0 && SqlCount(enc, entries, q) <= q.limit.GetOr(DEFAULT_LIMIT))
  {
    forall e ensures Where(enc, ConditionsOf(enc, q), e) <==> Matches(q, e) {
      ConditionsMeanMatches(enc, q, e);
    }
    SelectionIsFilter(enc, ConditionsOf(enc, q), entries, q);
    PageLength(entries, q);
  }
}
