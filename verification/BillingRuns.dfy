/** record_usage calls that interleave between ledger, aggregate index and quota counters: the steps are those of
    UsageTracker.Record and QuotaManager.Consume, taken one store at a time. */
module BillingRuns {
  import opened Options
  import opened Sequences
  import opened Usages
  import opened Billings

  /** The three stores, what has reached each of them, and the records on their way to the second and the third. */
  datatype State = State(
    ledger: seq<UsageRecord>,
    summary: map<string, UsageAggregate>,
    indexed: seq<UsageRecord>,
    usage: map<string, PeriodUsage>,
    charged: seq<UsageRecord>,
    toIndex: multiset<UsageRecord>,
    toCharge: multiset<UsageRecord>)

  datatype Step = Push(r: UsageRecord) | Index(r: UsageRecord) | Charge(r: UsageRecord, now: int)

  predicate Enabled(s: State, step: Step) {
    match step
    case Push(r) => r.totalTokens == r.inputTokens + r.outputTokens
    case Index(r) => r in s.toIndex
    case Charge(r, _) => r in s.toCharge
  }

  function Next(s: State, step: Step): State
    requires Enabled(s, step)
  {
    match step
    case Push(r) => s.(ledger := s.ledger + [r], toIndex := s.toIndex + multiset{r})
    case Index(r) =>
      s.(summary := Counted(s.summary, r), indexed := s.indexed + [r],
         toIndex := s.toIndex - multiset{r}, toCharge := s.toCharge + multiset{r})
    case Charge(r, now) =>
      s.(usage := Charged(s.usage, r.userId, r.totalTokens, now), charged := s.charged + [r],
         toCharge := s.toCharge - multiset{r})
  }

  datatype Moment = Moment(before: State, step: Step, after: State)

  type Run = seq<Moment>

  function Final(run: Run): State {
    if run == [] then State([], map[], [], map[], [], multiset{}, multiset{}) else run[|run| - 1].after
  }

  predicate IsRun(run: Run) {
    run != [] ==>
      var front, last := run[..|run| - 1], run[|run| - 1];
      IsRun(front) && last.before == Final(front) && Enabled(last.before, last.step)
        && last.after == Next(last.before, last.step)
  }

  // ----- totals do not depend on the order -----

  lemma {:induction false} FilterMultiplicity(p: UsageRecord -> bool, s: seq<UsageRecord>, r: UsageRecord)
    ensures multiset(Filter(p, s))[r] == if p(r) then multiset(s)[r] else 0
  {
    if s != [] {
      var front, last := s[..|s| - 1], s[|s| - 1];
      FilterMultiplicity(p, front, r);
      assert s == front + [last];
      assert multiset(s)[r] == multiset(front)[r] + multiset([last])[r];
    }
  }

  lemma {:induction false} TotalsWithout(a: seq<UsageRecord>, r: UsageRecord, b: seq<UsageRecord>)
    ensures TotalsOf(a + [r] + b) == TotalsOf(a + b).Plus(One(r))
  {
    if b == [] {
      TotalsPush(a, r);
      assert a + [r] + b == a + [r] && a + b == a;
    } else {
      var front, last := b[..|b| - 1], b[|b| - 1];
      TotalsWithout(a, r, front);
      assert a + [r] + b == (a + [r] + front) + [last];
      TotalsPush(a + [r] + front, last);
      assert a + b == (a + front) + [last];
      TotalsPush(a + front, last);
    }
  }

  lemma WithoutOne(a: seq<UsageRecord>, r: UsageRecord, b: seq<UsageRecord>)
    ensures multiset(a + [r] + b) == multiset(a + b) + multiset{r}
  {}

  lemma OneMore(records: seq<UsageRecord>, r: UsageRecord)
    ensures multiset(records + [r]) == multiset(records) + multiset{r}
  {}

  lemma Cancel(x: multiset<UsageRecord>, y: multiset<UsageRecord>, r: UsageRecord)
    requires x + multiset{r} == y + multiset{r}
    ensures x == y
  {
    assert x == (x + multiset{r}) - multiset{r} && y == (y + multiset{r}) - multiset{r};
  }

  lemma {:induction false} TotalsOfPermutation(a: seq<UsageRecord>, b: seq<UsageRecord>)
    requires multiset(a) == multiset(b)
    ensures TotalsOf(a) == TotalsOf(b)
    decreases |a|
  {
    if a == [] {
      assert |multiset(b)| == 0;
    } else {
      var front, last := a[..|a| - 1], a[|a| - 1];
      assert a == front + [last];
      assert last in multiset(b);
      var i :| 0 <= i < |b| && b[i] == last;
      var before, behind := b[..i], b[i + 1..];
      assert b == before + [last] + behind;
      WithoutOne(before, last, behind);
      OneMore(front, last);
      Cancel(multiset(before + behind), multiset(front), last);
      TotalsOfPermutation(front, before + behind);
      TotalsWithout(before, last, behind);
    }
  }

  lemma FilteredTotalsOfPermutation(p: UsageRecord -> bool, a: seq<UsageRecord>, b: seq<UsageRecord>)
    requires multiset(a) == multiset(b)
    ensures TotalsOf(Filter(p, a)) == TotalsOf(Filter(p, b))
  {
    forall r ensures multiset(Filter(p, a))[r] == multiset(Filter(p, b))[r] {
      FilterMultiplicity(p, a, r);
      FilterMultiplicity(p, b, r);
    }
    TotalsOfPermutation(Filter(p, a), Filter(p, b));
  }

  // ----- what every interleaving keeps -----

  ghost predicate Conserves(s: State) {
    && multiset(s.ledger) == multiset(s.indexed) + s.toIndex
    && multiset(s.indexed) == multiset(s.charged) + s.toCharge
  }

  lemma OneMovesOn(all: multiset<UsageRecord>, done: multiset<UsageRecord>, todo: multiset<UsageRecord>, r: UsageRecord)
    requires all == done + todo && r in todo
    ensures all == (done + multiset{r}) + (todo - multiset{r})
  {}

  lemma StepConserves(s: State, step: Step)
    requires Enabled(s, step) && Conserves(s)
    ensures Conserves(Next(s, step))
  {
    match step
    case Push(r) =>
      OneMore(s.ledger, r);
    case Index(r) =>
      OneMore(s.indexed, r);
      OneMovesOn(multiset(s.ledger), multiset(s.indexed), s.toIndex, r);
    case Charge(r, _) =>
      OneMore(s.charged, r);
      OneMovesOn(multiset(s.indexed), multiset(s.charged), s.toCharge, r);
  }

  ghost predicate Counts(usage: map<string, PeriodUsage>, user: string, own: seq<UsageRecord>) {
    && (user in usage <==> own != [])
    && (user in usage ==> usage[user].tokens == TotalsOf(own).total && usage[user].requests == |own|)
  }

  /** The counters of a user are the totals of the user's charged records. */
  ghost predicate CountersMatch(usage: map<string, PeriodUsage>, charged: seq<UsageRecord>, user: string) {
    Counts(usage, user, Filter(ForUser(user), charged))
  }

  lemma ChargeCounts(usage: map<string, PeriodUsage>, user: string, own: seq<UsageRecord>, r: UsageRecord, now: int)
    requires Counts(usage, user, own)
    ensures Counts(Charged(usage, r.userId, r.totalTokens, now), user, if r.userId == user then own + [r] else own)
  {
    TotalsPush(own, r);
  }

  lemma ChargeKeepsCounters(
    usage: map<string, PeriodUsage>, charged: seq<UsageRecord>, r: UsageRecord, now: int, user: string)
    requires CountersMatch(usage, charged, user)
    ensures CountersMatch(Charged(usage, r.userId, r.totalTokens, now), charged + [r], user)
  {
    var own := Filter(ForUser(user), charged);
    FilterPush(ForUser(user), charged, r);
    ChargeCounts(usage, user, own, r, now);
    assert Filter(ForUser(user), charged + [r]) == if r.userId == user then own + [r] else own;
  }

  /** When the user was first charged. */
  function FirstCharge(run: Run, user: string): Option<int> {
    if run == [] then None
    else
      var before, step := FirstCharge(run[..|run| - 1], user), run[|run| - 1].step;
      if before.None? && step.Charge? && step.r.userId == user then Some(step.now) else before
  }

  function StartIn(usage: map<string, PeriodUsage>, user: string): Option<int> {
    if user in usage then Some(usage[user].start) else None
  }

  lemma ChargeKeepsStart(usage: map<string, PeriodUsage>, charged: string, tokens: nat, now: int, user: string)
    ensures StartIn(Charged(usage, charged, tokens, now), user)
      == if charged == user && user !in usage then Some(now) else StartIn(usage, user)
  {}

  /** However calls interleave, the period of a user starts when the user is first charged. */
  lemma {:induction false} PeriodStartsWithFirstCharge(run: Run, user: string)
    requires IsRun(run)
    ensures FirstCharge(run, user) == StartIn(Final(run).usage, user)
  {
    if run != [] {
      var last := run[|run| - 1];
      PeriodStartsWithFirstCharge(run[..|run| - 1], user);
      match last.step
      case Charge(r, now) => ChargeKeepsStart(last.before.usage, r.userId, r.totalTokens, now, user);
      case _ =>
    }
  }

  lemma {:induction false} StoresFollowTheirHistories(run: Run, key: string, user: string)
    requires IsRun(run)
    ensures var s := Final(run);
      Conserves(s) && Indexed(s.summary, s.indexed, key) && CountersMatch(s.usage, s.charged, user)
  {
    if run != [] {
      var last := run[|run| - 1];
      StoresFollowTheirHistories(run[..|run| - 1], key, user);
      StepConserves(last.before, last.step);
      match last.step
      case Push(_) =>
      case Index(r) => CountingKeepsIndexed(last.before.summary, last.before.indexed, r, key);
      case Charge(r, now) => ChargeKeepsCounters(last.before.usage, last.before.charged, r, now, user);
    }
  }

  /** However calls interleave: once all of them have finished, the index holds the ledger's totals under every key,
      and every user's counters are the totals of the user's ledger records, in a period that starts with the user's
      first charge. */
  lemma StoresAgreeWhenQuiet(run: Run, key: string, user: string)
    requires IsRun(run) && Final(run).toIndex == multiset{} && Final(run).toCharge == multiset{}
    ensures var s := Final(run);
      var filed, own := TotalsOf(Filter(ForKey(key), s.ledger)), TotalsOf(Filter(ForUser(user), s.ledger));
      && (key in s.summary <==> filed.count > 0)
      && (key in s.summary ==> s.summary[key] == UsageAggregate(filed.input, filed.output, filed.count))
      && (user in s.usage <==> own.count > 0)
      && (user in s.usage ==>
          s.usage[user].tokens == own.total && s.usage[user].requests == own.count
          && FirstCharge(run, user) == Some(s.usage[user].start))
  {
    var s := Final(run);
    PeriodStartsWithFirstCharge(run, user);
    StoresFollowTheirHistories(run, key, user);
    FilteredTotalsOfPermutation(ForKey(key), s.ledger, s.indexed);
    FilteredTotalsOfPermutation(ForUser(user), s.ledger, s.charged);
    TotalsCount(Filter(ForKey(key), s.indexed));
    TotalsCount(Filter(ForUser(user), s.charged));
  }
}
