/** The circuit breaker with its three locks: state, failure window and request window. record_failure takes them
    one after the other, everything else holds the state lock while it visits the windows. */
module BreakerLocks {
  import opened Options
  import opened SlidingWindows
  import opened BreakerStates
  import opened Breakers

  /** What the holder of the state lock still has to do. */
  datatype Holder =
    | Free
    | CountingRequests
    | CountingFailures(total: nat)
    | ClearingFailures
    | ClearingRequests

  /** How far a record_failure has come. */
  datatype Progress = FailureRecorded | RequestRecorded

  /** The windows stand for everything recorded since they were last cleared. */
  datatype Locks = Locks(windows: State, holder: Holder, failing: map<nat, Progress>)

  datatype Section =
    | RecordInFailures(task: nat)
    | RecordInRequests(task: nat)
    | CheckFailure(task: nat)
    | Ask
    | CountRequests
    | CountFailures
    | Succeed
    | ResetByHand
    | ClearFailures
    | ClearRequests

  predicate Enabled(s: Locks, section: Section) {
    match section
    case RecordInFailures(task) => task !in s.failing
    case RecordInRequests(task) => task in s.failing && s.failing[task] == FailureRecorded
    case CheckFailure(task) => s.holder == Free && task in s.failing && s.failing[task] == RequestRecorded
    case Ask => s.holder == Free
    case CountRequests => s.holder == CountingRequests
    case CountFailures => s.holder.CountingFailures?
    case Succeed => s.holder == Free
    case ResetByHand => s.holder == Free
    case ClearFailures => s.holder == ClearingFailures
    case ClearRequests => s.holder == ClearingRequests
  }

  /** Leaves the half-open state, and clears the windows before it lets go of the state lock. */
  function LeaveHalfOpen(s: Locks, to: CircuitState, now: Time, reason: string): Locks {
    if s.windows.machine.current == HalfOpen
    then s.(windows := s.windows.(machine := s.windows.machine.Enter(to, now, reason)), holder := ClearingFailures)
    else s
  }

  function Next(config: Config, s: Locks, section: Section, now: Time): Locks
    requires Enabled(s, section)
  {
    var w, cutoff := s.windows, now - Seconds(config.windowSecs);
    match section
    case RecordInFailures(task) =>
      s.(windows := w.(failures := w.failures + [now]), failing := s.failing[task := FailureRecorded])
    case RecordInRequests(task) =>
      s.(windows := w.(requests := w.requests + [now]), failing := s.failing[task := RequestRecorded])
    case CheckFailure(task) => LeaveHalfOpen(s.(failing := s.failing - {task}), Open, now, PROBE_FAILED)
    case Ask =>
      if w.machine.current == Closed then s.(holder := CountingRequests)
      else s.(windows := Step(config, w, AllowRequest, now))
    case CountRequests => s.(holder := CountingFailures(CountFrom(w.requests, cutoff)))
    case CountFailures =>
      if s.holder.total >= config.minRequestThreshold && CountFrom(w.failures, cutoff) >= config.maxFailures
      then s.(windows := w.(machine := w.machine.Enter(Open, now, THRESHOLD_REACHED)), holder := Free)
      else s.(windows := w.(requests := w.requests + [now]), holder := Free)
    case Succeed => LeaveHalfOpen(s, Closed, now, PROBE_SUCCEEDED)
    case ResetByHand =>
      s.(windows := w.(machine := w.machine.Enter(Closed, now, MANUAL_RESET)), holder := ClearingFailures)
    case ClearFailures => s.(windows := w.(failures := []), holder := ClearingRequests)
    case ClearRequests => s.(windows := w.(requests := []), holder := Free)
  }

  datatype Moment = Moment(before: Locks, section: Section, at: Time, after: Locks)

  type Run = seq<Moment>

  function Final(start: Time, run: Run): Locks {
    if run == [] then Locks(Initial(start), Free, map[]) else run[|run| - 1].after
  }

  predicate IsRun(config: Config, start: Time, run: Run) {
    run != [] ==>
      var front, last := run[..|run| - 1], run[|run| - 1];
      && IsRun(config, start, front) && last.before == Final(start, front)
      && Enabled(last.before, last.section) && last.after == Next(config, last.before, last.section, last.at)
  }

  // ----- calls that nobody interrupts -----

  /** Runs sections one after the other, all at one reading of the clock. */
  ghost predicate Leads(config: Config, s: Locks, sections: seq<Section>, now: Time, t: Locks)
    decreases |sections|
  {
    if sections == [] then s == t
    else Enabled(s, sections[0]) && Leads(config, Next(config, s, sections[0], now), sections[1..], now, t)
  }

  /** The sections of one call, as the state it finds requires. */
  function SectionsOf(w: State, call: Call, task: nat): seq<Section> {
    var probing := w.machine.current == HalfOpen;
    match call
    case AllowRequest => if w.machine.current == Closed then [Ask, CountRequests, CountFailures] else [Ask]
    case RecordSuccess => if probing then [Succeed, ClearFailures, ClearRequests] else [Succeed]
    case RecordFailure =>
      [RecordInFailures(task), RecordInRequests(task), CheckFailure(task)]
      + if probing then [ClearFailures, ClearRequests] else []
    case Reset => [ResetByHand, ClearFailures, ClearRequests]
  }

  lemma LeadsOn(config: Config, s: Locks, sections: seq<Section>, now: Time, t: Locks)
    requires sections != [] && Enabled(s, sections[0])
    requires Leads(config, Next(config, s, sections[0], now), sections[1..], now, t)
    ensures Leads(config, s, sections, now, t)
  {}

  lemma OneSection(config: Config, s: Locks, section: Section, now: Time)
    requires Enabled(s, section)
    ensures Leads(config, s, [section], now, Next(config, s, section, now))
  {
    assert Leads(config, Next(config, s, section, now), [section][1..], now, Next(config, s, section, now));
  }

  lemma ThreeSections(config: Config, s: Locks, a: Section, b: Section, c: Section, now: Time)
    requires Enabled(s, a) && Enabled(Next(config, s, a, now), b)
    requires Enabled(Next(config, Next(config, s, a, now), b, now), c)
    ensures Leads(config, s, [a, b, c], now, Next(config, Next(config, Next(config, s, a, now), b, now), c, now))
  {
    var s1, s2 := Next(config, s, a, now), Next(config, Next(config, s, a, now), b, now);
    OneSection(config, s2, c, now);
    assert [b, c][1..] == [c] && [a, b, c][1..] == [b, c];
    LeadsOn(config, s1, [b, c], now, Next(config, s2, c, now));
    LeadsOn(config, s, [a, b, c], now, Next(config, s2, c, now));
  }

  lemma {:induction false} LeadsConcat(
    config: Config, s: Locks, a: seq<Section>, b: seq<Section>, now: Time, t: Locks, u: Locks)
    requires Leads(config, s, a, now, t) && Leads(config, t, b, now, u)
    ensures Leads(config, s, a + b, now, u)
    decreases |a|
  {
    if a == [] {
      assert a + b == b;
    } else {
      LeadsConcat(config, Next(config, s, a[0], now), a[1..], b, now, t, u);
      assert (a + b)[1..] == a[1..] + b;
    }
  }

  /** Run without interruption, the sections of a call do exactly what the call does as one step. */
  lemma UninterruptedCallsAreSteps(config: Config, w: State, call: Call, task: nat, now: Time)
    ensures Leads(config, Locks(w, Free, map[]), SectionsOf(w, call, task), now,
                  Locks(Step(config, w, call, now), Free, map[]))
  {
    var s := Locks(w, Free, map[]);
    match call
    case AllowRequest =>
      if w.machine.current == Closed {
        ThreeSections(config, s, Ask, CountRequests, CountFailures, now);
      } else {
        OneSection(config, s, Ask, now);
      }
    case RecordSuccess =>
      if w.machine.current == HalfOpen {
        ThreeSections(config, s, Succeed, ClearFailures, ClearRequests, now);
      } else {
        OneSection(config, s, Succeed, now);
      }
    case RecordFailure =>
      FailureSections(config, w, task, now);
    case Reset =>
      ThreeSections(config, s, ResetByHand, ClearFailures, ClearRequests, now);
  }

  lemma FailureSections(config: Config, w: State, task: nat, now: Time)
    ensures Leads(config, Locks(w, Free, map[]), SectionsOf(w, RecordFailure, task), now,
                  Locks(Step(config, w, RecordFailure, now), Free, map[]))
  {
    var s := Locks(w, Free, map[]);
    var a := [RecordInFailures(task), RecordInRequests(task), CheckFailure(task)];
    ThreeSections(config, s, RecordInFailures(task), RecordInRequests(task), CheckFailure(task), now);
    var s1 := Next(config, s, RecordInFailures(task), now);
    var s2 := Next(config, s1, RecordInRequests(task), now);
    var t := Next(config, s2, CheckFailure(task), now);
    assert map[task := RequestRecorded] - {task} == map[];
    if w.machine.current == HalfOpen {
      OneSection(config, Next(config, t, ClearFailures, now), ClearRequests, now);
      assert [ClearFailures, ClearRequests][1..] == [ClearRequests];
      var u := Locks(Step(config, w, RecordFailure, now), Free, map[]);
      LeadsOn(config, t, [ClearFailures, ClearRequests], now, u);
      LeadsConcat(config, s, a, [ClearFailures, ClearRequests], now, t, u);
    } else {
      assert SectionsOf(w, RecordFailure, task) == a;
    }
  }

  // ----- every trip still has its failures -----

  function LastClear(run: Run): (from: nat)
    ensures from <= |run|
  {
    if run == [] then 0
    else if run[|run| - 1].section == ClearFailures then |run|
    else LastClear(run[..|run| - 1])
  }

  /** The failures recorded at positions from on, at or after the cutoff. */
  function FailuresSince(run: Run, from: nat, cutoff: Time): nat {
    if |run| <= from then 0
    else
      var last := run[|run| - 1];
      FailuresSince(run[..|run| - 1], from, cutoff)
      + if last.section.RecordInFailures? && last.at >= cutoff then 1 else 0
  }

  lemma SectionOnFailures(config: Config, s: Locks, section: Section, now: Time)
    requires Enabled(s, section)
    ensures Next(config, s, section, now).windows.failures ==
      if section == ClearFailures then []
      else if section.RecordInFailures? then s.windows.failures + [now]
      else s.windows.failures
  {}

  lemma {:induction false} FailuresAreCounted(config: Config, start: Time, run: Run, cutoff: Time)
    requires IsRun(config, start, run)
    ensures CountFrom(Final(start, run).windows.failures, cutoff) == FailuresSince(run, LastClear(run), cutoff)
  {
    if run != [] {
      var last := run[|run| - 1];
      FailuresAreCounted(config, start, run[..|run| - 1], cutoff);
      SectionOnFailures(config, last.before, last.section, last.at);
      var before := last.before.windows.failures;
      assert (before + [last.at])[..|before|] == before;
    }
  }

  ghost predicate ClosedSince(start: Time, run: Run, from: nat) {
    forall i :: from <= i <= |run| ==> Final(start, run[..i]).windows.machine.current == Closed
  }

  /** Whoever closes the breaker clears the failures before letting anybody decide: a closed breaker that is not
      about to be cleared has been closed since the last clear. Only a closed breaker is ever counted. */
  lemma {:induction false} ClosedSinceLastClear(config: Config, start: Time, run: Run)
    requires IsRun(config, start, run)
    ensures var s := Final(start, run);
      && (s.holder == CountingRequests || s.holder.CountingFailures? ==> s.windows.machine.current == Closed)
      && (s.windows.machine.current == Closed && s.holder != ClearingFailures
          ==> ClosedSince(start, run, LastClear(run)))
  {
    assert run[..|run|] == run;
    if run != [] {
      var front, last := run[..|run| - 1], run[|run| - 1];
      ClosedSinceLastClear(config, start, front);
      forall i | 0 <= i < |run| ensures run[..i] == front[..i] {}
    }
  }

  lemma {:induction false} RunPrefix(config: Config, start: Time, run: Run, i: nat)
    requires IsRun(config, start, run) && i < |run|
    ensures IsRun(config, start, run[..i]) && run[i].before == Final(start, run[..i])
    ensures Enabled(run[i].before, run[i].section)
      && run[i].after == Next(config, run[i].before, run[i].section, run[i].at)
  {
    if i < |run| - 1 {
      var front := run[..|run| - 1];
      RunPrefix(config, start, front, i);
      assert front[..i] == run[..i];
    }
  }

  lemma OnlyCountingTrips(config: Config, s: Locks, section: Section, now: Time)
    requires Enabled(s, section) && s.windows.machine.current == Closed
    requires Next(config, s, section, now).windows.machine.current == Open
    ensures section == CountFailures
      && CountFrom(s.windows.failures, now - Seconds(config.windowSecs)) >= config.maxFailures
  {}

  /** However the lock sections interleave: a trip follows max_failures failures recorded inside the window since
      the failures were last cleared, and the breaker has been closed since then. */
  lemma EveryTripHasItsFailures(config: Config, start: Time, run: Run, i: nat)
    requires IsRun(config, start, run) && i < |run|
    requires run[i].before.windows.machine.current == Closed && run[i].after.windows.machine.current == Open
    ensures FailuresSince(run[..i], LastClear(run[..i]), run[i].at - Seconds(config.windowSecs)) >= config.maxFailures
    ensures ClosedSince(start, run[..i], LastClear(run[..i]))
  {
    RunPrefix(config, start, run, i);
    OnlyCountingTrips(config, run[i].before, run[i].section, run[i].at);
    FailuresAreCounted(config, start, run[..i], run[i].at - Seconds(config.windowSecs));
    ClosedSinceLastClear(config, start, run[..i]);
  }

  // ----- failures and requests -----

  /** The clock never goes back from one section to the next. */
  predicate InTime(run: Run) {
    run != [] ==>
      var front, last := run[..|run| - 1], run[|run| - 1];
      InTime(front) && (front != [] ==> front[|front| - 1].at <= last.at)
  }

  /** The failures recorded since the failures were last cleared whose requests have not been, by task. */
  function Owed(run: Run): map<nat, Time> {
    if run == [] then map[]
    else
      var owed, last := Owed(run[..|run| - 1]), run[|run| - 1];
      match last.section
      case ClearFailures => map[]
      case RecordInFailures(task) => owed[task := last.at]
      case RecordInRequests(task) => owed - {task}
      case _ => owed
  }

  function From(owed: map<nat, Time>, cutoff: Time): set<nat> {
    set t | t in owed && owed[t] >= cutoff
  }

  function OwedSince(run: Run, cutoff: Time): set<nat> { From(Owed(run), cutoff) }

  /** The section that records the request for a failure the failure window still counts. */
  predicate Settles(front: Run, section: Section, cutoff: Time) {
    section.RecordInRequests? && section.task in OwedSince(front, cutoff)
  }

  /** How many failures have been settled since the failures were last cleared. */
  function Settled(run: Run, cutoff: Time): nat {
    if run == [] then 0
    else
      var front, section := run[..|run| - 1], run[|run| - 1].section;
      if section == ClearFailures then 0
      else Settled(front, cutoff) + if Settles(front, section, cutoff) then 1 else 0
  }

  /** How many of them were settled before the requests were cleared, too: their requests are gone. */
  function Lost(run: Run, cutoff: Time): nat {
    if run == [] then 0
    else
      var front, section := run[..|run| - 1], run[|run| - 1].section;
      if section == ClearFailures then 0
      else if section == ClearRequests then Settled(front, cutoff)
      else Lost(front, cutoff)
  }

  lemma {:induction false} OwedAreFailing(config: Config, start: Time, run: Run)
    requires IsRun(config, start, run)
    ensures forall t :: t in Owed(run) ==>
      t in Final(start, run).failing && Final(start, run).failing[t] == FailureRecorded
    ensures InTime(run) ==> forall t :: t in Owed(run) ==> Owed(run)[t] <= run[|run| - 1].at
  {
    if run != [] {
      OwedAreFailing(config, start, run[..|run| - 1]);
    }
  }

  lemma OneMoreOwed(owed: map<nat, Time>, task: nat, at: Time, cutoff: Time)
    requires task !in owed
    ensures |From(owed[task := at], cutoff)| == |From(owed, cutoff)| + if at >= cutoff then 1 else 0
  {
    assert From(owed[task := at], cutoff) == From(owed, cutoff) + if at >= cutoff then {task} else {};
  }

  lemma OneLessOwed(owed: map<nat, Time>, task: nat, cutoff: Time)
    ensures |From(owed - {task}, cutoff)| == |From(owed, cutoff)| - if task in From(owed, cutoff) then 1 else 0
  {
    assert From(owed - {task}, cutoff) == From(owed, cutoff) - {task};
  }

  /** In every interleaving each counted failure is owed a request or has been settled. */
  lemma {:induction false} FailuresAreOwedOrSettled(config: Config, start: Time, run: Run, cutoff: Time)
    requires IsRun(config, start, run)
    ensures CountFrom(Final(start, run).windows.failures, cutoff) == |OwedSince(run, cutoff)| + Settled(run, cutoff)
  {
    if run != [] {
      var front, last := run[..|run| - 1], run[|run| - 1];
      FailuresAreOwedOrSettled(config, start, front, cutoff);
      OwedAreFailing(config, start, front);
      SectionOnFailures(config, last.before, last.section, last.at);
      var failures := last.before.windows.failures;
      assert (failures + [last.at])[..|failures|] == failures;
      match last.section
      case RecordInFailures(task) => OneMoreOwed(Owed(front), task, last.at, cutoff);
      case RecordInRequests(task) => OneLessOwed(Owed(front), task, cutoff);
      case _ =>
    }
  }

  lemma SectionOnRequests(config: Config, s: Locks, section: Section, now: Time)
    requires Enabled(s, section)
    ensures var requests, next := s.windows.requests, Next(config, s, section, now).windows.requests;
      && (section == ClearRequests ==> next == [])
      && (section.RecordInRequests? ==> next == requests + [now])
      && (section != ClearRequests ==> next == requests || next == requests + [now])
  {}

  /** A settled failure's request is in the window, unless it was lost. */
  lemma {:induction false} SettledAreRequested(config: Config, start: Time, run: Run, cutoff: Time)
    requires IsRun(config, start, run) && InTime(run)
    ensures CountFrom(Final(start, run).windows.requests, cutoff) + Lost(run, cutoff) >= Settled(run, cutoff)
  {
    if run != [] {
      var front, last := run[..|run| - 1], run[|run| - 1];
      SettledAreRequested(config, start, front, cutoff);
      OwedAreFailing(config, start, front);
      SectionOnRequests(config, last.before, last.section, last.at);
      var requests := last.before.windows.requests;
      assert (requests + [last.at])[..|requests|] == requests;
    }
  }

  /** Every failure in the window has its request there, but for those still owed one. */
  ghost predicate Covered(start: Time, run: Run, cutoff: Time) {
    CountFrom(Final(start, run).windows.failures, cutoff)
      <= CountFrom(Final(start, run).windows.requests, cutoff) + |OwedSince(run, cutoff)|
  }

  /** A clear is torn: a failure was recorded in both windows between the clear of the one and of the other. */
  predicate Tears(run: Run, i: nat, cutoff: Time)
    requires i < |run|
  {
    run[i].section == ClearRequests && Settled(run[..i], cutoff) > 0
  }

  lemma {:induction false} NothingLost(run: Run, cutoff: Time)
    requires forall i :: 0 <= i < |run| ==> !Tears(run, i, cutoff)
    ensures Lost(run, cutoff) == 0
  {
    if run != [] {
      var front := run[..|run| - 1];
      forall i | 0 <= i < |front| ensures !Tears(front, i, cutoff) {
        assert front[..i] == run[..i] && !Tears(run, i, cutoff);
      }
      NothingLost(front, cutoff);
      assert !Tears(run, |run| - 1, cutoff);
    }
  }

  lemma CoveredWhenNothingLost(config: Config, start: Time, run: Run, cutoff: Time)
    requires IsRun(config, start, run) && InTime(run) && Lost(run, cutoff) == 0
    ensures Covered(start, run, cutoff)
    ensures Final(start, run).failing == map[] ==>
      CountFrom(Final(start, run).windows.failures, cutoff) <= CountFrom(Final(start, run).windows.requests, cutoff)
  {
    FailuresAreOwedOrSettled(config, start, run, cutoff);
    SettledAreRequested(config, start, run, cutoff);
    OwedAreFailing(config, start, run);
    if Final(start, run).failing == map[] {
      assert OwedSince(run, cutoff) == {};
    }
  }

  lemma {:induction false} PrefixInTime(run: Run, i: nat)
    requires InTime(run) && i <= |run|
    ensures InTime(run[..i])
  {
    if i < |run| {
      PrefixInTime(run[..|run| - 1], i);
      assert run[..|run| - 1][..i] == run[..i];
    } else {
      assert run[..i] == run;
    }
  }

  lemma TornClearUncovers(config: Config, start: Time, run: Run, i: nat, cutoff: Time)
    requires IsRun(config, start, run) && i < |run| && Tears(run, i, cutoff)
    ensures !Covered(start, run[..i + 1], cutoff)
  {
    var upto := run[..i + 1];
    RunPrefix(config, start, run, i);
    if i + 1 < |run| {
      RunPrefix(config, start, run, i + 1);
    } else {
      assert upto == run;
    }
    assert upto[..i] == run[..i];
    FailuresAreOwedOrSettled(config, start, upto, cutoff);
  }

  /** In every interleaved run, the window's failures stay within its requests and the requests still owed at every
      moment if and only if no clear is torn; with no failing call under way they then stay within the requests. */
  lemma FailuresWithinRequestsExactly(config: Config, start: Time, run: Run, cutoff: Time)
    requires IsRun(config, start, run) && InTime(run)
    ensures (forall i :: 0 <= i <= |run| ==> Covered(start, run[..i], cutoff))
      <==> forall i :: 0 <= i < |run| ==> !Tears(run, i, cutoff)
    ensures (forall i :: 0 <= i < |run| ==> !Tears(run, i, cutoff)) && Final(start, run).failing == map[] ==>
      CountFrom(Final(start, run).windows.failures, cutoff) <= CountFrom(Final(start, run).windows.requests, cutoff)
  {
    if forall i :: 0 <= i < |run| ==> !Tears(run, i, cutoff) {
      forall i | 0 <= i <= |run| ensures Covered(start, run[..i], cutoff) {
        UntornPrefixIsCovered(config, start, run, i, cutoff);
      }
      NothingLost(run, cutoff);
      CoveredWhenNothingLost(config, start, run, cutoff);
    } else {
      var i :| 0 <= i < |run| && Tears(run, i, cutoff);
      TornClearUncovers(config, start, run, i, cutoff);
    }
  }

  lemma UntornPrefixIsCovered(config: Config, start: Time, run: Run, i: nat, cutoff: Time)
    requires IsRun(config, start, run) && InTime(run) && i <= |run|
    requires forall j :: 0 <= j < |run| ==> !Tears(run, j, cutoff)
    ensures Covered(start, run[..i], cutoff)
  {
    var upto := run[..i];
    if i < |run| {
      RunPrefix(config, start, run, i);
    } else {
      assert upto == run;
    }
    PrefixInTime(run, i);
    forall j | 0 <= j < i ensures !Tears(upto, j, cutoff) {
      assert upto[..j] == run[..j] && !Tears(run, j, cutoff);
    }
    NothingLost(upto, cutoff);
    CoveredWhenNothingLost(config, start, upto, cutoff);
  }

  lemma Then(config: Config, start: Time, run: Run, section: Section) returns (longer: Run)
    requires IsRun(config, start, run) && Enabled(Final(start, run), section)
    ensures IsRun(config, start, longer) && Final(start, longer) == Next(config, Final(start, run), section, start)
  {
    longer := run + [Moment(Final(start, run), section, start, Next(config, Final(start, run), section, start))];
    assert longer[..|run|] == run;
  }

  /** A failure recorded between the two clears of a reset is kept in one window and lost in the other. */
  lemma FailureDuringReset(config: Config, start: Time) returns (run: Run)
    ensures IsRun(config, start, run)
    ensures Final(start, run) ==
      Locks(State(Initial(start).machine.Enter(Closed, start, MANUAL_RESET), [start], [start]), ClearingRequests,
        map[0 := RequestRecorded])
  {
    run := Then(config, start, [], ResetByHand);
    run := Then(config, start, run, ClearFailures);
    run := Then(config, start, run, RecordInFailures(0));
    run := Then(config, start, run, RecordInRequests(0));
  }

  /** Torn clears happen: with all calls finished and the lock free, the breaker can count more failures than
      requests. */
  lemma FailuresCanExceedRequests(config: Config, start: Time)
    ensures exists run: Run ::
      (IsRun(config, start, run) && Final(start, run).holder == Free && Final(start, run).failing == map[]
      && |Final(start, run).windows.failures| > |Final(start, run).windows.requests|)
  {
    var run := FailureDuringReset(config, start);
    run := Then(config, start, run, ClearRequests);
    run := Then(config, start, run, CheckFailure(0));
  }
}
