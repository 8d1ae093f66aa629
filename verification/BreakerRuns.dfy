/** What holds over every run of the circuit breaker, said about the calls alone. */
module BreakerRuns {
  import opened Options
  import opened SlidingWindows
  import opened BreakerStates
  import opened Breakers

  /** One call, with the state it found and the state it left. */
  datatype Moment = Moment(before: State, call: Call, at: Time, after: State) {
    predicate Answered(config: Config, decision: Decision) {
      call == AllowRequest && Answer(config, before, at) == decision
    }

    predicate Passes(config: Config) { call == AllowRequest && Answer(config, before, at) != Rejected }

    /** A call that empties both windows: a reset, or the outcome of a probe. */
    predicate Clears() {
      call == Reset || ((call == RecordSuccess || call == RecordFailure) && before.machine.current == HalfOpen)
    }
  }

  type Run = seq<Moment>

  function Final(start: Time, run: Run): State {
    if run == [] then Initial(start) else run[|run| - 1].after
  }

  /** The calls made on one breaker, from its creation on, each taking effect at once. */
  predicate IsRun(config: Config, start: Time, run: Run) {
    run != [] ==>
      var front, last := run[..|run| - 1], run[|run| - 1];
      && IsRun(config, start, front)
      && last.before == Final(start, front)
      && last.after == Step(config, last.before, last.call, last.at)
  }

  /** Every prefix of a run is a run, and its moments are linked. */
  lemma {:induction false} RunPrefix(config: Config, start: Time, run: Run, i: nat)
    requires IsRun(config, start, run) && i <= |run|
    ensures IsRun(config, start, run[..i])
    ensures i < |run| ==>
      run[i].before == Final(start, run[..i])
      && run[i].after == Step(config, run[i].before, run[i].call, run[i].at)
  {
    if i == |run| {
      assert run[..i] == run;
    } else if i < |run| - 1 {
      var front := run[..|run| - 1];
      RunPrefix(config, start, front, i);
      assert front[..i] == run[..i] && front[i] == run[i];
    }
  }

  /** The position just behind the last call that emptied the windows. */
  function LastClear(run: Run): (from: nat)
    ensures from <= |run|
  {
    if run == [] then 0
    else if run[|run| - 1].Clears() then |run|
    else LastClear(run[..|run| - 1])
  }

  /** The record_failure calls at positions from on, made at or after the cutoff. */
  function FailuresSince(run: Run, from: nat, cutoff: Time): nat {
    if |run| <= from then 0
    else
      var last := run[|run| - 1];
      FailuresSince(run[..|run| - 1], from, cutoff) + if last.call == RecordFailure && last.at >= cutoff then 1 else 0
  }

  /** The requests let through at positions from on, made at or after the cutoff. */
  function PassedSince(config: Config, run: Run, from: nat, cutoff: Time): nat {
    if |run| <= from then 0
    else
      var last := run[|run| - 1];
      PassedSince(config, run[..|run| - 1], from, cutoff) + if last.Passes(config) && last.at >= cutoff then 1 else 0
  }

  /** The probes issued at positions from on. */
  function ProbesSince(config: Config, run: Run, from: nat): nat {
    if |run| <= from then 0
    else ProbesSince(config, run[..|run| - 1], from) + if run[|run| - 1].Answered(config, Probe) then 1 else 0
  }

  // ----- the windows say exactly what the calls since the last clear say -----

  lemma CountFromPush(s: seq<Time>, t: Time, cutoff: Time)
    ensures CountFrom(s + [t], cutoff) == CountFrom(s, cutoff) + if t >= cutoff then 1 else 0
  {
    assert (s + [t])[..|s|] == s;
  }

  /** What one call does to the two histories. */
  lemma StepOnHistories(config: Config, m: Moment)
    requires m.after == Step(config, m.before, m.call, m.at)
    ensures if m.Clears() then m.after.failures == [] && m.after.requests == []
      else
        && m.after.failures == (if m.call == RecordFailure then m.before.failures + [m.at] else m.before.failures)
        && m.after.requests ==
          if m.call == RecordFailure || m.Passes(config) then m.before.requests + [m.at] else m.before.requests
  {}

  lemma {:induction false} FailuresCountCalls(config: Config, start: Time, run: Run, cutoff: Time)
    requires IsRun(config, start, run)
    ensures CountFrom(Final(start, run).failures, cutoff) == FailuresSince(run, LastClear(run), cutoff)
  {
    if run != [] {
      var front, last := run[..|run| - 1], run[|run| - 1];
      FailuresCountCalls(config, start, front, cutoff);
      StepOnHistories(config, last);
      if !last.Clears() {
        CountFromPush(last.before.failures, last.at, cutoff);
      }
    }
  }

  lemma {:induction false} RequestsCountCalls(config: Config, start: Time, run: Run, cutoff: Time)
    requires IsRun(config, start, run)
    ensures CountFrom(Final(start, run).requests, cutoff)
      == PassedSince(config, run, LastClear(run), cutoff) + FailuresSince(run, LastClear(run), cutoff)
  {
    if run != [] {
      var front, last := run[..|run| - 1], run[|run| - 1];
      RequestsCountCalls(config, start, front, cutoff);
      StepOnHistories(config, last);
      if !last.Clears() {
        CountFromPush(last.before.requests, last.at, cutoff);
      }
    }
  }

  /** A failed admitted request counts twice: once when admitted, once when it fails. */
  lemma {:induction false} WindowsCountCalls(config: Config, start: Time, run: Run, cutoff: Time)
    requires IsRun(config, start, run)
    ensures CountFrom(Final(start, run).failures, cutoff) == FailuresSince(run, LastClear(run), cutoff)
    ensures CountFrom(Final(start, run).requests, cutoff)
      == PassedSince(config, run, LastClear(run), cutoff) + FailuresSince(run, LastClear(run), cutoff)
  {
    FailuresCountCalls(config, start, run, cutoff);
    RequestsCountCalls(config, start, run, cutoff);
  }

  /** A closed breaker has been closed ever since its windows were last emptied. */
  lemma {:induction false} ClosedSinceLastClear(config: Config, start: Time, run: Run, i: nat)
    requires IsRun(config, start, run) && Final(start, run).machine.current == Closed
    requires LastClear(run) <= i <= |run|
    ensures Final(start, run[..i]).machine.current == Closed
  {
    if i == |run| {
      assert run[..i] == run;
    } else {
      var front := run[..|run| - 1];
      ClosedSinceLastClear(config, start, front, i);
      assert front[..i] == run[..i];
    }
  }

  // ----- when the breaker trips -----

  /** Enough calls to record_failure since the windows were last emptied, all inside the window. */
  predicate EnoughFailures(config: Config, run: Run, now: Time) {
    FailuresSince(run, LastClear(run), now - Seconds(config.windowSecs)) >= config.maxFailures
  }

  predicate EnoughTraffic(config: Config, run: Run, now: Time) {
    var from, cutoff := LastClear(run), now - Seconds(config.windowSecs);
    PassedSince(config, run, from, cutoff) + FailuresSince(run, from, cutoff) >= config.minRequestThreshold
  }

  /** A closed breaker trips on a request exactly when the calls since it became closed say so. */
  lemma TripsExactlyWhen(config: Config, start: Time, run: Run, now: Time)
    requires IsRun(config, start, run) && Final(start, run).machine.current == Closed
    ensures var s := Final(start, run); var trips := Step(config, s, AllowRequest, now).machine.current == Open;
      && (trips <==> EnoughFailures(config, run, now) && EnoughTraffic(config, run, now))
      && (trips <==> Answer(config, s, now) == Rejected)
  {
    ShouldTripExactly(config, start, run, now);
    ClosedTripsExactly(config, Final(start, run), now);
  }

  lemma CountsDecide(config: Config, s: State, failures: nat, passed: nat, now: Time)
    requires CountFrom(s.failures, now - Seconds(config.windowSecs)) == failures
    requires CountFrom(s.requests, now - Seconds(config.windowSecs)) == passed + failures
    ensures s.ShouldTrip(config, now) <==>
      failures >= config.maxFailures && passed + failures >= config.minRequestThreshold
  {}

  lemma ShouldTripExactly(config: Config, start: Time, run: Run, now: Time)
    requires IsRun(config, start, run)
    ensures Final(start, run).ShouldTrip(config, now)
      <==> EnoughFailures(config, run, now) && EnoughTraffic(config, run, now)
  {
    var from, cutoff := LastClear(run), now - Seconds(config.windowSecs);
    WindowsCountCalls(config, start, run, cutoff);
    CountsDecide(config, Final(start, run), FailuresSince(run, from, cutoff), PassedSince(config, run, from, cutoff),
                 now);
  }

  lemma ClosedTripsExactly(config: Config, s: State, now: Time)
    requires s.machine.current == Closed
    ensures Step(config, s, AllowRequest, now).machine.current == Open <==> s.ShouldTrip(config, now)
    ensures Answer(config, s, now) == Rejected <==> s.ShouldTrip(config, now)
  {}

  /** Only a request can move a closed breaker to Open. */
  lemma OnlyRequestsTrip(config: Config, s: State, call: Call, now: Time)
    requires s.machine.current == Closed && Step(config, s, call, now).machine.current == Open
    ensures call == AllowRequest
  {}

  lemma ClosedThroughTheFailures(config: Config, start: Time, run: Run, i: nat, j: nat)
    requires IsRun(config, start, run) && i < |run| && run[i].before.machine.current == Closed
    requires LastClear(run[..i]) <= j <= i
    ensures run[j].before.machine.current == Closed
  {
    RunPrefix(config, start, run, i);
    RunPrefix(config, start, run, j);
    ClosedSinceLastClear(config, start, run[..i], j);
    assert run[..i][..j] == run[..j];
  }

  /** Every Closed-to-Open transition of every run is caused by a request, and was preceded by
      max_failures failures inside the window, through all of which the breaker was closed. */
  lemma EveryTripHasItsFailures(config: Config, start: Time, run: Run, i: nat)
    requires IsRun(config, start, run) && i < |run|
    requires run[i].before.machine.current == Closed && run[i].after.machine.current == Open
    ensures run[i].call == AllowRequest
    ensures EnoughFailures(config, run[..i], run[i].at)
    ensures forall j :: LastClear(run[..i]) <= j <= i ==> run[j].before.machine.current == Closed
  {
    RunPrefix(config, start, run, i);
    OnlyRequestsTrip(config, run[i].before, run[i].call, run[i].at);
    TripsExactlyWhen(config, start, run[..i], run[i].at);
    forall j | LastClear(run[..i]) <= j <= i ensures run[j].before.machine.current == Closed {
      ClosedThroughTheFailures(config, start, run, i, j);
    }
  }

  /** The minimum-request check makes no difference in any run of this configuration. */
  ghost predicate ThresholdRedundant(config: Config) {
    forall start, run, now ::
      IsRun(config, start, run) && Final(start, run).machine.current == Closed && EnoughFailures(config, run, now)
      ==> Final(start, run).ShouldTrip(config, now)
  }

  function FailureBurst(config: Config, n: nat): Run {
    if n == 0 then []
    else
      var front := FailureBurst(config, n - 1);
      var before := Final(0, front);
      front + [Moment(before, RecordFailure, 0, Step(config, before, RecordFailure, 0))]
  }

  lemma {:induction false} BurstOnlyFails(config: Config, n: nat, cutoff: Time)
    requires cutoff <= 0
    ensures var run := FailureBurst(config, n);
      && IsRun(config, 0, run) && Final(0, run).machine.current == Closed
      && LastClear(run) == 0 && FailuresSince(run, 0, cutoff) == n && PassedSince(config, run, 0, cutoff) == 0
  {
    if n > 0 {
      BurstOnlyFails(config, n - 1, cutoff);
      var run := FailureBurst(config, n);
      assert run[..|run| - 1] == FailureBurst(config, n - 1);
    }
  }

  lemma EnoughFailuresAreEnough(config: Config, start: Time, run: Run, now: Time)
    requires config.maxFailures >= config.minRequestThreshold
    requires IsRun(config, start, run) && EnoughFailures(config, run, now)
    ensures Final(start, run).ShouldTrip(config, now)
  {
    ShouldTripExactly(config, start, run, now);
  }

  lemma BurstIsNotEnough(config: Config)
    requires config.maxFailures < config.minRequestThreshold
    ensures var run := FailureBurst(config, config.maxFailures);
      IsRun(config, 0, run) && Final(0, run).machine.current == Closed
      && EnoughFailures(config, run, 0) && !Final(0, run).ShouldTrip(config, 0)
  {
    var run := FailureBurst(config, config.maxFailures);
    BurstOnlyFails(config, config.maxFailures, 0 - Seconds(config.windowSecs));
    ShouldTripExactly(config, 0, run, 0);
    assert EnoughFailures(config, run, 0) && !EnoughTraffic(config, run, 0);
  }

  /** Failures count as requests, so the check matters only if it asks for more than max_failures. */
  lemma ThresholdRedundantExactlyWhen(config: Config)
    ensures ThresholdRedundant(config) <==> config.maxFailures >= config.minRequestThreshold
  {
    if config.maxFailures >= config.minRequestThreshold {
      forall start, run, now |
        IsRun(config, start, run) && Final(start, run).machine.current == Closed && EnoughFailures(config, run, now)
        ensures Final(start, run).ShouldTrip(config, now)
      {
        EnoughFailuresAreEnough(config, start, run, now);
      }
    } else {
      BurstIsNotEnough(config);
    }
  }

  // ----- half-open episodes -----

  /** The position of the request that began the last half-open episode. */
  function EpisodeStart(run: Run): (from: nat)
    ensures from <= |run|
    ensures run != [] ==> from < |run|
  {
    if |run| <= 1 then 0
    else if run[|run| - 1].before.machine.current != HalfOpen then |run| - 1
    else EpisodeStart(run[..|run| - 1])
  }

  ghost predicate WellFormed(config: Config, m: Machine) {
    && (m.halfOpenStart.Some? <==> m.current == HalfOpen)
    && (m.current == HalfOpen ==> m.halfOpenStart == Some(m.lastStateChange))
    && (m.current != HalfOpen ==> m.probesUsed == 0)
    && (m.current == HalfOpen
        ==> m.probesUsed <= config.maxHalfOpenProbes && (0 < config.maxHalfOpenProbes ==> 0 < m.probesUsed))
    && (m.lastTransition.Some? ==>
          var t := m.lastTransition.value;
          t.to == m.current && (t.to == HalfOpen ==> t.from == Open) && (t.to == Open ==> t.from != Open))
  }

  lemma StepKeepsWellFormed(config: Config, s: State, call: Call, now: Time)
    requires WellFormed(config, s.machine)
    ensures WellFormed(config, Step(config, s, call, now).machine)
  {}

  /** half_open_start is set in HalfOpen and nowhere else, and so are the probe slots. */
  lemma {:induction false} MachineStaysWellFormed(config: Config, start: Time, run: Run)
    requires IsRun(config, start, run)
    ensures WellFormed(config, Final(start, run).machine)
  {
    if run != [] {
      var last := run[|run| - 1];
      MachineStaysWellFormed(config, start, run[..|run| - 1]);
      StepKeepsWellFormed(config, last.before, last.call, last.at);
    }
  }

  // ----- how the state moves -----

  /** Which call moves the breaker where, in every run. A closed breaker only ever opens, and only on a request it
      rejects; an open one waits for a request it lets through as a probe; a half-open one closes on a success and
      reopens on a failure; a reset closes from everywhere. Every other call leaves the state alone. */
  lemma TransitionsExactly(config: Config, start: Time, run: Run, i: nat)
    requires IsRun(config, start, run) && i < |run|
    ensures var m := run[i]; var from, to := m.before.machine.current, m.after.machine.current;
      && (from != Closed ==>
          (to == Closed <==> m.call == Reset || (m.call == RecordSuccess && from == HalfOpen)))
      && (from == HalfOpen ==> (to == Open <==> m.call == RecordFailure))
      && (from == Open ==> (to == HalfOpen <==> m.Answered(config, Probe)))
      && (from == Closed ==> to != HalfOpen && (to == Open <==> m.Answered(config, Rejected)))
  {
    RunPrefix(config, start, run, i);
  }

  /** Why a call moves the breaker. */
  function ReasonOf(call: Call, from: CircuitState): string {
    match call
    case AllowRequest => if from == Closed then THRESHOLD_REACHED else OPEN_TIMEOUT
    case RecordSuccess => PROBE_SUCCEEDED
    case RecordFailure => PROBE_FAILED
    case Reset => MANUAL_RESET
  }

  /** A call that moves the breaker, or resets it, leaves its time, where it came from and why; any other call leaves
      the time and the reason of the last change alone. */
  lemma ChangesAreStamped(config: Config, start: Time, run: Run, i: nat)
    requires IsRun(config, start, run) && i < |run|
    ensures var call, m, n := run[i].call, run[i].before.machine, run[i].after.machine;
      if call == Reset || n.current != m.current
      then n.lastStateChange == run[i].at
        && n.lastTransition == Some(StateTransition(m.current, n.current, ReasonOf(call, m.current)))
      else n.lastStateChange == m.lastStateChange && n.lastTransition == m.lastTransition
  {
    RunPrefix(config, start, run, i);
  }

  /** Only a closed breaker answers Allowed, and it never answers Probe; a rejected request leaves every state but
      Closed as it was. */
  lemma AnswersByState(config: Config, start: Time, run: Run, i: nat)
    requires IsRun(config, start, run) && i < |run| && run[i].call == AllowRequest
    ensures var m := run[i];
      && (m.Answered(config, Allowed) <==> m.before.machine.current == Closed && m.after.machine.current == Closed)
      && (m.Answered(config, Probe) ==> m.after.machine.current == HalfOpen)
      && (m.Answered(config, Rejected) && m.before.machine.current != Closed ==> m.after == m.before)
  {
    RunPrefix(config, start, run, i);
  }

  /** A breaker that has just closed, by a successful probe or a reset, lets the next request through exactly when
      one of the thresholds is positive. */
  lemma JustClosedLetsThrough(config: Config, start: Time, run: Run, i: nat)
    requires IsRun(config, start, run) && i + 1 < |run|
    requires run[i].call == Reset || (run[i].call == RecordSuccess && run[i].before.machine.current == HalfOpen)
    requires run[i + 1].call == AllowRequest
    ensures run[i + 1].Answered(config, Allowed) <==> config.maxFailures > 0 || config.minRequestThreshold > 0
  {
    RunPrefix(config, start, run, i);
    BeforeIsAfter(config, start, run, i + 1);
  }

  /** The opening request is a probe even without a slot, so an episode issues at least one. */
  lemma {:induction false} EpisodeCountsProbes(config: Config, start: Time, run: Run)
    requires IsRun(config, start, run) && Final(start, run).machine.current == HalfOpen
    ensures var used := Final(start, run).machine.probesUsed;
      ProbesSince(config, run, EpisodeStart(run)) == if used == 0 then 1 else used
  {
    var front, last := run[..|run| - 1], run[|run| - 1];
    MachineStaysWellFormed(config, start, front);
    if last.before.machine.current == HalfOpen {
      EpisodeCountsProbes(config, start, front);
      assert front != [];
      assert EpisodeStart(run) == EpisodeStart(front);
    } else {
      assert EpisodeStart(run) == |front|;
      assert ProbesSince(config, front, |front|) == 0;
    }
  }

  /** At most max(1, max_half_open_probes) probes per episode; while slots last the next request gets one. */
  lemma ProbesPerEpisodeBounded(config: Config, start: Time, run: Run, now: Time)
    requires IsRun(config, start, run) && Final(start, run).machine.current == HalfOpen
    ensures var issued := ProbesSince(config, run, EpisodeStart(run));
      && 1 <= issued <= (if config.maxHalfOpenProbes == 0 then 1 else config.maxHalfOpenProbes)
      && (Answer(config, Final(start, run), now) == Probe <==> issued < config.maxHalfOpenProbes)
  {
    MachineStaysWellFormed(config, start, run);
    EpisodeCountsProbes(config, start, run);
  }

  // ----- the open period -----

  /** Between i and k nobody resets, and nobody asks for admission once the deadline is over. */
  ghost predicate Undisturbed(run: Run, i: nat, k: nat, deadline: Time)
    requires i <= k <= |run|
  {
    forall j :: i <= j < k ==> run[j].call != Reset && (run[j].call == AllowRequest ==> run[j].at < deadline)
  }

  lemma BeforeIsAfter(config: Config, start: Time, run: Run, k: nat)
    requires IsRun(config, start, run) && 0 < k < |run|
    ensures run[k].before == run[k - 1].after
  {
    RunPrefix(config, start, run, k);
    assert run[..k][k - 1] == run[k - 1];
  }

  lemma OpenOutlasts(config: Config, s: State, call: Call, now: Time)
    requires s.machine.current == Open && call != Reset
    requires call == AllowRequest ==> now < s.machine.lastStateChange + Seconds(config.halfOpenTimeoutSecs)
    ensures Step(config, s, call, now).machine == s.machine
  {}

  /** Neither failures nor rejected requests prolong or shorten the open period. */
  lemma {:induction false} OpenStaysOpen(config: Config, start: Time, run: Run, i: nat, k: nat)
    requires IsRun(config, start, run) && i < k <= |run|
    requires run[i].after.machine.current == Open
    requires Undisturbed(run, i + 1, k, run[i].after.machine.lastStateChange + Seconds(config.halfOpenTimeoutSecs))
    ensures run[k - 1].after.machine == run[i].after.machine
  {
    if i + 1 < k {
      OpenStaysOpen(config, start, run, i, k - 1);
      RunPrefix(config, start, run, k - 1);
      BeforeIsAfter(config, start, run, k - 1);
      OpenOutlasts(config, run[k - 1].before, run[k - 1].call, run[k - 1].at);
    }
  }

  lemma EntryStamps(config: Config, start: Time, run: Run, i: nat)
    requires IsRun(config, start, run) && i < |run|
    requires run[i].before.machine.current != Open && run[i].after.machine.current == Open
    ensures run[i].after.machine.lastStateChange == run[i].at
  {
    RunPrefix(config, start, run, i);
  }

  /** The state a later call finds is still the one that was entered. */
  lemma OpenUntil(config: Config, start: Time, run: Run, i: nat, k: nat)
    requires IsRun(config, start, run) && i < k < |run|
    requires run[i].before.machine.current != Open && run[i].after.machine.current == Open
    requires Undisturbed(run, i + 1, k, run[i].at + Seconds(config.halfOpenTimeoutSecs))
    ensures run[k].before.machine.current == Open && run[k].before.machine.lastStateChange == run[i].at
  {
    EntryStamps(config, start, run, i);
    OpenStaysOpen(config, start, run, i, k);
    BeforeIsAfter(config, start, run, k);
  }

  /** Entering Open at position i fixes every later answer: until the timeout has passed since that very
      call each request is rejected, and the first one after it is a probe. */
  lemma OpenPeriodIsExact(config: Config, start: Time, run: Run, i: nat, k: nat)
    requires IsRun(config, start, run) && i < k < |run|
    requires run[i].before.machine.current != Open && run[i].after.machine.current == Open
    requires Undisturbed(run, i + 1, k, run[i].at + Seconds(config.halfOpenTimeoutSecs))
    requires run[k].call == AllowRequest
    ensures run[k].Answered(config, Rejected) <==> run[k].at < run[i].at + Seconds(config.halfOpenTimeoutSecs)
    ensures run[k].Answered(config, Probe) <==> run[i].at + Seconds(config.halfOpenTimeoutSecs) <= run[k].at
  {
    OpenUntil(config, start, run, i, k);
  }
}
