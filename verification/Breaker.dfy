/** The circuit breaker: its meaning over full event histories, and the locked object that implements it. */
module Breakers {
  import opened Options
  import opened SlidingWindows
  import opened BreakerStates

  datatype Config = Config(
    windowSecs: nat,
    maxFailures: nat,
    halfOpenTimeoutSecs: nat,
    maxHalfOpenProbes: nat,
    minRequestThreshold: nat)

  datatype Decision = Allowed | Rejected | Probe

  datatype Call = AllowRequest | RecordSuccess | RecordFailure | Reset

  datatype Status = Status(state: CircuitState, totalRequests: nat, failures: nat, name: string)

  /** The breaker's meaning: the machine, and every event recorded since the windows were last cleared. */
  datatype State = State(machine: Machine, failures: seq<Time>, requests: seq<Time>) {
    predicate ShouldTrip(config: Config, now: Time) {
      var cutoff := now - Seconds(config.windowSecs);
      && CountFrom(requests, cutoff) >= config.minRequestThreshold
      && CountFrom(failures, cutoff) >= config.maxFailures
    }

    function Cleared(machine: Machine): State { State(machine, [], []) }

    function Admit(machine: Machine, now: Time): State { State(machine, failures, requests + [now]) }
  }

  const THRESHOLD_REACHED := "failure threshold reached"

  function Initial(now: Time): State { State(Machine(Closed, now, None, 0, None), [], []) }

  function Answer(config: Config, s: State, now: Time): Decision {
    match s.machine.current
    case Closed => if s.ShouldTrip(config, now) then Rejected else Allowed
    case Open => if s.machine.OpenTimeoutReached(Seconds(config.halfOpenTimeoutSecs), now) then Probe else Rejected
    case HalfOpen => if s.machine.ProbeSlotFree(config.maxHalfOpenProbes) then Probe else Rejected
  }

  function AfterRequest(config: Config, s: State, now: Time): State {
    match s.machine.current
    case Closed =>
      if s.ShouldTrip(config, now) then s.(machine := s.machine.Enter(Open, now, THRESHOLD_REACHED))
      else s.Admit(s.machine, now)
    case Open =>
      if Answer(config, s, now) == Probe
      then s.Admit(s.machine.Enter(HalfOpen, now, OPEN_TIMEOUT).UseProbeSlot(config.maxHalfOpenProbes), now)
      else s
    case HalfOpen =>
      if Answer(config, s, now) == Probe
      then s.Admit(s.machine.UseProbeSlot(config.maxHalfOpenProbes), now)
      else s
  }

  function AfterSuccess(s: State, now: Time): State {
    if s.machine.current == HalfOpen then s.Cleared(s.machine.Enter(Closed, now, PROBE_SUCCEEDED)) else s
  }

  function AfterFailure(s: State, now: Time): State {
    if s.machine.current == HalfOpen then s.Cleared(s.machine.Enter(Open, now, PROBE_FAILED))
    else State(s.machine, s.failures + [now], s.requests + [now])
  }

  function AfterReset(s: State, now: Time): State { s.Cleared(s.machine.Enter(Closed, now, MANUAL_RESET)) }

  function Step(config: Config, s: State, call: Call, now: Time): State {
    match call
    case AllowRequest => AfterRequest(config, s, now)
    case RecordSuccess => AfterSuccess(s, now)
    case RecordFailure => AfterFailure(s, now)
    case Reset => AfterReset(s, now)
  }

  class DefaultCircuitBreaker {
    const name: string
    const config: Config
    const state: StateMachine
    const failureWindow: SlidingWindow
    const requestWindow: SlidingWindow
    ghost var clock: Time

    ghost predicate Valid()
      reads this, state, failureWindow, requestWindow
    {
      && failureWindow != requestWindow
      && failureWindow.Valid() && failureWindow.clock <= clock
      && requestWindow.Valid() && requestWindow.clock <= clock
      && failureWindow.windowSecs == requestWindow.windowSecs == config.windowSecs
      && state.maxHalfOpenProbes == config.maxHalfOpenProbes
      && state.halfOpenTimeout == Seconds(config.halfOpenTimeoutSecs)
    }

    /** What the object means; the events its windows have evicted are still part of it. */
    ghost function Meaning(): State
      reads this, state, failureWindow, requestWindow
    {
      State(state.Snapshot(), failureWindow.history, requestWindow.history)
    }

    constructor (name: string, config: Config, now: Time)
      ensures Valid() && clock == now
      ensures Meaning() == Initial(now)
      ensures this.name == name && this.config == config
      ensures fresh(state) && fresh(failureWindow) && fresh(requestWindow)
    {
      this.name := name;
      this.config := config;
      state := new StateMachine(config.maxHalfOpenProbes, config.halfOpenTimeoutSecs, now);
      failureWindow := new SlidingWindow(config.windowSecs, now);
      requestWindow := new SlidingWindow(config.windowSecs, now);
      clock := now;
    }

    method CountRequests(now: Time) returns (n: nat)
      requires Valid() && clock <= now
      modifies this`clock, requestWindow
      ensures Valid() && clock == now && Meaning() == old(Meaning())
      ensures n == CountFrom(Meaning().requests, now - Seconds(config.windowSecs))
    {
      n := requestWindow.Count(now);
      clock := now;
      assert failureWindow.Valid();
    }

    method CountFailures(now: Time) returns (n: nat)
      requires Valid() && clock <= now
      modifies this`clock, failureWindow
      ensures Valid() && clock == now && Meaning() == old(Meaning())
      ensures n == CountFrom(Meaning().failures, now - Seconds(config.windowSecs))
    {
      n := failureWindow.Count(now);
      clock := now;
      assert requestWindow.Valid();
    }

    method ShouldTrip(now: Time) returns (trip: bool)
      requires Valid() && clock <= now
      modifies this`clock, failureWindow, requestWindow
      ensures Valid() && clock == now && Meaning() == old(Meaning())
      ensures trip <==> Meaning().ShouldTrip(config, now)
    {
      var total := CountRequests(now);
      var failures := CountFailures(now);
      if total < config.minRequestThreshold {
        return false;
      }
      trip := failures >= config.maxFailures;
    }

    method AllowRequest(now: Time) returns (decision: Decision)
      requires Valid() && clock <= now
      modifies this`clock, state, failureWindow, requestWindow
      ensures Valid() && clock == now
      ensures Meaning() == Step(config, old(Meaning()), Call.AllowRequest, now)
      ensures decision == Answer(config, old(Meaning()), now)
    {
      clock := now;
      match state.current {
        case Closed =>
          var trip := ShouldTrip(now);
          if trip {
            var _ := state.TryOpen(THRESHOLD_REACHED, now);
            decision := Rejected;
          } else {
            requestWindow.Record(now);
            decision := Allowed;
          }
        case Open =>
          if state.ShouldAttemptHalfOpen(now) {
            var _ := state.TryHalfOpen(now);
            var _ := state.AllowProbe();
            requestWindow.Record(now);
            decision := Probe;
          } else {
            decision := Rejected;
          }
        case HalfOpen =>
          var slot := state.AllowProbe();
          if slot {
            requestWindow.Record(now);
            decision := Probe;
          } else {
            decision := Rejected;
          }
      }
    }

    method RecordSuccess(now: Time)
      requires Valid() && clock <= now
      modifies this`clock, state, failureWindow, requestWindow
      ensures Valid() && clock == now
      ensures Meaning() == Step(config, old(Meaning()), Call.RecordSuccess, now)
    {
      clock := now;
      if state.current == HalfOpen {
        var _ := state.RecordProbeSuccess(now);
        failureWindow.Clear();
        requestWindow.Clear();
      }
    }

    method RecordFailure(now: Time)
      requires Valid() && clock <= now
      modifies this`clock, state, failureWindow, requestWindow
      ensures Valid() && clock == now
      ensures Meaning() == Step(config, old(Meaning()), Call.RecordFailure, now)
    {
      clock := now;
      failureWindow.Record(now);
      requestWindow.Record(now);
      if state.current == HalfOpen {
        var _ := state.RecordProbeFailure(now);
        failureWindow.Clear();
        requestWindow.Clear();
      }
    }

    method GetStatus(now: Time) returns (status: Status)
      requires Valid() && clock <= now
      modifies this`clock, failureWindow, requestWindow
      ensures Valid() && clock == now && Meaning() == old(Meaning())
      ensures var cutoff := now - Seconds(config.windowSecs);
        status == Status(Meaning().machine.current, CountFrom(Meaning().requests, cutoff),
                         CountFrom(Meaning().failures, cutoff), name)
    {
      var failures := CountFailures(now);
      var total := CountRequests(now);
      status := Status(state.current, total, failures, name);
    }

    method Reset(now: Time)
      requires Valid() && clock <= now
      modifies this`clock, state, failureWindow, requestWindow
      ensures Valid() && clock == now
      ensures Meaning() == Step(config, old(Meaning()), Call.Reset, now)
    {
      clock := now;
      state.Reset(now);
      failureWindow.Clear();
      requestWindow.Clear();
    }
  }
}
