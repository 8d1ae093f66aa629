/** The three-state machine inside the circuit breaker. */
module BreakerStates {
  import opened Options
  import opened SlidingWindows

  datatype CircuitState = Closed | Open | HalfOpen

  datatype StateTransition = StateTransition(from: CircuitState, to: CircuitState, reason: string)

  /** The mutable part of the state machine, as a value. */
  datatype Machine = Machine(
    current: CircuitState,
    lastStateChange: Time,
    halfOpenStart: Option<Time>,
    probesUsed: nat,
    lastTransition: Option<StateTransition>)
  {
    /** Entering a state stamps the change and forgets the probes of the episode before. */
    function Enter(to: CircuitState, now: Time, reason: string): Machine {
      Machine(to, now, if to == HalfOpen then Some(now) else None, 0, Some(StateTransition(current, to, reason)))
    }

    predicate OpenTimeoutReached(timeout: nat, now: Time) {
      current == Open && now - lastStateChange >= timeout
    }

    predicate ProbeSlotFree(maxProbes: nat) {
      current == HalfOpen && probesUsed < maxProbes
    }

    function UseProbeSlot(maxProbes: nat): Machine {
      if ProbeSlotFree(maxProbes) then this.(probesUsed := probesUsed + 1) else this
    }
  }

  const OPEN_TIMEOUT := "Open timeout reached, attempting half-open"
  const PROBE_SUCCEEDED := "Probe succeeded, resetting to Closed"
  const PROBE_FAILED := "Probe failed, returning to Open"
  const MANUAL_RESET := "Manual reset"

  class StateMachine {
    const maxHalfOpenProbes: nat
    const halfOpenTimeout: nat
    var current: CircuitState
    var lastStateChange: Time
    var halfOpenStart: Option<Time>
    var halfOpenProbesUsed: nat
    var lastTransition: Option<StateTransition>

    ghost function Snapshot(): Machine
      reads this
    {
      Machine(current, lastStateChange, halfOpenStart, halfOpenProbesUsed, lastTransition)
    }

    constructor (maxHalfOpenProbes: nat, halfOpenTimeoutSecs: nat, now: Time)
      ensures Snapshot() == Machine(Closed, now, None, 0, None)
      ensures this.maxHalfOpenProbes == maxHalfOpenProbes && halfOpenTimeout == Seconds(halfOpenTimeoutSecs)
    {
      this.maxHalfOpenProbes := maxHalfOpenProbes;
      halfOpenTimeout := Seconds(halfOpenTimeoutSecs);
      current := Closed;
      lastStateChange := now;
      halfOpenStart := None;
      halfOpenProbesUsed := 0;
      lastTransition := None;
    }

    method TryOpen(reason: string, now: Time) returns (state: CircuitState)
      modifies this
      ensures Snapshot() == old(Snapshot()).Enter(Open, now, reason)
      ensures state == Open
    {
      var from := current;
      current := Open;
      lastStateChange := now;
      halfOpenStart := None;
      halfOpenProbesUsed := 0;
      lastTransition := Some(StateTransition(from, Open, reason));
      state := current;
    }

    predicate ShouldAttemptHalfOpen(now: Time)
      reads this
      ensures ShouldAttemptHalfOpen(now) <==> Snapshot().OpenTimeoutReached(halfOpenTimeout, now)
    {
      if current != Open then false else now - lastStateChange >= halfOpenTimeout
    }

    method TryHalfOpen(now: Time) returns (state: CircuitState)
      modifies this
      ensures Snapshot() ==
        if old(current) == Open then old(Snapshot()).Enter(HalfOpen, now, OPEN_TIMEOUT) else old(Snapshot())
      ensures state == current
    {
      if current != Open {
        return current;
      }
      var from := current;
      current := HalfOpen;
      lastStateChange := now;
      halfOpenStart := Some(now);
      halfOpenProbesUsed := 0;
      lastTransition := Some(StateTransition(from, HalfOpen, OPEN_TIMEOUT));
      state := current;
    }

    method AllowProbe() returns (allowed: bool)
      modifies this`halfOpenProbesUsed
      ensures Snapshot() == old(Snapshot()).UseProbeSlot(maxHalfOpenProbes)
      ensures allowed <==> old(Snapshot()).ProbeSlotFree(maxHalfOpenProbes)
    {
      if current != HalfOpen {
        return false;
      }
      if halfOpenProbesUsed < maxHalfOpenProbes {
        halfOpenProbesUsed := halfOpenProbesUsed + 1;
        allowed := true;
      } else {
        allowed := false;
      }
    }

    method RecordProbeSuccess(now: Time) returns (state: CircuitState)
      modifies this
      ensures Snapshot() ==
        if old(current) == HalfOpen then old(Snapshot()).Enter(Closed, now, PROBE_SUCCEEDED) else old(Snapshot())
      ensures state == current
    {
      if current != HalfOpen {
        return current;
      }
      var from := current;
      current := Closed;
      lastStateChange := now;
      halfOpenStart := None;
      halfOpenProbesUsed := 0;
      lastTransition := Some(StateTransition(from, Closed, PROBE_SUCCEEDED));
      state := current;
    }

    method RecordProbeFailure(now: Time) returns (state: CircuitState)
      modifies this
      ensures Snapshot() ==
        if old(current) == HalfOpen then old(Snapshot()).Enter(Open, now, PROBE_FAILED) else old(Snapshot())
      ensures state == current
    {
      if current != HalfOpen {
        return current;
      }
      var from := current;
      current := Open;
      lastStateChange := now;
      halfOpenStart := None;
      halfOpenProbesUsed := 0;
      lastTransition := Some(StateTransition(from, Open, PROBE_FAILED));
      state := current;
    }

    method Reset(now: Time)
      modifies this
      ensures Snapshot() == old(Snapshot()).Enter(Closed, now, MANUAL_RESET)
    {
      var from := current;
      current := Closed;
      lastStateChange := now;
      halfOpenStart := None;
      halfOpenProbesUsed := 0;
      lastTransition := Some(StateTransition(from, Closed, MANUAL_RESET));
    }
  }
}
