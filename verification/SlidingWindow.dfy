/** The sliding event counter of the circuit breaker. */
module SlidingWindows {

  /** A reading of the monotonic clock, in nanoseconds. */
  type Time = int

  function Seconds(n: nat): nat { n * 1_000_000_000 }

  ghost predicate Ordered(s: seq<Time>) {
    forall i, j :: 0 <= i < j < |s| ==> s[i] <= s[j]
  }

  /** How many of these events happened at or after the cutoff. */
  function CountFrom(events: seq<Time>, cutoff: Time): nat {
    if events == [] then 0
    else CountFrom(events[..|events| - 1], cutoff) + if events[|events| - 1] >= cutoff then 1 else 0
  }

  /** Dropping a prefix of stale events does not change the count. */
  lemma {:induction false} CountIgnoresStalePrefix(events: seq<Time>, dropped: nat, cutoff: Time)
    requires dropped <= |events|
    requires forall i :: 0 <= i < dropped ==> events[i] < cutoff
    requires forall i :: dropped <= i < |events| ==> cutoff <= events[i]
    ensures CountFrom(events, cutoff) == |events| - dropped
  {
    if events != [] {
      var front := events[..|events| - 1];
      if dropped < |events| {
        CountIgnoresStalePrefix(front, dropped, cutoff);
      } else {
        CountIgnoresStalePrefix(front, dropped - 1, cutoff);
      }
    }
  }

  class SlidingWindow {
    const windowSecs: nat
    var events: seq<Time>
    /** Everything recorded since the last clear, evicted or not. */
    ghost var history: seq<Time>
    /** How many events of the history have been evicted. */
    ghost var evicted: nat
    /** The latest clock reading this window has seen. */
    ghost var clock: Time

    /** The queue is the history without a prefix of events that are out of the window for good. */
    ghost predicate Valid()
      reads this
    {
      && Ordered(history)
      && (forall i :: 0 <= i < |history| ==> history[i] <= clock)
      && evicted <= |history|
      && events == history[evicted..]
      && forall i :: 0 <= i < evicted ==> history[i] < clock - Seconds(windowSecs)
    }

    constructor (windowSecs: nat, now: Time)
      ensures Valid() && history == [] && clock == now && this.windowSecs == windowSecs
    {
      this.windowSecs := windowSecs;
      events := [];
      history := [];
      evicted := 0;
      clock := now;
    }

    method EvictOld(now: Time)
      requires Valid() && clock <= now
      modifies this`events, this`evicted, this`clock
      ensures Valid() && clock == now
      ensures forall i :: 0 <= i < |events| ==> now - Seconds(windowSecs) <= events[i]
    {
      var cutoff := now - Seconds(windowSecs);
      clock := now;
      while events != [] && events[0] < cutoff
        invariant Valid() && clock == now
        decreases |events|
      {
        assert history[evicted] == events[0] && history[evicted..][1..] == history[evicted + 1..];
        events := events[1..];
        evicted := evicted + 1;
      }
    }

    method Record(now: Time)
      requires Valid() && clock <= now
      modifies this
      ensures Valid() && clock == now
      ensures history == old(history) + [now]
    {
      events := events + [now];
      history := history + [now];
      clock := now;
      EvictOld(now);
    }

    /** Eviction is unobservable: the count is taken over the whole history. */
    method Count(now: Time) returns (n: nat)
      requires Valid() && clock <= now
      modifies this`events, this`evicted, this`clock
      ensures Valid() && clock == now
      ensures n == CountFrom(history, now - Seconds(windowSecs))
    {
      EvictOld(now);
      n := |events|;
      assert forall i :: evicted <= i < |history| ==> history[i] == events[i - evicted];
      CountIgnoresStalePrefix(history, evicted, now - Seconds(windowSecs));
    }

    method IsThresholdReached(threshold: nat, now: Time) returns (reached: bool)
      requires Valid() && clock <= now
      modifies this`events, this`evicted, this`clock
      ensures Valid() && clock == now
      ensures reached <==> CountFrom(history, now - Seconds(windowSecs)) >= threshold
    {
      var n := Count(now);
      reached := n >= threshold;
    }

    method Clear()
      requires Valid()
      modifies this`events, this`history, this`evicted
      ensures Valid() && history == []
    {
      events := [];
      history := [];
      evicted := 0;
    }
  }
}
