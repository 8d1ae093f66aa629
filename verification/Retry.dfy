/** The retrying wrapper around a language model. */
module Retries {
  import opened Options

  datatype LlmError = Llm(message: string) | Timeout(message: string) | Other(message: string)

  /** One inner call, as the timeout sees it. */
  datatype Attempt<T> = Response(value: T) | Failure(error: LlmError) | Elapsed

  predicate IsRetryable(e: LlmError) { e.Llm? || e.Timeout? }

  const U64_LIMIT: nat := 0x1_0000_0000_0000_0000

  function Pow2(n: nat): nat { if n == 0 then 1 else 2 * Pow2(n - 1) }

  /** The delay in milliseconds, while it can be computed in 64 bits. */
  function Backoff(attempt: nat): (ms: Option<nat>)
    ensures ms.Some? ==> 500 <= ms.value <= 30_000
  {
    PowerIsPositive(attempt);
    var ms := 500 * Pow2(attempt);
    if ms >= U64_LIMIT then None else Some(if ms < 30_000 then ms else 30_000)
  }

  /** The delay as a build without overflow checks computes it: power and product wrap around. */
  function WrappingBackoff(attempt: nat): nat {
    var ms := 500 * (Pow2(attempt) % U64_LIMIT) % U64_LIMIT;
    if ms < 30_000 then ms else 30_000
  }

  /** The delay before a retry; with overflow checks there is none beyond 64 bits. */
  function Delay(checked: bool, attempt: nat): Option<nat> {
    if checked then Backoff(attempt) else Some(WrappingBackoff(attempt))
  }

  lemma {:induction false} PowerIsPositive(n: nat)
    ensures Pow2(n) >= 1
  {
    if n > 0 {
      PowerIsPositive(n - 1);
    }
  }

  lemma {:induction false} PowerGrows(a: nat, b: nat)
    requires a <= b
    ensures Pow2(a) <= Pow2(b)
    decreases b
  {
    if a < b {
      PowerGrows(a, b - 1);
    }
  }

  lemma {:induction false} PowerAdds(a: nat, b: nat)
    ensures Pow2(a + b) == Pow2(a) * Pow2(b)
  {
    if b > 0 {
      PowerAdds(a, b - 1);
    }
  }

  lemma PowersNearTheLimit()
    ensures Pow2(5) == 32 && Pow2(6) == 64 && Pow2(55) == 0x80_0000_0000_0000 && Pow2(56) == 0x100_0000_0000_0000
  {
    assert Pow2(5) == 32 by { assert Pow2(3) == 8; }
    assert Pow2(6) == 64;
    assert Pow2(11) == 2048 by { PowerAdds(5, 6); }
    PowerAdds(11, 11);
    PowerAdds(22, 22);
    PowerAdds(44, 11);
  }

  /** The arithmetic fits into 64 bits exactly up to exponent 55. */
  lemma BackoffFits(attempt: nat)
    ensures Backoff(attempt).Some? <==> attempt <= 55
  {
    PowersNearTheLimit();
    if attempt <= 55 {
      PowerGrows(attempt, 55);
    } else {
      PowerGrows(56, attempt);
    }
  }

  /** Delays double up to exponent 5 and stay at the cap from exponent 6 on. */
  lemma BackoffValues(attempt: nat)
    requires attempt <= 55
    ensures Backoff(attempt) == Some(if attempt <= 5 then 500 * Pow2(attempt) else 30_000)
  {
    BackoffFits(attempt);
    PowersNearTheLimit();
    if attempt <= 5 {
      PowerGrows(attempt, 5);
    } else {
      PowerGrows(6, attempt);
    }
  }

  lemma WrappedPowers()
    ensures forall a :: 56 <= a <= 61 ==> 500 * Pow2(a) % U64_LIMIT >= 30_000 && Pow2(a) < U64_LIMIT
    ensures 500 * Pow2(62) % U64_LIMIT == 500 * Pow2(63) % U64_LIMIT == 0
    ensures Pow2(62) < Pow2(63) < Pow2(64) == U64_LIMIT
  {
    PowersNearTheLimit();
    assert Pow2(57) == 2 * Pow2(56);
    assert Pow2(58) == 2 * Pow2(57);
    assert Pow2(59) == 2 * Pow2(58);
    assert Pow2(60) == 2 * Pow2(59);
    assert Pow2(61) == 2 * Pow2(60);
    assert Pow2(62) == 2 * Pow2(61);
    assert Pow2(63) == 2 * Pow2(62);
    assert Pow2(64) == 2 * Pow2(63);
  }

  lemma MultipleVanishes(k: nat)
    ensures U64_LIMIT * k % U64_LIMIT == 0
  {}

  lemma MiddlePowersCapped(attempt: nat)
    requires 56 <= attempt <= 61
    ensures WrappingBackoff(attempt) == 30_000
  {
    WrappedPowers();
    assert Pow2(attempt) % U64_LIMIT == Pow2(attempt);
    assert 500 * Pow2(attempt) % U64_LIMIT >= 30_000;
  }

  lemma LargePowersWrap(attempt: nat)
    requires attempt >= 64
    ensures Pow2(attempt) % U64_LIMIT == 0
  {
    WrappedPowers();
    PowerAdds(64, attempt - 64);
    MultipleVanishes(Pow2(attempt - 64));
  }

  lemma PowersVanish(attempt: nat)
    requires attempt >= 62
    ensures WrappingBackoff(attempt) == 0
  {
    if attempt >= 64 {
      LargePowersWrap(attempt);
    } else {
      WrappedPowers();
    }
  }

  lemma SmallPowersFit(attempt: nat)
    requires attempt <= 55
    ensures Backoff(attempt) == Some(WrappingBackoff(attempt))
  {
    BackoffFits(attempt);
    assert Pow2(attempt) % U64_LIMIT == Pow2(attempt);
  }

  /** Without overflow checks, the delay stays at the cap up to exponent 61, and from exponent 62 on there is none. */
  lemma WrappingBackoffValues(attempt: nat)
    ensures WrappingBackoff(attempt) ==
      if attempt <= 5 then 500 * Pow2(attempt) else if attempt <= 61 then 30_000 else 0
  {
    if attempt <= 55 {
      SmallPowersFit(attempt);
      BackoffValues(attempt);
    } else if attempt <= 61 {
      MiddlePowersCapped(attempt);
    } else {
      PowersVanish(attempt);
    }
  }

  lemma DelayGiven(checked: bool, attempt: nat)
    ensures Delay(checked, attempt).Some? <==> !checked || attempt <= 55
  {
    BackoffFits(attempt);
  }

  /** Sum of the first n delays. */
  function TotalDelay(checked: bool, n: nat): nat
    requires checked ==> n <= 56
  {
    if n == 0 then 0
    else
      DelayGiven(checked, n - 1);
      TotalDelay(checked, n - 1) + Delay(checked, n - 1).value
  }

  /** The time slept before the last of n + 1 attempts, summed up. */
  lemma {:induction false} TotalDelayInClosedForm(checked: bool, n: nat)
    requires checked ==> n <= 56
    ensures TotalDelay(checked, n) ==
      if n <= 6 then 500 * (Pow2(n) - 1) else if n <= 62 then 31_500 + 30_000 * (n - 6) else 1_711_500
  {
    if n > 0 {
      TotalDelayInClosedForm(checked, n - 1);
      DelayInClosedForm(checked, n - 1);
      PowersNearTheLimit();
    }
  }

  lemma DelayInClosedForm(checked: bool, attempt: nat)
    requires checked ==> attempt <= 55
    ensures Delay(checked, attempt) ==
      Some(if attempt <= 5 then 500 * Pow2(attempt) else if attempt <= 61 then 30_000 else 0)
  {
    if checked {
      BackoffValues(attempt);
    } else {
      WrappingBackoffValues(attempt);
    }
  }

  /** An attempt that another attempt may follow. */
  predicate Transient<T>(a: Attempt<T>) {
    a.Elapsed? || (a.Failure? && IsRetryable(a.error))
  }

  /** What the caller gets when this attempt is the last one made. */
  function Surface<T>(a: Attempt<T>): Result<T, LlmError> {
    match a
    case Response(v) => Ok(v)
    case Failure(e) => Err(e)
    case Elapsed => Err(Timeout("retry: all attempts exhausted"))
  }

  /** Which outcomes are tried again: no answer in time, and errors of the model or of a timeout; nothing else. */
  lemma TriedAgainExactly<T>(a: Attempt<T>)
    ensures Transient(a) <==>
      match a
      case Elapsed => true
      case Failure(Llm(_)) => true
      case Failure(Timeout(_)) => true
      case Failure(Other(_)) => false
      case Response(_) => false
    ensures Surface(a).Ok? <==> a.Response?
    ensures a.Response? ==> Surface(a) == Ok(a.value)
    ensures a.Failure? ==> Surface(a) == Err(a.error)
    ensures a.Elapsed? ==> Surface(a).error.Timeout?
  {}

  /** How a call ends: with an answer, or because a delay does not fit into 64 bits. */
  datatype Outcome<T> = Returned(result: Result<T, LlmError>) | Overflowed

  /** The first attempt that is not transient, or the last one allowed, decides; the error kept for after the loop
      is never used. With overflow checks a 57th retry overflows; without them nothing stops the retries. */
  method Invoke<T>(attempts: nat -> Attempt<T>, maxRetries: nat, checked: bool)
    returns (outcome: Outcome<T>, calls: nat, sleptMs: nat)
    ensures 1 <= calls <= maxRetries + 1 && (checked ==> calls <= 57)
    ensures forall i :: 0 <= i < calls - 1 ==> Transient(attempts(i))
    ensures sleptMs == TotalDelay(checked, calls - 1)
    ensures match outcome
      case Returned(r) => r == Surface(attempts(calls - 1))
          && (calls == maxRetries + 1 || !Transient(attempts(calls - 1)))
      case Overflowed => checked && calls == 57 <= maxRetries && Transient(attempts(calls - 1))
  {
    calls, sleptMs := 0, 0;
    for attempt := 0 to maxRetries + 1
      invariant calls == attempt <= maxRetries && (checked ==> calls <= 57)
      invariant forall i :: 0 <= i < attempt ==> Transient(attempts(i))
      invariant sleptMs == if attempt == 0 then 0 else TotalDelay(checked, attempt - 1)
    {
      if attempt > 0 {
        DelayGiven(checked, attempt - 1);
        var delay := Delay(checked, attempt - 1);
        if delay.None? {
          return Overflowed, calls, sleptMs;
        }
        sleptMs := sleptMs + delay.value;
      }
      calls := calls + 1;
      match attempts(attempt) {
        case Response(v) =>
          return Returned(Ok(v)), calls, sleptMs;
        case Failure(e) =>
          if !IsRetryable(e) || attempt == maxRetries {
            return Returned(Err(e)), calls, sleptMs;
          }
        case Elapsed =>
          if attempt == maxRetries {
            return Returned(Err(Timeout("retry: all attempts exhausted"))), calls, sleptMs;
          }
      }
    }
    // No way leads here: the loop always returns.
    assert false;
  }
}
