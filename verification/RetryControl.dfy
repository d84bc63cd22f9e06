/** Bounded exponential backoff (cdc_retry_controller.cpp). */
module RetryControl {
  import opened Basics
  import opened SessionClient

  datatype RetryDecision =
    | NoRetry
    | Wait
    | Ready
    | Exhausted
    | RenegotiateSession
    | NoMediaAvailable

  function SaturatingAdd(left: U64, right: U64): (sum: U64)
    ensures sum == Min(left + right, MAX_U64)
  {
    if right > MAX_U64 - left then MAX_U64 else left + right
  }

  /** The delay before the retry with this index: doubled each time, never above maximum. */
  function Backoff(initial: int, maximum: int, retryIndex: nat): int {
    Min(initial * Power2(retryIndex), maximum)
  }

  lemma ProductAtLeast(a: int, b: int)
    requires a >= 1 && b >= 1
    ensures a * b >= a
  {}

  lemma {:induction false} BackoffCapped(initial: int, maximum: int, k: nat, more: nat)
    requires 1 <= initial
    requires initial * Power2(k) >= maximum
    ensures Backoff(initial, maximum, k + more) == maximum
  {
    if more > 0 {
      BackoffCapped(initial, maximum, k, more - 1);
      var p := Power2(k + more - 1);
      assert initial * (2 * p) == initial * p + initial * p;
    }
  }

  /** The doubling loop: no step overflows 64 bits, and the result is min(maximum, initial * 2^index). */
  method BoundedBackoff(initial: U64, maximum: U64, retryIndex: nat) returns (delay: U64)
    requires 1 <= initial
    ensures delay == Backoff(initial, maximum, retryIndex)
  {
    delay := initial;
    var remaining := retryIndex;
    ghost var k := 0;
    while remaining != 0 && delay < maximum
      invariant k + remaining == retryIndex
      invariant delay == initial * Power2(k) || (delay == maximum && Backoff(initial, maximum, k) == maximum)
      invariant initial * Power2(k) >= maximum || delay == initial * Power2(k)
      decreases remaining
    {
      assert initial * Power2(k + 1) == 2 * (initial * Power2(k));
      delay := if delay > maximum - delay then maximum else delay * 2;
      remaining := remaining - 1;
      k := k + 1;
    }
    if remaining != 0 {
      BackoffCapped(initial, maximum, k, remaining);
    }
    delay := if delay > maximum then maximum else delay;
  }

  datatype Retry = Retry(
    maximumRetries: nat,
    initialBackoff: U64,
    maximumBackoff: U64,
    scheduled: nat,
    retryAt: U64,
    waiting: bool)
  {
    predicate Valid() { 1 <= initialBackoff <= maximumBackoff }

    function Delay(index: nat): (d: U64)
      requires Valid()
      ensures 1 <= d <= maximumBackoff
    {
      ProductAtLeast(initialBackoff, Power2(index));
      Backoff(initialBackoff, maximumBackoff, index)
    }

    function RecordFailure(advice: RetryAdvice, now: U64): (Retry, RetryDecision)
      requires Valid()
    {
      var idle := this.(waiting := false, retryAt := 0);
      match advice
      case Renegotiate => (idle, RenegotiateSession)
      case MediaUnavailable => (idle, NoMediaAvailable)
      case DoNotRetry => (idle, NoRetry)
      case RetrySameSession =>
        if scheduled >= maximumRetries then (idle, Exhausted)
        else
          (this.(scheduled := scheduled + 1, retryAt := SaturatingAdd(now, Delay(scheduled)), waiting := true), Wait)
    }

    function Poll(now: U64): RetryDecision {
      if !waiting then NoRetry else if now < retryAt then Wait else Ready
    }

    function ConsumeRetry(now: U64): (Retry, bool) {
      if Poll(now) != Ready then (this, false) else (this.(waiting := false, retryAt := 0), true)
    }

    function RecordSuccess(): Retry { this.(scheduled := 0, waiting := false, retryAt := 0) }
  }

  function NewRetry(maximumRetries: nat, initialBackoff: U64, maximumBackoff: U64): (r: Retry)
    ensures r.Valid()
  {
    var initial := if initialBackoff == 0 then 1 else initialBackoff;
    Retry(maximumRetries, initial, if maximumBackoff < initial then initial else maximumBackoff, 0, 0, false)
  }

  class CdcRetryController {
    const maximumRetries: nat
    const initialBackoff: U64
    const maximumBackoff: U64
    var retriesScheduled: nat
    var retryAt: U64
    var waiting: bool

    ghost function State(): Retry
      reads this
    {
      Retry(maximumRetries, initialBackoff, maximumBackoff, retriesScheduled, retryAt, waiting)
    }

    constructor (maximumRetries: nat, initialBackoff: U64, maximumBackoff: U64)
      ensures State() == NewRetry(maximumRetries, initialBackoff, maximumBackoff)
    {
      this.maximumRetries := maximumRetries;
      var initial := if initialBackoff == 0 then 1 else initialBackoff;
      this.initialBackoff := initial;
      this.maximumBackoff := if maximumBackoff < initial then initial else maximumBackoff;
      retriesScheduled, retryAt, waiting := 0, 0, false;
    }

    method RecordFailure(advice: RetryAdvice, now: U64) returns (decision: RetryDecision)
      requires State().Valid()
      modifies this
      ensures (State(), decision) == old(State()).RecordFailure(advice, now)
    {
      waiting := false;
      retryAt := 0;
      if advice == Renegotiate {
        return RenegotiateSession;
      }
      if advice == MediaUnavailable {
        return NoMediaAvailable;
      }
      if advice != RetrySameSession {
        return NoRetry;
      }
      if retriesScheduled >= maximumRetries {
        return Exhausted;
      }
      var delay := BoundedBackoff(initialBackoff, maximumBackoff, retriesScheduled);
      retriesScheduled := retriesScheduled + 1;
      retryAt := SaturatingAdd(now, delay);
      waiting := true;
      return Wait;
    }

    function Poll(now: U64): (decision: RetryDecision)
      reads this
      ensures decision == State().Poll(now)
    {
      if !waiting then NoRetry else if now < retryAt then Wait else Ready
    }

    method ConsumeRetry(now: U64) returns (consumed: bool)
      modifies this
      ensures (State(), consumed) == old(State()).ConsumeRetry(now)
    {
      if Poll(now) != Ready {
        return false;
      }
      waiting := false;
      retryAt := 0;
      return true;
    }

    method RecordSuccess()
      modifies this
      ensures State() == old(State()).RecordSuccess()
    {
      retriesScheduled := 0;
      waiting := false;
      retryAt := 0;
    }
  }
}
