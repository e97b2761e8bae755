/**
 * The `retry_on_failure` decorator: call the wrapped function up to `max_retries`
 * times, sleeping `delay` seconds after each call that raised except the last one,
 * return the first value a call returns, and None once every call has raised.
 * Sleeping is modelled by returning the list of sleep durations.
 */
module Retry {
  import opened Wrappers

  const MaxRetries: int := 3
  const RetryDelay: real := 5.0

  /** What one call of the wrapped function does: return a value, or raise. */
  datatype Attempt<T> = Returns(value: T) | Raises

  /**
   * What a decorated call amounts to: the wrapper's result (None where the wrapper
   * itself returns None after giving up), how many calls were made and how many sleeps.
   */
  datatype Trace<T> = Trace(result: Option<T>, calls: nat, sleeps: nat)

  function RetryFrom<T>(maxRetries: int, call: nat -> Attempt<T>, attempt: nat): Trace<T>
    requires attempt < maxRetries
    decreases maxRetries - attempt
  {
    match call(attempt)
    case Returns(v) => Trace(Some(v), attempt + 1, attempt)
    case Raises =>
      if attempt < maxRetries - 1 then RetryFrom(maxRetries, call, attempt + 1)
      else Trace(None, maxRetries, maxRetries - 1)
  }

  /** The run of `retry_on_failure(max_retries)` around a function whose i-th call does `call(i)`. */
  function RetryRun<T>(maxRetries: int, call: nat -> Attempt<T>): (t: Trace<T>)
    ensures t.calls <= (if maxRetries > 0 then maxRetries else 0)
    ensures t.sleeps == (if t.calls > 0 then t.calls - 1 else 0)
  {
    if maxRetries <= 0 then Trace(None, 0, 0)
    else
      RetryFromShape(maxRetries, call, 0);
      RetryFrom(maxRetries, call, 0)
  }

  lemma {:induction false} RetryFromShape<T>(maxRetries: int, call: nat -> Attempt<T>, attempt: nat)
    requires attempt < maxRetries
    ensures var t := RetryFrom(maxRetries, call, attempt);
      && attempt < t.calls <= maxRetries
      && t.sleeps == t.calls - 1
      && (forall j :: attempt <= j < t.calls - 1 ==> call(j).Raises?)
      && (t.result.Some? ==> call(t.calls - 1) == Returns(t.result.value))
      && (t.result.None? <==> (forall j :: attempt <= j < maxRetries ==> call(j).Raises?))
      && (t.result.None? ==> t.calls == maxRetries)
    decreases maxRetries - attempt
  {
    if call(attempt).Raises? && attempt < maxRetries - 1 {
      RetryFromShape(maxRetries, call, attempt + 1);
    }
  }

  /**
   * At most `max_retries` calls; the wrapper returns the value of the first call
   * that does not raise, unchanged (whatever it is, None included), with one sleep
   * per earlier call.
   */
  lemma RetryReturnsFirstValue<T>(maxRetries: int, call: nat -> Attempt<T>)
    ensures var t := RetryRun(maxRetries, call);
      && t.calls <= (if maxRetries > 0 then maxRetries else 0)
      && (t.result.Some? ==>
            && t.calls > 0
            && call(t.calls - 1) == Returns(t.result.value)
            && (forall j :: 0 <= j < t.calls - 1 ==> call(j).Raises?)
            && t.sleeps == t.calls - 1)
  {
    if maxRetries > 0 { RetryFromShape(maxRetries, call, 0); }
  }

  /** The wrapper gives up (returns None) exactly when every one of the `max_retries` calls raises; it then slept `max_retries - 1` times. */
  lemma RetryGivesUp<T>(maxRetries: int, call: nat -> Attempt<T>)
    ensures var t := RetryRun(maxRetries, call);
      && (t.result.None? <==> forall j :: 0 <= j < maxRetries ==> call(j).Raises?)
      && (t.result.None? ==>
            t.calls == (if maxRetries > 0 then maxRetries else 0) && t.sleeps == (if maxRetries > 0 then maxRetries - 1 else 0))
  {
    if maxRetries > 0 { RetryFromShape(maxRetries, call, 0); }
  }

  /** `retry_on_failure(max_retries, delay)` applied to a function whose i-th call does `call(i)`. */
  method RetryOnFailure<T>(maxRetries: int, delay: real, call: nat -> Attempt<T>)
    returns (r: Option<T>, calls: nat, slept: seq<real>)
    ensures Trace(r, calls, |slept|) == RetryRun(maxRetries, call)
    ensures forall i :: 0 <= i < |slept| ==> slept[i] == delay
  {
    r, calls, slept := None, 0, [];
    var attempt: nat := 0;
    while attempt < maxRetries
      invariant if maxRetries > 0 then attempt < maxRetries else attempt == 0
      invariant attempt < maxRetries ==> RetryRun(maxRetries, call) == RetryFrom(maxRetries, call, attempt)
      invariant calls == attempt && |slept| == attempt
      invariant forall i :: 0 <= i < |slept| ==> slept[i] == delay
      decreases maxRetries - attempt
    {
      calls := calls + 1;
      if call(attempt).Returns? {
        r := Some(call(attempt).value);
        return;
      }
      if attempt == maxRetries - 1 {
        // the last attempt raised: give up with None
        return;
      }
      slept := slept + [delay];
      attempt := attempt + 1;
    }
  }
}
