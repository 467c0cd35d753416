/**
 * `retry(asyncFn, { maxRetries, delay })`: calls an operation up to
 * `maxRetries` times in all, returns the first result that is not
 * `undefined`, swallows every thrown error and waits `delay` milliseconds
 * after each attempt that produced nothing.
 */
module Retry {
  import opened Wrappers
  import opened Oracle

  /** The options used when the caller gives none. */
  const DefaultMaxRetries: int := 2
  const DefaultDelay: int := 100

  /** The number of attempts a loop `for (i = 0; i < n; i++)` makes when it runs to the end. */
  function Attempts(n: int): nat {
    if n > 0 then n else 0
  }

  /**
   * The index of the first attempt in `[i, n)` that produced a value,
   * where `attempt(k)` is what the `k`-th call of the operation does.
   */
  function FirstValueFrom<T>(attempt: nat -> Answer<T>, i: nat, n: int): (r: Option<nat>)
    ensures r.Some? ==> i <= r.value < n && attempt(r.value).Value?
    decreases n - i
  {
    if i >= n then None
    else if attempt(i).Value? then Some(i)
    else FirstValueFrom(attempt, i + 1, n)
  }

  /** Every attempt before the one `FirstValueFrom` finds failed; when it finds none, all of them failed. */
  lemma {:induction false} FirstValueFromIsFirst<T>(attempt: nat -> Answer<T>, i: nat, n: int)
    ensures var r := FirstValueFrom(attempt, i, n);
      (r.Some? ==> forall j :: i <= j < r.value ==> !attempt(j).Value?) &&
      (r.None? ==> forall j :: i <= j < n ==> !attempt(j).Value?)
    decreases n - i
  {
    if i < n && !attempt(i).Value? {
      FirstValueFromIsFirst(attempt, i + 1, n);
    }
  }

  /** Allowing more attempts changes nothing once an earlier attempt has produced a value. */
  lemma {:induction false} MoreAttemptsKeepFirst<T>(attempt: nat -> Answer<T>, i: nat, n: int, m: int)
    requires n <= m
    requires FirstValueFrom(attempt, i, n).Some?
    ensures FirstValueFrom(attempt, i, m) == FirstValueFrom(attempt, i, n)
    decreases n - i
  {
    if !attempt(i).Value? {
      MoreAttemptsKeepFirst(attempt, i + 1, n, m);
    }
  }

  /**
   * `retry`: `result` is what it resolves to, `calls` the number of times
   * the operation was called (attempts `0 .. calls - 1`, in order) and
   * `waited` the delays it slept, in order.
   */
  method Retry<T>(attempt: nat -> Answer<T>, maxRetries: int, delay: int)
    returns (result: Option<T>, calls: nat, waited: seq<int>)
    ensures match FirstValueFrom(attempt, 0, maxRetries)
      case Some(k) => result == Some(attempt(k).value) && calls == k + 1
      case None => result == None && calls == Attempts(maxRetries)
    ensures calls <= Attempts(maxRetries)
    ensures |waited| == if result.Some? then calls - 1 else calls
    ensures forall w :: w in waited ==> w == delay
  {
    var i := 0;
    waited := [];
    while i < maxRetries
      invariant 0 <= i <= Attempts(maxRetries)
      invariant FirstValueFrom(attempt, 0, maxRetries) == FirstValueFrom(attempt, i, maxRetries)
      invariant |waited| == i && forall w :: w in waited ==> w == delay
    {
      var outcome := attempt(i);
      if outcome.Value? {
        return Some(outcome.value), i + 1, waited;
      }
      waited := waited + [delay];
      i := i + 1;
    }
    return None, i, waited;
  }

  /** `retry` with the default options makes at most two attempts. */
  method RetryWithDefaults<T>(attempt: nat -> Answer<T>) returns (result: Option<T>, calls: nat, waited: seq<int>)
    ensures calls <= 2
    ensures result.Some? <==> attempt(0).Value? || attempt(1).Value?
    ensures result.Some? ==> result == Some(if attempt(0).Value? then attempt(0).value else attempt(1).value)
    ensures forall w :: w in waited ==> w == 100
  {
    result, calls, waited := Retry(attempt, DefaultMaxRetries, DefaultDelay);
  }
}
