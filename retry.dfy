/** The bounded retry shared by `parse_url`, `openai_chat` and
    `openai_audio` (podcast.py:96-108, 181-209, 211-239): try the request;
    on any exception, if `retry_count > 0` call again with `retry_count - 1`,
    otherwise re-raise that exception.

    The network is an oracle `attempt: nat -> Outcome<T>`: `attempt(k)` is
    what the k-th try of this one call (counting from 0) would get back. */
module Retry {

  /** What an HTTP request can fail with. Every kind is caught by the
      source's `except Exception` and therefore retried, including a reply
      whose JSON lacks the expected fields. */
  datatype NetError =
    | Timeout
    | ConnectionFailed
    | HttpStatus(code: int)
    | MalformedReply

  datatype Outcome<T> = Success(value: T) | Failure(error: NetError)

  /** `retry_count=3`, the default of all three call sites. */
  const DefaultRetries: int := 3

  /** What one call returns or raises, and how many tries it made. */
  datatype Call<T> = Call(outcome: Outcome<T>, tries: nat)

  /** Number of retries left when `retryCount` is passed: Python's
      `retry_count > 0` treats a negative count like zero. */
  function Budget(retryCount: int): nat {
    if retryCount > 0 then retryCount else 0
  }

  /** The recursion of the source, entered at try number `k` with
      `retryCount` retries left. */
  function RetryFrom<T>(attempt: nat -> Outcome<T>, retryCount: int, k: nat): (c: Call<T>)
    ensures k < c.tries <= k + Budget(retryCount) + 1
    ensures c.outcome == attempt(c.tries - 1)
    ensures forall j :: k <= j < c.tries - 1 ==> attempt(j).Failure?
    ensures c.outcome.Failure? ==> c.tries == k + Budget(retryCount) + 1
    decreases Budget(retryCount)
  {
    match attempt(k)
    case Success(_) => Call(attempt(k), k + 1)
    case Failure(_) =>
      if retryCount > 0 then RetryFrom(attempt, retryCount - 1, k + 1)
      else Call(attempt(k), k + 1)
  }

  /** A call with `retryCount` retries, started at the first try: at most
      `retryCount + 1` tries, and what it returns is what its last try got. */
  function RetryCall<T>(attempt: nat -> Outcome<T>, retryCount: int): (c: Call<T>)
    ensures 0 < c.tries <= Budget(retryCount) + 1 && c.outcome == attempt(c.tries - 1)
  {
    RetryFrom(attempt, retryCount, 0)
  }

  /** Tries stop at the first success: the call returns exactly the value of
      the first try that succeeded, provided that try is within the budget. */
  lemma {:induction false} FirstSuccessWins<T>(attempt: nat -> Outcome<T>, retryCount: int, k: nat, s: nat)
    requires k <= s <= k + Budget(retryCount)
    requires attempt(s).Success?
    requires forall j :: k <= j < s ==> attempt(j).Failure?
    ensures RetryFrom(attempt, retryCount, k) == Call(attempt(s), s + 1)
    decreases Budget(retryCount)
  {
    if s > k {
      assert attempt(k).Failure?;
      FirstSuccessWins(attempt, retryCount - 1, k + 1, s);
    }
  }

  /** When every try within the budget fails, exactly `budget + 1` tries
      are made and the error of the last one is what propagates. */
  lemma {:induction false} ExhaustedRaisesLast<T>(attempt: nat -> Outcome<T>, retryCount: int, k: nat)
    requires forall j :: k <= j <= k + Budget(retryCount) ==> attempt(j).Failure?
    ensures var c := RetryFrom(attempt, retryCount, k);
      c.tries == k + Budget(retryCount) + 1
      && c.outcome == Failure(attempt(k + Budget(retryCount)).error)
    decreases Budget(retryCount)
  {
    assert attempt(k).Failure?;
    if retryCount > 0 {
      ExhaustedRaisesLast(attempt, retryCount - 1, k + 1);
    }
  }

  /** Both directions at once, for a call from the start: it succeeds iff
      some try within the budget succeeds; on success its value is the
      first success; on failure every one of the `budget + 1` tries failed. */
  lemma RetryCallSummary<T>(attempt: nat -> Outcome<T>, retryCount: int)
    ensures var c := RetryCall(attempt, retryCount);
      (c.outcome.Success? <==> exists j :: 0 <= j <= Budget(retryCount) && attempt(j).Success?)
      && (c.outcome.Failure? ==> c.tries == Budget(retryCount) + 1
                                 && c.outcome == attempt(Budget(retryCount)))
  {
    var c := RetryCall(attempt, retryCount);
    if c.outcome.Failure? {
      assert forall j :: 0 <= j <= Budget(retryCount) ==> attempt(j).Failure?;
    }
  }

  /** The two-failures-then-success scenario with the default budget: three
      tries, and the third try's value is returned with no error. */
  lemma TwoFailuresThenSuccess<T>(attempt: nat -> Outcome<T>)
    requires attempt(0).Failure? && attempt(1).Failure? && attempt(2).Success?
    ensures RetryCall(attempt, DefaultRetries) == Call(attempt(2), 3)
  {
    FirstSuccessWins(attempt, DefaultRetries, 0, 2);
  }

  /** With the default budget a call that keeps failing makes four tries. */
  lemma AlwaysFailingMakesFourTries<T>(attempt: nat -> Outcome<T>)
    requires forall j :: 0 <= j <= 3 ==> attempt(j).Failure?
    ensures RetryCall(attempt, DefaultRetries).tries == 4
    ensures RetryCall(attempt, DefaultRetries).outcome == attempt(3)
  {
    ExhaustedRaisesLast(attempt, DefaultRetries, 0);
  }
}
