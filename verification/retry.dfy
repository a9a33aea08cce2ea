/** `send_with_retry`: up to `MaxRetries` POSTs of the same request, with an
    exponential sleep between consecutive attempts.

    The network is an oracle: a `Responder` gives the outcome of the request's
    n-th attempt (counted from 1). `time.sleep` becomes the trace of sleep
    durations, in seconds, that the run would perform. */
module Retry {

  const MaxRetries: nat := 3
  const RetryBackoff: nat := 2

  /** What one `requests.post` produced: a response with a status code, or a
      `RequestException` (connection error, timeout, ...). */
  datatype Attempt = Status(code: int) | TransportError

  /** The outcome of the request's n-th attempt, n counted from 1. */
  type Responder = nat -> Attempt

  /** A trace of one `send_with_retry` call: whether it returned a response
      (rather than raising), how many POSTs it made, and what it slept. */
  datatype RetryRun = RetryRun(delivered: bool, attempts: nat, sleeps: seq<nat>)

  /** Status 200, 201 or 202. */
  predicate Accepted(a: Attempt)
  {
    a.Status? && (a.code == 200 || a.code == 201 || a.code == 202)
  }

  function Pow(b: nat, e: nat): nat
  {
    if e == 0 then 1 else b * Pow(b, e - 1)
  }

  /** Some attempt numbered `from` to `MaxRetries` is accepted. */
  ghost predicate AcceptedWithin(answer: Responder, from: nat)
  {
    exists a :: from <= a <= MaxRetries && Accepted(answer(a))
  }

  /** The loop of `send_with_retry` from iteration `attempt` on: it stops at
      the first accepted attempt, fails after the last one, and sleeps
      `RetryBackoff ^ attempt` after every failed attempt but the last. */
  function RetryFrom(answer: Responder, attempt: nat): (run: RetryRun)
    requires 1 <= attempt <= MaxRetries
    ensures attempt <= run.attempts <= MaxRetries
    ensures run.delivered <==> AcceptedWithin(answer, attempt)
    ensures run.delivered ==> Accepted(answer(run.attempts))
    ensures !run.delivered ==> run.attempts == MaxRetries
    ensures forall a :: attempt <= a < run.attempts ==> !Accepted(answer(a))
    ensures |run.sleeps| == run.attempts - attempt
    ensures forall i :: 0 <= i < |run.sleeps| ==> run.sleeps[i] == Pow(RetryBackoff, attempt + i)
    decreases MaxRetries - attempt
  {
    if Accepted(answer(attempt)) then RetryRun(true, attempt, [])
    else if attempt < MaxRetries then
      var rest := RetryFrom(answer, attempt + 1);
      RetryRun(rest.delivered, rest.attempts, [Pow(RetryBackoff, attempt)] + rest.sleeps)
    else RetryRun(false, attempt, [])
  }

  /** `send_with_retry`: it returns at the first accepted attempt among the
      first three, otherwise raises after exactly three attempts; it sleeps
      2 s then 4 s, and only between attempts. */
  function SendWithRetry(answer: Responder): (run: RetryRun)
    ensures 1 <= run.attempts <= MaxRetries
    ensures run.delivered <==> AcceptedWithin(answer, 1)
    ensures run.delivered ==> Accepted(answer(run.attempts))
    ensures forall a :: 1 <= a < run.attempts ==> !Accepted(answer(a))
    ensures !run.delivered ==> run.attempts == MaxRetries
    ensures |run.sleeps| == run.attempts - 1
    ensures forall i :: 0 <= i < |run.sleeps| ==> run.sleeps[i] == Pow(RetryBackoff, i + 1)
  {
    RetryFrom(answer, 1)
  }

  /** After `k` rejected attempts and an accepted one, the call succeeds on
      attempt `k + 1` having slept `k` times: 2 s, then 4 s. */
  lemma SuccessAfterFailures(answer: Responder, k: nat)
    requires k < MaxRetries
    requires forall a :: 1 <= a <= k ==> !Accepted(answer(a))
    requires Accepted(answer(k + 1))
    ensures SendWithRetry(answer).delivered
    ensures SendWithRetry(answer).attempts == k + 1
    ensures SendWithRetry(answer).sleeps == [2, 4][..k]
  {
    var run := SendWithRetry(answer);
    assert Pow(RetryBackoff, 1) == 2 && Pow(RetryBackoff, 2) == 4;
    assert forall i :: 0 <= i < k ==> run.sleeps[i] == [2, 4][i];
  }

  /** When all three attempts are rejected the call raises after exactly three
      POSTs, having slept 2 s and 4 s and not after the last attempt. */
  lemma ExhaustedRetries(answer: Responder)
    requires forall a :: 1 <= a <= MaxRetries ==> !Accepted(answer(a))
    ensures !SendWithRetry(answer).delivered
    ensures SendWithRetry(answer).attempts == MaxRetries
    ensures SendWithRetry(answer).sleeps == [2, 4]
  {
    var run := SendWithRetry(answer);
    assert Pow(RetryBackoff, 1) == 2 && Pow(RetryBackoff, 2) == 4;
    assert run.sleeps[0] == 2 && run.sleeps[1] == 4;
  }
}
