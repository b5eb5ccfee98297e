/** The retry loop that every Gmail call runs inside. */
module RetryEngine {
  import opened Errors
  import opened Decimal
  import opened Backoff
  import Seqs

  /** What the world does on one pass of the loop: the token bucket, the call, the clock, the context. */
  datatype Attempt = Attempt(waitErr: Option<Err>, reply: Option<Err>, now: int, cancelled: bool)

  type Script = nat -> Attempt

  /** How a retried call went: calls made, delays waited for, and the error handed back. */
  datatype Outcome = Outcome(calls: nat, delays: seq<int>, err: Option<Err>)

  // ---------------------------------------------------------------- retryable errors

  predicate RetryableCode(code: int) {
    code == 429 || 500 <= code < 600
  }

  predicate IsRetryable(e: Err) {
    AsApi(e).Some? && RetryableCode(AsApi(e).value.code)
  }

  /** Wraps around an error hide nothing: it is retried exactly for status 429 and the five hundreds. */
  lemma {:induction false} RetryableExactly(wraps: seq<string>, code: int, retryAfter: string, text: string)
    ensures IsRetryable(WrapAll(wraps, Api(ApiError(code, retryAfter, text)))) <==> code == 429 || code / 100 == 5
    ensures !IsRetryable(WrapAll(wraps, Plain(text)))
  {
    if wraps != [] {
      RetryableExactly(wraps[1..], code, retryAfter, text);
    }
  }

  // ---------------------------------------------------------------- the loop

  /** All the loop needs to know of a limiter. */
  datatype Policy = Policy(maxRetries: int, backoff: (nat, Err, int) -> int)

  function PolicyOf(l: Limiter): Policy {
    Policy(l.maxRetries, (attempt: nat, e: Err, now: int) => CalculateBackoff(l, attempt, e, now))
  }

  function IntText(n: int): string {
    if n < 0 then "-" + Print(-n) else Print(n)
  }

  /** With maxRetries below zero no call is made, and there is no cause to wrap. */
  function Exhausted(maxRetries: int, last: Option<Err>): Err {
    var message := "max retries (" + IntText(maxRetries) + ") exceeded";
    match last
    case None => Plain(message + ": %!w(<nil>)")
    case Some(e) => Wrapped(message, e)
  }

  /** An outcome preceded by calls and delays already spent. */
  function After(calls: nat, delays: seq<int>, rest: Outcome): Outcome {
    Outcome(calls + rest.calls, delays + rest.delays, rest.err)
  }

  /** The retry discipline from a given attempt on. */
  function RunFrom(p: Policy, script: Script, attempt: nat): Outcome
    decreases p.maxRetries - attempt
  {
    if attempt > p.maxRetries then Outcome(0, [], Some(Exhausted(p.maxRetries, None)))
    else
      var a := script(attempt);
      if a.waitErr.Some? then Outcome(0, [], Some(Wrapped("rate limiter wait failed", a.waitErr.value)))
      else if a.reply.None? then Outcome(1, [], None)
      else if !IsRetryable(a.reply.value) then Outcome(1, [], a.reply)
      else if attempt == p.maxRetries then Outcome(1, [], Some(Exhausted(p.maxRetries, a.reply)))
      else
        var delay := p.backoff(attempt, a.reply.value, a.now);
        if a.cancelled then Outcome(1, [delay], Some(CONTEXT_CANCELED))
        else After(1, [delay], RunFrom(p, script, attempt + 1))
  }

  function Run(l: Limiter, script: Script): Outcome {
    RunFrom(PolicyOf(l), script, 0)
  }

  method DoWithOp(p: Policy, script: Script) returns (calls: nat, delays: seq<int>, err: Option<Err>)
    ensures Outcome(calls, delays, err) == RunFrom(p, script, 0)
  {
    var lastErr: Option<Err> := None;
    calls, delays := 0, [];
    var attempt := 0;
    while attempt <= p.maxRetries
      invariant 0 <= attempt
      invariant attempt > 0 ==> attempt <= p.maxRetries
      invariant lastErr.None? <==> attempt == 0
      invariant RunFrom(p, script, 0) == After(calls, delays, RunFrom(p, script, attempt))
      decreases p.maxRetries - attempt
    {
      var a := script(attempt);
      ghost var here := RunFrom(p, script, attempt);
      assert delays + [] == delays;
      if a.waitErr.Some? {
        return calls, delays, Some(Wrapped("rate limiter wait failed", a.waitErr.value));
      }
      calls := calls + 1;
      if a.reply.None? {
        return calls, delays, None;
      }
      lastErr := a.reply;
      if !IsRetryable(a.reply.value) {
        return calls, delays, a.reply;
      }
      if attempt == p.maxRetries {
        break;
      }
      var delay := p.backoff(attempt, a.reply.value, a.now);
      ghost var rest := RunFrom(p, script, attempt + 1).delays;
      assert delays + ([delay] + rest) == delays + [delay] + rest;
      delays := delays + [delay];
      if a.cancelled {
        return calls, delays, Some(CONTEXT_CANCELED);
      }
      attempt := attempt + 1;
    }
    err := Some(Exhausted(p.maxRetries, lastErr));
  }

  // ---------------------------------------------------------------- what the loop guarantees

  predicate AllRetryable(script: Script, from: nat, to: int) {
    forall k | from <= k < to :: script(k).reply.Some? && IsRetryable(script(k).reply.value)
  }

  /** The reply of the last call made by a run that starts at a given attempt. */
  function LastReply(script: Script, from: nat, o: Outcome): Option<Err>
    requires o.calls > 0
  {
    script(from + o.calls - 1).reply
  }

  /** The contract of a run from a given attempt; `RetryContract` is the case of a whole run. */
  lemma {:induction false} RunFromContract(p: Policy, script: Script, from: nat)
    ensures
      var o := RunFrom(p, script, from);
      && o.calls <= (if from <= p.maxRetries then p.maxRetries + 1 - from else 0)
      && |o.delays| <= (if from <= p.maxRetries then p.maxRetries - from else 0)
      && AllRetryable(script, from, from + o.calls - 1)
      && (o.err.None? <==> o.calls > 0 && LastReply(script, from, o).None?)
      && (o.err.Some? && o.err.value.Api? ==> o.calls > 0 && o.err == LastReply(script, from, o))
      && (o.calls > 0 && LastReply(script, from, o).Some? && !IsRetryable(LastReply(script, from, o).value)
          ==> o.err == LastReply(script, from, o))
    decreases p.maxRetries - from
  {
    if from <= p.maxRetries {
      RunFromContract(p, script, from + 1);
    }
  }

  /**
   * At most maxRetries + 1 calls; every call but the last failed in a way that may be retried;
   * the run succeeds exactly when its last call did; an error that may not be retried comes back
   * as it is; and an API error comes back bare only when the last call failed with that very error.
   */
  lemma RetryContract(l: Limiter, script: Script)
    ensures
      var o := Run(l, script);
      && o.calls <= (if l.maxRetries >= 0 then l.maxRetries + 1 else 0)
      && AllRetryable(script, 0, o.calls - 1)
      && (o.err.None? <==> o.calls > 0 && LastReply(script, 0, o).None?)
      && (o.calls > 0 && LastReply(script, 0, o).Some? && !IsRetryable(LastReply(script, 0, o).value)
          ==> o.err == LastReply(script, 0, o))
      && (o.err.Some? && o.err.value.Api? ==> o.calls > 0 && o.err == LastReply(script, 0, o))
  {
    RunFromContract(PolicyOf(l), script, 0);
  }

  // ---------------------------------------------------------------- where a run stops

  /** The attempt fails in a way that is retried, and the wait before the next one is not cancelled. */
  predicate GoesOn(maxRetries: int, script: Script, k: nat) {
    var a := script(k);
    && a.waitErr.None? && a.reply.Some? && IsRetryable(a.reply.value)
    && k < maxRetries && !a.cancelled
  }

  /** The delays of the attempts before k, and of k itself if the wait after it was cancelled. */
  function DelaysUpTo(p: Policy, script: Script, from: nat, k: nat): seq<int>
    requires from <= k
    requires forall i: nat | from <= i < k :: GoesOn(p.maxRetries, script, i)
    decreases k - from
  {
    if from == k then []
    else
      assert GoesOn(p.maxRetries, script, from);
      [p.backoff(from, script(from).reply.value, script(from).now)] + DelaysUpTo(p, script, from + 1, k)
  }

  /** What the attempt at which a run stops adds to it. */
  function LastAttempt(p: Policy, script: Script, k: nat): Outcome {
    var a := script(k);
    if a.waitErr.Some? then Outcome(0, [], Some(Wrapped("rate limiter wait failed", a.waitErr.value)))
    else if a.reply.None? then Outcome(1, [], None)
    else if !IsRetryable(a.reply.value) then Outcome(1, [], a.reply)
    else if k == p.maxRetries then
      Outcome(1, [], Some(Wrapped("max retries (" + IntText(p.maxRetries) + ") exceeded", a.reply.value)))
    else Outcome(1, [p.backoff(k, a.reply.value, a.now)], Some(CONTEXT_CANCELED))
  }

  lemma {:induction false} RunStopsFrom(p: Policy, script: Script, from: nat, k: nat)
    requires from <= k <= p.maxRetries && !GoesOn(p.maxRetries, script, k)
    requires forall i: nat | from <= i < k :: GoesOn(p.maxRetries, script, i)
    ensures RunFrom(p, script, from)
         == Outcome(k - from + LastAttempt(p, script, k).calls,
                    DelaysUpTo(p, script, from, k) + LastAttempt(p, script, k).delays,
                    LastAttempt(p, script, k).err)
    decreases k - from
  {
    hide IsRetryable;
    if from < k {
      assert GoesOn(p.maxRetries, script, from);
      RunStopsFrom(p, script, from + 1, k);
      Seqs.JoinThree([p.backoff(from, script(from).reply.value, script(from).now)],
                     DelaysUpTo(p, script, from + 1, k), LastAttempt(p, script, k).delays);
    } else {
      Seqs.JoinNothing(LastAttempt(p, script, k).delays);
    }
  }

  /**
   * A run goes on through every attempt that fails in a way that is retried, sleeping its backoff, and stops
   * at the first other one: with its success, its error as it is, the error of the token bucket, the
   * cancellation, or its error behind the message that the retries are used up.
   */
  lemma RunStopsAt(p: Policy, script: Script, k: nat)
    requires k <= p.maxRetries && !GoesOn(p.maxRetries, script, k)
    requires forall i: nat | i < k :: GoesOn(p.maxRetries, script, i)
    ensures RunFrom(p, script, 0)
         == Outcome(k + LastAttempt(p, script, k).calls,
                    DelaysUpTo(p, script, 0, k) + LastAttempt(p, script, k).delays,
                    LastAttempt(p, script, k).err)
  {
    RunStopsFrom(p, script, 0, k);
  }

  /** Some attempt is the first at which a run stops, if there is any. */
  lemma {:induction false} SomeAttemptStops(maxRetries: int, script: Script, from: nat) returns (k: nat)
    requires from <= maxRetries
    ensures from <= k <= maxRetries && !GoesOn(maxRetries, script, k)
    ensures forall i: nat | from <= i < k :: GoesOn(maxRetries, script, i)
    decreases maxRetries - from
  {
    if GoesOn(maxRetries, script, from) {
      k := SomeAttemptStops(maxRetries, script, from + 1);
    } else {
      k := from;
    }
  }

  // ---------------------------------------------------------------- how long a run sleeps

  /** The i-th delay of a run is the backoff computed for the i-th reply. */
  lemma {:induction false} DelayOfRun(p: Policy, script: Script, from: nat, i: nat)
    requires i < |RunFrom(p, script, from).delays|
    ensures
      && script(from + i).reply.Some?
      && RunFrom(p, script, from).delays[i] == p.backoff(from + i, script(from + i).reply.value, script(from + i).now)
    decreases i
  {
    if i > 0 {
      DelayOfRun(p, script, from + 1, i - 1);
    }
  }

  /** The time slept over some delays: a timer for a negative delay fires at once. */
  function Slept(delays: seq<int>): nat {
    if delays == [] then 0
    else
      var last := delays[|delays| - 1];
      Slept(delays[..|delays| - 1]) + if last > 0 then last else 0
  }

  lemma {:induction false} SleptBound(delays: seq<int>, most: int)
    requires most >= 0 && forall i | 0 <= i < |delays| :: delays[i] <= most
    ensures Slept(delays) <= |delays| * most
  {
    if delays != [] {
      SleptBound(delays[..|delays| - 1], most);
    }
  }

  lemma ProductMonotone(a: int, b: int, c: int)
    requires a <= b && c >= 0
    ensures a * c <= b * c
  {
  }

  /**
   * A whole run sleeps at most maxRetries times the longest delay, whatever Retry-After headers
   * it meets.
   */
  lemma SleepIsBounded(l: Limiter, script: Script)
    requires Sensible(l) && l.maxRetries >= 0
    ensures Slept(Run(l, script).delays) <= l.maxRetries * l.maxDelay
  {
    var delays := Run(l, script).delays;
    RunFromContract(PolicyOf(l), script, 0);
    forall i | 0 <= i < |delays|
      ensures delays[i] <= l.maxDelay
    {
      hide RunFrom, CalculateBackoff;
      DelayOfRun(PolicyOf(l), script, 0, i);
      DelayInRange(l, i, script(i).reply.value, script(i).now);
    }
    hide RunFrom;
    SleptBound(delays, l.maxDelay);
    ProductMonotone(|delays|, l.maxRetries, l.maxDelay);
  }

  /** Without Retry-After headers a run sleeps at most the geometric sum of its delays. */
  lemma HeaderlessSleep(l: Limiter, script: Script)
    requires Sensible(l) && l.maxRetries >= 0
    requires forall k: nat | script(k).reply.Some? :: Header(script(k).reply.value) == ""
    ensures Slept(Run(l, script).delays) as real <= GeometricSum(l, l.maxRetries)
  {
    var p, delays := PolicyOf(l), Run(l, script).delays;
    RunFromContract(p, script, 0);
    forall i | 0 <= i < |delays|
      ensures delays[i] == ExponentialDelay(l, i)
    {
      DelayOfRun(p, script, 0, i);
      assert script(i).reply.Some?;
    }
    SumOfExponentials(l, delays);
    GeometricSumGrows(l, |delays|, l.maxRetries);
  }

  /**
   * The delays of a run without usable headers, one after each of its calls but the last (and after that
   * one too if the wait was cancelled), are base * factor^i, rounded down and cut off at maxDelay.
   */
  lemma HeaderlessDelays(l: Limiter, script: Script, i: nat)
    requires Sensible(l) && i < |Run(l, script).delays|
    requires forall k: nat | script(k).reply.Some? :: NoUsableHeader(l, script(k).reply.value)
    ensures Run(l, script).delays[i] == Min((l.baseDelay as real * Pow(l.backoffFactor, i)).Floor, l.maxDelay)
    ensures Run(l, script).calls - 1 <= |Run(l, script).delays| <= Run(l, script).calls
  {
    hide RunFrom, CalculateBackoff, NoUsableHeader;
    DelayOfRun(PolicyOf(l), script, 0, i);
    DelayWithoutHeader(l, i, script(i).reply.value, script(i).now);
    DelaysBetweenCalls(PolicyOf(l), script, 0);
  }

  lemma {:induction false} DelaysBetweenCalls(p: Policy, script: Script, from: nat)
    ensures
      var o := RunFrom(p, script, from);
      |o.delays| <= o.calls && (o.calls - 1 <= |o.delays|)
    decreases p.maxRetries - from
  {
    hide IsRetryable;
    if from <= p.maxRetries {
      DelaysBetweenCalls(p, script, from + 1);
    }
  }

  lemma {:induction false} SumOfExponentials(l: Limiter, delays: seq<int>)
    requires Sensible(l)
    requires forall i | 0 <= i < |delays| :: delays[i] == ExponentialDelay(l, i)
    ensures Slept(delays) as real <= GeometricSum(l, |delays|)
  {
    if delays != [] {
      var n := |delays| - 1;
      SumOfExponentials(l, delays[..n]);
      HeaderlessDelay(l, n);
    }
  }
}
