/** The delay before a retry: exponential, unless a Retry-After header asks for another. Durations are nanoseconds. */
module Backoff {
  import opened Errors
  import opened Decimal

  const SECOND: int := 1_000_000_000

  /** The limiter's configuration. `httpDate` is the library's HTTP-date parser. */
  datatype Limiter = Limiter(
    maxRetries: int,
    baseDelay: int,
    maxDelay: int,
    backoffFactor: real,
    httpDate: string -> Option<int>)

  /** Two's complement wrap-around of an int64 product. */
  function Wrap64(x: int): int {
    (x + TWO_63) % TWO_64 - TWO_63
  }

  function Min(a: int, b: int): int {
    if a <= b then a else b
  }

  function Pow(base: real, k: nat): real {
    if k == 0 then 1.0 else base * Pow(base, k - 1)
  }

  /** Conversion of a float to an integer type drops the fraction. */
  function Truncate(x: real): int {
    if x >= 0.0 then x.Floor else -((-x).Floor)
  }

  /** The delay a Retry-After header asks for, if it can be read. */
  function HeaderDelay(l: Limiter, header: string, now: int): Option<int> {
    if header == "" then None
    else if Atoi(header).Some? && Atoi(header).value > 0 then
      Some(Min(Wrap64(Atoi(header).value * SECOND), l.maxDelay))
    else match l.httpDate(header)
      case None => None
      case Some(t) => Some(Min(if t - now <= 0 then l.baseDelay else t - now, l.maxDelay))
  }

  /** The uncapped exponential delay. */
  function ExactDelay(l: Limiter, attempt: nat): real {
    l.baseDelay as real * Pow(l.backoffFactor, attempt)
  }

  function ExponentialDelay(l: Limiter, attempt: nat): int {
    var delay := ExactDelay(l, attempt);
    Truncate(if delay > l.maxDelay as real then l.maxDelay as real else delay)
  }

  function Header(e: Err): string {
    match AsApi(e)
    case None => ""
    case Some(api) => api.retryAfter
  }

  function CalculateBackoff(l: Limiter, attempt: nat, e: Err, now: int): int {
    match HeaderDelay(l, Header(e), now)
    case Some(d) => d
    case None => ExponentialDelay(l, attempt)
  }

  // ---------------------------------------------------------------- what the delays guarantee

  predicate Sensible(l: Limiter) {
    l.backoffFactor >= 1.0 && l.baseDelay >= 0 && l.maxDelay >= 0
  }

  lemma {:induction false} PowGrows(f: real, i: nat, j: nat)
    requires f >= 1.0 && i <= j
    ensures 1.0 <= Pow(f, i) <= Pow(f, j)
    decreases j
  {
    if j > 0 {
      if i == j {
        PowGrows(f, i - 1, j - 1);
      } else {
        PowGrows(f, i, j - 1);
      }
      assert Pow(f, j - 1) <= f * Pow(f, j - 1);
    }
  }

  lemma MulMonotone(a: real, x: real, y: real)
    requires a >= 0.0 && x <= y
    ensures a * x <= a * y
  {
  }

  lemma CutOff(x: real, most: int)
    requires x >= 0.0 && most >= 0
    ensures Truncate(if x > most as real then most as real else x) == Min(x.Floor, most)
  {
  }

  lemma ExactDelayGrows(l: Limiter, attempt: nat)
    requires Sensible(l)
    ensures 0.0 <= ExactDelay(l, attempt) <= ExactDelay(l, attempt + 1)
  {
    PowGrows(l.backoffFactor, attempt, attempt + 1);
    MulMonotone(l.baseDelay as real, 0.0, Pow(l.backoffFactor, attempt));
    MulMonotone(l.baseDelay as real, Pow(l.backoffFactor, attempt), Pow(l.backoffFactor, attempt + 1));
  }

  /** Without a header the delay is the exponential one cut off at maxDelay, and it never shrinks. */
  lemma HeaderlessDelay(l: Limiter, attempt: nat)
    requires Sensible(l)
    ensures 0 <= ExponentialDelay(l, attempt) == Min(ExactDelay(l, attempt).Floor, l.maxDelay)
    ensures ExponentialDelay(l, attempt) as real <= ExactDelay(l, attempt)
    ensures ExponentialDelay(l, attempt) <= ExponentialDelay(l, attempt + 1)
  {
    ExactDelayGrows(l, attempt);
    ExactDelayGrows(l, attempt + 1);
    CutOff(ExactDelay(l, attempt), l.maxDelay);
    CutOff(ExactDelay(l, attempt + 1), l.maxDelay);
  }

  /** The header is that of the API error, behind any number of wraps; an error of another kind has none. */
  lemma {:induction false} HeaderBehindWraps(wraps: seq<string>, api: ApiError, text: string)
    ensures Header(WrapAll(wraps, Api(api))) == api.retryAfter
    ensures Header(WrapAll(wraps, Plain(text))) == ""
  {
    if wraps != [] {
      HeaderBehindWraps(wraps[1..], api, text);
    }
  }

  /** There is no header, or it is neither a positive number nor a date. */
  predicate NoUsableHeader(l: Limiter, e: Err) {
    Header(e) == "" || ((Atoi(Header(e)).Some? ==> Atoi(Header(e)).value <= 0) && l.httpDate(Header(e)).None?)
  }

  lemma WithoutUsableHeader(l: Limiter, attempt: nat, e: Err, now: int)
    requires NoUsableHeader(l, e)
    ensures CalculateBackoff(l, attempt, e, now) == ExponentialDelay(l, attempt)
  {
    hide Atoi, Header, ExponentialDelay;
  }

  lemma ExactDelayIs(l: Limiter, attempt: nat)
    ensures ExactDelay(l, attempt) == l.baseDelay as real * Pow(l.backoffFactor, attempt)
  {
  }

  /** The delay that is taken then is base * factor^attempt, rounded down, or maxDelay if that is shorter. */
  lemma DelayWithoutHeader(l: Limiter, attempt: nat, e: Err, now: int)
    requires Sensible(l) && NoUsableHeader(l, e)
    ensures CalculateBackoff(l, attempt, e, now)
         == Min((l.baseDelay as real * Pow(l.backoffFactor, attempt)).Floor, l.maxDelay)
  {
    hide ExponentialDelay, ExactDelay, Pow;
    HeaderlessDelay(l, attempt);
    ExactDelayIs(l, attempt);
    WithoutUsableHeader(l, attempt, e, now);
  }

  /** One second doubled: the fourth delay after a 503 is eight seconds, the seventh is cut to a minute. */
  lemma DoublingDelays(l: Limiter, text: string, now: int)
    requires l.baseDelay == SECOND && l.maxDelay == 60 * SECOND && l.backoffFactor == 2.0
    ensures CalculateBackoff(l, 3, Api(ApiError(503, "", text)), now) == 8 * SECOND
    ensures CalculateBackoff(l, 6, Api(ApiError(503, "", text)), now) == 60 * SECOND
  {
    var e := Api(ApiError(503, "", text));
    assert Header(e) == "";
    DelayWithoutHeader(l, 3, e, now);
    DelayWithoutHeader(l, 6, e, now);
    hide CalculateBackoff, Header;
    assert Pow(2.0, 0) == 1.0;
    assert Pow(2.0, 1) == 2.0;
    assert Pow(2.0, 2) == 4.0;
    assert Pow(2.0, 3) == 8.0;
    assert Pow(2.0, 4) == 16.0;
    assert Pow(2.0, 5) == 32.0;
    assert Pow(2.0, 6) == 64.0;
  }

  /** A number of seconds whose nanoseconds, reduced to 64 bits, lie in the upper half. */
  predicate HeaderOverflows(header: string) {
    && header != "" && Atoi(header).Some? && Atoi(header).value > 0
    && Atoi(header).value * SECOND % TWO_64 >= TWO_63
  }

  lemma UpperHalfIsNegative(x: nat)
    ensures Wrap64(x) == if x % TWO_64 >= TWO_63 then x % TWO_64 - TWO_64 else x % TWO_64
  {
    var q, r := x / TWO_64, x % TWO_64;
    assert x + TWO_63 == q * TWO_64 + (r + TWO_63);
    if r < TWO_63 {
      RemainderOfSum(q, r + TWO_63);
    } else {
      assert x + TWO_63 == (q + 1) * TWO_64 + (r - TWO_63);
      RemainderOfSum(q + 1, r - TWO_63);
    }
  }

  lemma RemainderOfSum(q: nat, r: nat)
    requires r < TWO_64
    ensures (q * TWO_64 + r) % TWO_64 == r
  {
  }

  /** A delay never exceeds maxDelay, and it is a real delay except when the header overflows. */
  lemma DelayInRange(l: Limiter, attempt: nat, e: Err, now: int)
    requires Sensible(l)
    ensures CalculateBackoff(l, attempt, e, now) <= l.maxDelay
    ensures 0 <= CalculateBackoff(l, attempt, e, now) <==> !HeaderOverflows(Header(e))
  {
    hide Wrap64, Atoi, ExponentialDelay;
    HeaderlessDelay(l, attempt);
    var seconds := Atoi(Header(e));
    if seconds.Some? && seconds.value > 0 {
      UpperHalfIsNegative(seconds.value * SECOND);
    }
  }

  lemma WrapFits(x: int)
    requires -TWO_63 <= x < TWO_63
    ensures Wrap64(x) == x
  {
  }

  /** A Retry-After whose nanoseconds fit in an int64 is honoured up to maxDelay. */
  lemma HeaderIsHonoured(l: Limiter, attempt: nat, e: Err, now: int, seconds: nat)
    requires Header(e) == Print(seconds) && 0 < seconds && seconds * SECOND < TWO_63
    ensures CalculateBackoff(l, attempt, e, now) == Min(seconds * SECOND, l.maxDelay)
  {
    AtoiOfPrint(seconds);
    PrintReadsBack(seconds);
    WrapFits(seconds * SECOND);
  }

  /** From 2^63 to 2^64 nanoseconds the header wraps to a negative delay: the retry does not wait at all. */
  lemma HugeHeaderDoesNotWait(l: Limiter, attempt: nat, e: Err, now: int, seconds: nat)
    requires Header(e) == Print(seconds) && TWO_63 <= seconds * SECOND < TWO_64
    ensures CalculateBackoff(l, attempt, e, now) < 0
  {
    AtoiOfPrint(seconds);
    PrintReadsBack(seconds);
  }

  /**
   * Whatever its size, a Retry-After of some seconds is honoured up to maxDelay exactly if its nanoseconds
   * fit in an int64, or reduced to one they still come to maxDelay or more.
   */
  lemma HeaderHonouredExactly(l: Limiter, attempt: nat, e: Err, now: int)
    requires Header(e) != "" && Atoi(Header(e)).Some? && Atoi(Header(e)).value > 0
    requires -TWO_63 <= l.maxDelay < TWO_63
    ensures
      var nanoseconds := Atoi(Header(e)).value * SECOND;
      var rest := nanoseconds % TWO_64;
      CalculateBackoff(l, attempt, e, now) == Min(nanoseconds, l.maxDelay)
      <==> nanoseconds < TWO_63 || l.maxDelay <= (if rest < TWO_63 then rest else rest - TWO_64)
  {
    hide Wrap64, Atoi;
    UpperHalfIsNegative(Atoi(Header(e)).value * SECOND);
  }

  lemma HeaderValue(l: Limiter, attempt: nat, e: Err, now: int, seconds: nat)
    requires Header(e) == Print(seconds) && 0 < seconds < TWO_63
    ensures CalculateBackoff(l, attempt, e, now) == Min(Wrap64(seconds * SECOND), l.maxDelay)
  {
    hide Atoi, Wrap64;
    AtoiOfPrint(seconds);
    PrintReadsBack(seconds);
  }

  /** A header of 584 years is waited for less than 0.3 seconds: its nanoseconds wrap to a small positive number. */
  lemma HugeHeaderWaitsBriefly(l: Limiter, attempt: nat, e: Err, now: int)
    requires Header(e) == Print(18_446_744_074) && l.maxDelay == 60 * SECOND
    ensures CalculateBackoff(l, attempt, e, now) == 290_448_384
  {
    hide CalculateBackoff, Print, Wrap64;
    HeaderValue(l, attempt, e, now, 18_446_744_074);
    UpperHalfIsNegative(18_446_744_074 * SECOND);
  }

  /** A header that is no positive number but a date: wait until then, or the base delay if it is past, up to maxDelay. */
  lemma DateIsHonoured(l: Limiter, attempt: nat, e: Err, now: int, date: int)
    requires Header(e) != "" && l.httpDate(Header(e)) == Some(date)
    requires Atoi(Header(e)).Some? ==> Atoi(Header(e)).value <= 0
    ensures
      var delay := CalculateBackoff(l, attempt, e, now);
      && (now < date <= now + l.maxDelay ==> now + delay == date)
      && (date <= now ==> delay == Min(l.baseDelay, l.maxDelay))
      && (date > now && date > now + l.maxDelay ==> delay == l.maxDelay)
  {
  }

  // ---------------------------------------------------------------- the geometric sum

  /** base + base·factor + … + base·factor^(n-1). */
  function GeometricSum(l: Limiter, n: nat): real {
    if n == 0 then 0.0 else GeometricSum(l, n - 1) + ExactDelay(l, n - 1)
  }

  lemma {:induction false} GeometricSumGrows(l: Limiter, m: nat, n: nat)
    requires Sensible(l) && m <= n
    ensures GeometricSum(l, m) <= GeometricSum(l, n)
    decreases n
  {
    if m < n {
      GeometricSumGrows(l, m, n - 1);
      ExactDelayGrows(l, n - 1);
    }
  }

  lemma Distribute(a: real, b: real, c: real)
    ensures (a + b) * c == a * c + b * c
  {
  }

  lemma Associate(a: real, b: real, c: real)
    ensures a * (b * c) == b * (a * c)
  {
  }

  lemma NextExactDelay(l: Limiter, n: nat)
    ensures ExactDelay(l, n + 1) == l.backoffFactor * ExactDelay(l, n)
  {
    Associate(l.baseDelay as real, l.backoffFactor, Pow(l.backoffFactor, n));
  }

  /** The closed form: sum·(factor - 1) = base·factor^n - base. */
  lemma {:induction false} GeometricClosedForm(l: Limiter, n: nat)
    ensures GeometricSum(l, n) * (l.backoffFactor - 1.0) == ExactDelay(l, n) - l.baseDelay as real
  {
    var f := l.backoffFactor;
    if n > 0 {
      GeometricClosedForm(l, n - 1);
      Distribute(GeometricSum(l, n - 1), ExactDelay(l, n - 1), f - 1.0);
      NextExactDelay(l, n - 1);
      Distribute(f, -1.0, ExactDelay(l, n - 1));
    }
  }
}
