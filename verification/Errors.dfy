/** Error values as Gmail, the store and the LLM hand them to the pipeline. */
module Errors {
  datatype Option<+T> = None | Some(value: T)

  /** A Gmail API error carries its HTTP status and its Retry-After header. */
  datatype ApiError = ApiError(code: int, retryAfter: string, text: string)

  /** fmt.Errorf with %w wraps a cause behind a message. */
  datatype Err =
    | Api(error: ApiError)
    | Wrapped(message: string, cause: Err)
    | Plain(text: string)

  datatype Result<+T> = Ok(value: T) | Fail(err: Err)

  const CONTEXT_CANCELED: Err := Plain("context canceled")

  function Text(e: Err): string {
    match e
    case Api(error) => error.text
    case Wrapped(message, cause) => message + ": " + Text(cause)
    case Plain(text) => text
  }

  /** fmt.Errorf("message: %w", err), where there is an error. */
  function WrapErr(message: string, err: Option<Err>): Option<Err> {
    match err
    case None => None
    case Some(e) => Some(Wrapped(message, e))
  }

  /** An error behind any number of wraps. */
  function WrapAll(wraps: seq<string>, e: Err): Err {
    if wraps == [] then e else Wrapped(wraps[0], WrapAll(wraps[1..], e))
  }

  /** errors.As: the first API error in the chain of causes. */
  function AsApi(e: Err): Option<ApiError> {
    match e
    case Api(error) => Some(error)
    case Wrapped(_, cause) => AsApi(cause)
    case Plain(_) => None
  }

  function Lower(s: string): string {
    seq(|s|, i requires 0 <= i < |s| => if 'A' <= s[i] <= 'Z' then s[i] - 'A' + 'a' else s[i])
  }

  predicate OccursAt(s: string, sub: string, i: nat) {
    i + |sub| <= |s| && s[i..i + |sub|] == sub
  }

  predicate Contains(s: string, sub: string) {
    exists i | 0 <= i <= |s| :: OccursAt(s, sub, i)
  }

  const RATE_LIMIT_PHRASES: seq<string> := ["429", "rate limit", "rate_limit", "too many requests", "quota exceeded"]

  /** Some phrase occurs in a text in lower case. */
  predicate ReadsAsRateLimit(text: string) {
    exists k | 0 <= k < |RATE_LIMIT_PHRASES| :: Contains(text, RATE_LIMIT_PHRASES[k])
  }

  /** The pipeline recognises a rate limit by the text of the error alone. */
  predicate IsRateLimitError(e: Err) {
    ReadsAsRateLimit(Lower(Text(e)))
  }
}
