/**
 What one conditional GET is taken to mean: crawl/fetch.go. The HTTP exchange is an input, and
 so are the results of resolving a Location header and of reading a Retry-After header.
 */
module Fetch {
  import opened Prelude
  import opened Parse

  datatype RetryHeader = Absent | Seconds(n: int) | Date(when: int) | Unreadable

  /** A body delivers its content and then either ends or breaks off with an error. */
  datatype Stream = Stream(content: string, broken: bool)

  datatype Response =
    | TransportError(error: string)
    | Response(status: int, etag: string, lastModified: string,
               location: Option<string>, retryAfter: RetryHeader, body: Stream)

  datatype Outcome = Changed | NotModified | Moved | Gone | RateLimited | Failed

  datatype FetchResult = FetchResult(
    outcome: Outcome, statusCode: int,
    body: string, bodyHash: string,
    etag: string, lastModified: string,
    newUrl: string, retryAfter: int, error: Option<string>)

  const MAX_HONOURED_SECONDS := 9_223_372_036

  const EMPTY_RESULT := FetchResult(Failed, 0, "", "", "", "", "", 0, None)

  /** Reads one byte past the limit to tell a body at the cap from one over it. */
  function ReadCapped(body: Stream, limit: nat): Result<string, string> {
    var got := if |body.content| > limit + 1 then body.content[..limit + 1] else body.content;
    if |body.content| < limit + 1 && body.broken then Err("reading feed body")
    else if |got| > limit then Err("feed body exceeded the size limit")
    else Ok(got)
  }

  /** A body is either read whole or it is a failure: never a truncated document. */
  lemma ReadWholeOrNotAtAll(body: Stream, limit: nat, text: string)
    ensures ReadCapped(body, limit) == Ok(text) <==> text == body.content && |text| <= limit && !body.broken
  {
  }

  function ParseRetryAfter(header: RetryHeader, now: int): int {
    match header
    case Absent => 0
    case Seconds(n) => if n < 0 then 0 else Wrap64(n * SECOND)
    case Date(when) => if when - now > 0 then when - now else 0
    case Unreadable => 0
  }

  /**
   A delay given in seconds is honoured exactly up to 9223372036 s: beyond that the
   multiplication by a second wraps around and the result is some other delay.
   */
  lemma SecondsHonouredUpToOverflow(n: int, now: int)
    requires 0 <= n <= INT64_MAX
    ensures ParseRetryAfter(Seconds(n), now) == n * SECOND <==> n <= MAX_HONOURED_SECONDS
  {
  }

  /** The smallest positive delay a wrapped header can ask for is well under a second. */
  lemma HugeRetryAfterMeansSoon(now: int)
    ensures ParseRetryAfter(Seconds(18_446_744_074), now) == 290_448_384
  {
  }

  /** A 2xx response whose body is whole and within the limit. */
  predicate Usable(response: Response, limit: nat) {
    && response.Response? && 200 <= response.status <= 299
    && |response.body.content| <= limit && !response.body.broken
  }

  /** A permanent redirect to a usable location. */
  predicate IsRedirect(response: Response) {
    response.Response? && response.status in {301, 308} && response.location.Some?
  }

  /**
   The delay a Retry-After header asks for: a number of seconds as 64 bits of nanoseconds hold
   it, the time until a date that has not passed, or none.
   */
  predicate IsRetryDelay(header: RetryHeader, now: int, delay: int) {
    match header
    case Seconds(n) =>
      if n < 0 then delay == 0
      else -INT64_MAX - 1 <= delay <= INT64_MAX && (n * SECOND - delay) % 0x1_0000_0000_0000_0000 == 0
    case Date(when) => if now < when then now + delay == when else delay == 0
    case Absent => delay == 0
    case Unreadable => delay == 0
  }

  lemma RetryDelayIsUnique(header: RetryHeader, now: int, a: int, b: int)
    requires IsRetryDelay(header, now, a) && IsRetryDelay(header, now, b)
    ensures a == b
  {
    if header.Seconds? && header.n >= 0 {
      SameResidue(header.n * SECOND, a, b);
    }
  }

  lemma SameResidue(n: int, a: int, b: int)
    requires -INT64_MAX - 1 <= a <= INT64_MAX && -INT64_MAX - 1 <= b <= INT64_MAX
    requires (n - a) % 0x1_0000_0000_0000_0000 == 0 && (n - b) % 0x1_0000_0000_0000_0000 == 0
    ensures a == b
  {
    var p, q := (n - a) / 0x1_0000_0000_0000_0000, (n - b) / 0x1_0000_0000_0000_0000;
    assert a - b == 0x1_0000_0000_0000_0000 * (q - p);
  }

  /** The validators a result carries: those of the response, which a 304 need not repeat. */
  predicate AreValidators(response: Response, etag: string, lastModified: string, result: FetchResult) {
    match response
    case TransportError(_) => result.etag == result.lastModified == ""
    case Response(status, newEtag, newLastModified, _, _, _) =>
      && result.etag == (if status == 304 && newEtag == "" then etag else newEtag)
      && result.lastModified == (if status == 304 && newLastModified == "" then lastModified else newLastModified)
  }

  /** What each outcome means for the response. */
  predicate IsOutcome(sha: string -> string, limit: nat, knownHash: string, response: Response, outcome: Outcome) {
    match outcome
    case Changed => Usable(response, limit) && (knownHash == "" || sha(response.body.content) != knownHash)
    case NotModified =>
      || (response.Response? && response.status == 304)
      || (Usable(response, limit) && knownHash != "" && sha(response.body.content) == knownHash)
    case Moved => IsRedirect(response)
    case Gone => response.Response? && response.status == 410
    case RateLimited => response.Response? && response.status == 429
    case Failed =>
      || response.TransportError?
      || (response.status in {301, 308} && response.location == None)
      || (200 <= response.status <= 299 && !Usable(response, limit))
      || (response.status !in {301, 304, 308, 410, 429} && !(200 <= response.status <= 299))
  }

  /** No response has two outcomes. */
  lemma OutcomesExclude(sha: string -> string, limit: nat, knownHash: string, response: Response, a: Outcome, b: Outcome)
    requires IsOutcome(sha, limit, knownHash, response, a) && IsOutcome(sha, limit, knownHash, response, b)
    ensures a == b
  {
  }

  /** What comes with the outcome: the whole body of a new document, its hash, the target of a move ... */
  predicate HasParts(
    sha: string -> string, limit: nat, etag: string, lastModified: string,
    response: Response, now: int, result: FetchResult)
  {
    && result.statusCode == (if response.Response? then response.status else 0)
    && result.body == (if result.outcome == Changed && response.Response? then response.body.content else "")
    && result.bodyHash == (if Usable(response, limit) then sha(response.body.content) else "")
    && result.newUrl == (if IsRedirect(response) then response.location.value else "")
    && (if result.outcome == RateLimited && response.Response?
        then IsRetryDelay(response.retryAfter, now, result.retryAfter) else result.retryAfter == 0)
    && AreValidators(response, etag, lastModified, result)
    && (result.error.Some? <==> result.outcome in {Gone, RateLimited, Failed})
    && (response.TransportError? ==> result.error == Some(response.error))
  }

  /** Wrapping around keeps a number up to multiples of 2^64. */
  lemma WrapsAround(n: int)
    ensures -INT64_MAX - 1 <= Wrap64(n) <= INT64_MAX
    ensures (n - Wrap64(n)) % 0x1_0000_0000_0000_0000 == 0
  {
    var q := (n + 0x8000_0000_0000_0000) / 0x1_0000_0000_0000_0000;
    assert n - Wrap64(n) == 0x1_0000_0000_0000_0000 * q;
  }

  lemma RetryDelayIsRight(header: RetryHeader, now: int)
    ensures IsRetryDelay(header, now, ParseRetryAfter(header, now))
  {
    if header.Seconds? {
      WrapsAround(header.n * SECOND);
    }
  }

  lemma OutcomeIsRight(
    sha: string -> string, limit: nat, etag: string, lastModified: string, knownHash: string,
    response: Response, now: int)
    ensures IsOutcome(sha, limit, knownHash, response,
                      Classify(sha, limit, etag, lastModified, knownHash, response, now).outcome)
  {
  }

  lemma ValidatorsAreRight(
    sha: string -> string, limit: nat, etag: string, lastModified: string, knownHash: string,
    response: Response, now: int)
    ensures AreValidators(response, etag, lastModified,
                          Classify(sha, limit, etag, lastModified, knownHash, response, now))
  {
  }

  /** Only a 2xx response is read, and only a whole body within the limit counts. */
  lemma BodyIsRead(body: Stream, limit: nat)
    ensures if |body.content| <= limit && !body.broken then ReadCapped(body, limit) == Ok(body.content)
            else ReadCapped(body, limit).Err?
  {
    ReadWholeOrNotAtAll(body, limit, body.content);
  }

  lemma PartsAreRight(
    sha: string -> string, limit: nat, etag: string, lastModified: string, knownHash: string,
    response: Response, now: int)
    ensures HasParts(sha, limit, etag, lastModified, response, now,
                     Classify(sha, limit, etag, lastModified, knownHash, response, now))
  {
    ValidatorsAreRight(sha, limit, etag, lastModified, knownHash, response, now);
    if response.Response? {
      RetryDelayIsRight(response.retryAfter, now);
      BodyIsRead(response.body, limit);
    }
  }

  lemma ClassifyIsRight(
    sha: string -> string, limit: nat, etag: string, lastModified: string, knownHash: string,
    response: Response, now: int)
    ensures
      var result := Classify(sha, limit, etag, lastModified, knownHash, response, now);
      && IsOutcome(sha, limit, knownHash, response, result.outcome)
      && HasParts(sha, limit, etag, lastModified, response, now, result)
  {
    OutcomeIsRight(sha, limit, etag, lastModified, knownHash, response, now);
    PartsAreRight(sha, limit, etag, lastModified, knownHash, response, now);
  }

  /** What Fetch concludes from the exchange, by status class. */
  function Classify(
    sha: string -> string, limit: nat, etag: string, lastModified: string, knownHash: string,
    response: Response, now: int): FetchResult
  {
    match response
    case TransportError(error) => EMPTY_RESULT.(error := Some(error))
    case Response(status, newEtag, newLastModified, location, retryAfter, body) =>
      var base := EMPTY_RESULT.(statusCode := status, etag := newEtag, lastModified := newLastModified);
      if status == 304 then
        base.(outcome := NotModified,
              etag := if newEtag == "" then etag else newEtag,
              lastModified := if newLastModified == "" then lastModified else newLastModified)
      else if status == 301 || status == 308 then
        (match location
         case Some(target) => base.(outcome := Moved, newUrl := target)
         case None => base.(error := Some("permanent redirect to unusable location")))
      else if status == 410 then base.(outcome := Gone, error := Some("feed is gone (410)"))
      else if status == 429 then
        base.(outcome := RateLimited, retryAfter := ParseRetryAfter(retryAfter, now), error := Some("rate limited (429)"))
      else if status < 200 || status > 299 then base.(error := Some("unexpected status"))
      else
        match ReadCapped(body, limit)
        case Err(error) => base.(error := Some(error))
        case Ok(text) =>
          if |knownHash| > 0 && knownHash == sha(text)
          then base.(outcome := NotModified, bodyHash := sha(text))
          else base.(outcome := Changed, bodyHash := sha(text), body := text)
  }

  /** Fetch, filling its result field by field. */
  method Fetch(
    sha: string -> string, limit: nat, etag: string, lastModified: string, knownHash: string,
    response: Response, now: int) returns (result: FetchResult)
    ensures result == Classify(sha, limit, etag, lastModified, knownHash, response, now)
    ensures IsOutcome(sha, limit, knownHash, response, result.outcome)
    ensures HasParts(sha, limit, etag, lastModified, response, now, result)
  {
    ClassifyIsRight(sha, limit, etag, lastModified, knownHash, response, now);
    result := EMPTY_RESULT;
    if response.TransportError? {
      result := result.(error := Some(response.error));
      return;
    }
    result := result.(statusCode := response.status, etag := response.etag, lastModified := response.lastModified);

    if response.status == 304 {
      if result.etag == "" {
        result := result.(etag := etag);
      }
      if result.lastModified == "" {
        result := result.(lastModified := lastModified);
      }
      result := result.(outcome := NotModified);
      return;
    }
    if response.status == 301 || response.status == 308 {
      if response.location == None {
        result := result.(error := Some("permanent redirect to unusable location"));
        return;
      }
      result := result.(outcome := Moved);
      result := result.(newUrl := response.location.value);
      return;
    }
    if response.status == 410 {
      result := result.(outcome := Gone);
      result := result.(error := Some("feed is gone (410)"));
      return;
    }
    if response.status == 429 {
      result := result.(outcome := RateLimited);
      result := result.(retryAfter := ParseRetryAfter(response.retryAfter, now));
      result := result.(error := Some("rate limited (429)"));
      return;
    }
    if response.status < 200 || response.status > 299 {
      result := result.(error := Some("unexpected status"));
      return;
    }

    var body := ReadCapped(response.body, limit);
    if body.Err? {
      result := result.(error := Some(body.error));
      return;
    }
    ReadWholeOrNotAtAll(response.body, limit, body.value);
    var sum := sha(body.value);
    result := result.(bodyHash := sum);
    if |knownHash| > 0 && knownHash == sum {
      result := result.(outcome := NotModified);
      return;
    }
    result := result.(outcome := Changed);
    result := result.(body := body.value);
  }
}
