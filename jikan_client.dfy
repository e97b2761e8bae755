/**
 * `JikanAPIClient`: fetches one title's full record, waiting out the rate limit
 * first. The clock and the HTTP exchange are inputs: each attempt is described by
 * the clock reading before the request, the reading after it, and what the
 * request produced.
 */
module JikanClient {
  import opened Wrappers
  import opened Json
  import opened Retry

  /** Seconds between requests (two requests per second at most). */
  const RateLimitDelay: real := 0.55

  /** What `requests.get(url).raise_for_status()` and `response.json()` come to. */
  datatype Response =
    | Ok(payload: Json)      // 2xx; the decoded body (`null` decodes to None)
    | UndecodableBody        // 2xx, but `response.json()` fails after the counters moved (a RequestException since requests 2.27)
    | HttpError(status: int) // a 4xx/5xx status; 404 included
    | RequestError           // any other `requests.exceptions.RequestException` raised by the request itself
    | Raised                 // some exception `fetch_anime` does not catch, raised before the counters are touched

  /** The request got a 2xx status, so `requests_made` and `last_request_time` were updated. */
  predicate Counted(r: Response)
  {
    r.Ok? || r.UndecodableBody?
  }

  /** One attempt as the environment plays it: the clock before the request, after it, and the response. */
  datatype Exchange = Exchange(start: real, finish: real, response: Response)

  /**
   * The sleep before a request: only when a previous successful request time is
   * set (and truthy: a time of 0.0 is falsy in Python) and less than `delay`
   * seconds have elapsed since, and then exactly the rest of the interval.
   */
  function RateLimitWait(last: Option<real>, delay: real, now: real): (w: real)
    ensures w >= 0.0
    ensures w > 0.0 <==> (last.Some? && last.value != 0.0 && now - last.value < delay)
    ensures w > 0.0 ==> w == delay - (now - last.value) && now + w - last.value == delay
  {
    if last.Some? && last.value != 0.0 && now - last.value < delay then delay - (now - last.value) else 0.0
  }

  /** After the wait, at least `delay` seconds separate the request from the last successful one. */
  lemma WaitEnforcesInterval(last: Option<real>, delay: real, now: real)
    requires last.Some? && last.value != 0.0
    ensures now + RateLimitWait(last, delay, now) - last.value >= delay
  {
  }

  /** What one undecorated call of `fetch_anime` returns: caught errors are turned into None (JNull) and so are NOT raised. */
  function Classify(r: Response): (a: Attempt<Json>)
    ensures a.Raises? <==> r.Raised?
    ensures r.Ok? ==> a == Returns(r.payload)
    ensures (r.UndecodableBody? || r.HttpError? || r.RequestError?) ==> a == Returns(JNull)
  {
    match r
    case Ok(p) => Returns(p)
    case UndecodableBody => Returns(JNull)
    case HttpError(_) => Returns(JNull)
    case RequestError => Returns(JNull)
    case Raised => Raises
  }

  /** The attempts the decorator sees when the i-th request plays out as `ex(i)`. */
  function AttemptsOf(ex: nat -> Exchange): nat -> Attempt<Json>
  {
    (i: nat) => Classify(ex(i).response)
  }

  /** The trace of the decorated `fetch_anime`. */
  function FetchTrace(maxRetries: int, ex: nat -> Exchange): Trace<Json>
  {
    RetryRun(maxRetries, AttemptsOf(ex))
  }

  /** The value the decorated `fetch_anime` returns: JNull for Python's None. */
  function FetchResult(maxRetries: int, ex: nat -> Exchange): Json
  {
    FetchTrace(maxRetries, ex).result.GetOr(JNull)
  }

  /** The decorated call ended in a request with a 2xx status (the one that updates the counters). */
  predicate FetchCounted(maxRetries: int, ex: nat -> Exchange)
  {
    var t := FetchTrace(maxRetries, ex);
    t.result.Some? && t.calls > 0 && Counted(ex(t.calls - 1).response)
  }

  /**
   * HTTP errors (404 and every other status alike) and request errors are caught
   * inside `fetch_anime`, so the decorator makes one call, no sleep, and the
   * result is None.
   */
  lemma CaughtErrorsAreNotRetried(maxRetries: int, ex: nat -> Exchange)
    requires maxRetries >= 1
    requires ex(0).response.HttpError? || ex(0).response.RequestError?
    ensures FetchTrace(maxRetries, ex) == Trace(Some(JNull), 1, 0)
    ensures FetchResult(maxRetries, ex) == JNull && !FetchCounted(maxRetries, ex)
  {
    assert AttemptsOf(ex)(0) == Returns(JNull);
  }

  /**
   * A counted decorated fetch ends with the one request that got a 2xx status, after
   * attempts that all raised; it returns that request's payload, or None when the
   * body does not decode.
   */
  lemma CountedFetchReturnsPayload(maxRetries: int, ex: nat -> Exchange)
    requires FetchCounted(maxRetries, ex)
    ensures var t := FetchTrace(maxRetries, ex);
      && 0 < t.calls <= maxRetries
      && (ex(t.calls - 1).response.Ok? ==> FetchResult(maxRetries, ex) == ex(t.calls - 1).response.payload)
      && (ex(t.calls - 1).response.UndecodableBody? ==> FetchResult(maxRetries, ex) == JNull)
      && forall j :: 0 <= j < t.calls - 1 ==> ex(j).response.Raised?
  {
    var t := FetchTrace(maxRetries, ex);
    RetryReturnsFirstValue(maxRetries, AttemptsOf(ex));
    assert AttemptsOf(ex)(t.calls - 1) == Classify(ex(t.calls - 1).response);
    forall j | 0 <= j < t.calls - 1 ensures ex(j).response.Raised? {
      assert AttemptsOf(ex)(j) == Classify(ex(j).response);
    }
  }

  class Client {
    const rateLimitDelay: real
    var requestsMade: nat
    var lastRequestTime: Option<real>

    constructor (rateLimitDelay: real)
      ensures this.rateLimitDelay == rateLimitDelay
      ensures requestsMade == 0 && lastRequestTime == None
    {
      this.rateLimitDelay := rateLimitDelay;
      requestsMade := 0;
      lastRequestTime := None;
    }

    /**
     * The body of `fetch_anime`, one attempt: wait out the rate limit, issue the
     * request; on a 2xx status count it and remember when it finished, then decode the body.
     */
    method FetchAttempt(ex: Exchange) returns (a: Attempt<Json>, wait: real)
      modifies this
      ensures wait == RateLimitWait(old(lastRequestTime), rateLimitDelay, ex.start)
      ensures a == Classify(ex.response)
      ensures Counted(ex.response) ==> requestsMade == old(requestsMade) + 1 && lastRequestTime == Some(ex.finish)
      ensures !Counted(ex.response) ==> requestsMade == old(requestsMade) && lastRequestTime == old(lastRequestTime)
    {
      wait := 0.0;
      if lastRequestTime.Some? && lastRequestTime.value != 0.0 {
        var elapsed := ex.start - lastRequestTime.value;
        if elapsed < rateLimitDelay {
          wait := rateLimitDelay - elapsed;
        }
      }
      match ex.response
      case Ok(payload) =>
        requestsMade := requestsMade + 1;
        lastRequestTime := Some(ex.finish);
        a := Returns(payload);
      case UndecodableBody =>
        requestsMade := requestsMade + 1;
        lastRequestTime := Some(ex.finish);
        a := Returns(JNull);
      case HttpError(status) =>
        // 404 is only logged differently from the other statuses
        a := Returns(JNull);
      case RequestError =>
        a := Returns(JNull);
      case Raised =>
        a := Raises;
    }

    /**
     * `fetch_anime` as decorated with `retry_on_failure(maxRetries, retryDelay)`:
     * the decorator's loop runs here because the wrapped call changes the client.
     * Returns the result, the rate-limit wait of each attempt and the decorator's sleeps.
     */
    method FetchAnime(maxRetries: int, retryDelay: real, ex: nat -> Exchange)
      returns (r: Json, waits: seq<real>, slept: seq<real>)
      modifies this
      ensures var t := FetchTrace(maxRetries, ex);
        && r == FetchResult(maxRetries, ex)
        && |waits| == t.calls && |slept| == t.sleeps
      ensures forall i :: 0 <= i < |waits| ==> waits[i] == RateLimitWait(old(lastRequestTime), rateLimitDelay, ex(i).start)
      ensures forall i :: 0 <= i < |slept| ==> slept[i] == retryDelay
      ensures FetchCounted(maxRetries, ex) ==>
        requestsMade == old(requestsMade) + 1 && lastRequestTime == Some(ex(FetchTrace(maxRetries, ex).calls - 1).finish)
      ensures !FetchCounted(maxRetries, ex) ==>
        requestsMade == old(requestsMade) && lastRequestTime == old(lastRequestTime)
    {
      r, waits, slept := JNull, [], [];
      var attempt: nat := 0;
      while attempt < maxRetries
        invariant if maxRetries > 0 then attempt < maxRetries else attempt == 0
        invariant attempt < maxRetries ==> FetchTrace(maxRetries, ex) == RetryFrom(maxRetries, AttemptsOf(ex), attempt)
        invariant |waits| == attempt && |slept| == attempt
        invariant forall i :: 0 <= i < |waits| ==> waits[i] == RateLimitWait(old(lastRequestTime), rateLimitDelay, ex(i).start)
        invariant forall i :: 0 <= i < |slept| ==> slept[i] == retryDelay
        invariant requestsMade == old(requestsMade) && lastRequestTime == old(lastRequestTime)
        decreases maxRetries - attempt
      {
        var a, wait := FetchAttempt(ex(attempt));
        waits := waits + [wait];
        assert AttemptsOf(ex)(attempt) == a;
        if a.Returns? {
          r := a.value;
          return;
        }
        if attempt == maxRetries - 1 {
          // every attempt raised: the decorator returns None
          return;
        }
        slept := slept + [retryDelay];
        attempt := attempt + 1;
      }
    }
  }
}
