/**
 * StravaClient (src/api/strava-client.ts): the retry wrapper around one API call and
 * the query of the activities endpoint. Each possible attempt's outcome (a response
 * or a network failure) is a parameter; the Bottleneck scheduler and p-retry's back-off
 * timing are not modelled.
 */
module Client {
  import opened Util

  /** `retries: 3` after the first attempt. */
  const MaxRetries := 3
  const MaxAttempts := MaxRetries + 1

  datatype Response = Response(status: int, retryAfterHeader: Option<string>, body: string)

  /** What one `fetch` gave: a response, or a rejection with its message. */
  datatype Attempt = Responded(response: Response) | NetworkFailure(message: string)

  datatype ClientError =
    | RateLimitError(retryAfter: Option<int>)   // None stands for NaN
    | HttpError(status: int, body: string)
    | NetworkError(message: string)

  function Message(e: ClientError): string {
    match e
    case RateLimitError(r) =>
      "Rate limit exceeded. Retry after " + (if r.Some? then IntToString(r.value) else "NaN") + " seconds"
    case HttpError(status, body) => "HTTP " + IntToString(status) + ": " + body
    case NetworkError(m) => m
  }

  /** Response.ok. */
  predicate IsOk(status: int) {
    200 <= status <= 299
  }

  /** The default header value reads as 60. */
  lemma DefaultRetryAfter()
    ensures ParseInt("60") == Some(60)
  {
    TrimStartIdle("60");
    DigitPrefixOfDigits("60");
    assert "60"[..1] == "6";
  }

  /** `parseInt(res.headers.get('Retry-After') || '60', 10)`. */
  function RetryAfterOf(header: Option<string>): (r: Option<int>)
    ensures header.None? || header.value == "" ==> r == Some(60)
    ensures forall n: int :: header == Some(IntToString(n)) ==> r == Some(n)
  {
    DefaultRetryAfter();
    forall n: int | header == Some(IntToString(n)) ensures ParseInt(header.value) == Some(n) {
      ParseIntToString(n);
    }
    ParseInt(if header.None? || header.value == "" then "60" else header.value)
  }

  /** One attempt's verdict: a 429 is a rate-limit error, any other non-OK status an HTTP error. */
  function Classify(a: Attempt): (r: Result<Response, ClientError>)
    ensures a.NetworkFailure? ==> r == Err(NetworkError(a.message))
    ensures a.Responded? && a.response.status == 429 ==>
      r == Err(RateLimitError(RetryAfterOf(a.response.retryAfterHeader)))
    ensures a.Responded? && a.response.status != 429 && !IsOk(a.response.status) ==>
      r.Err? && StartsWith(Message(r.error), "HTTP " + IntToString(a.response.status) + ": ")
    ensures a.Responded? && IsOk(a.response.status) ==> r == Ok(a.response)
  {
    match a
    case NetworkFailure(m) => Err(NetworkError(m))
    case Responded(resp) =>
      if resp.status == 429 then Err(RateLimitError(RetryAfterOf(resp.retryAfterHeader)))
      else if !IsOk(resp.status) then Err(HttpError(resp.status, resp.body))
      else Ok(resp)
  }

  /** shouldRetry: never a rate-limit error, never a message mentioning "HTTP 4". */
  predicate ShouldRetry(e: ClientError) {
    !e.RateLimitError? && !Contains(Message(e), "HTTP 4")
  }

  lemma ContainsAtStart(s: string, sub: string)
    requires StartsWith(s, sub)
    ensures Contains(s, sub)
  {
  }

  /** The decimal text of a status in 400..499 starts with '4'. */
  lemma FourHundreds(status: int)
    requires 400 <= status <= 499
    ensures IntToString(status)[0] == '4' && |IntToString(status)| == 3
  {
    assert NatToString(status / 10) == NatToString(status / 100) + [DigitChar(status / 10 % 10)];
    assert NatToString(status / 100) == [DigitChar(4)];
  }

  lemma FiveHundreds(status: int)
    requires 500 <= status <= 599
    ensures IntToString(status)[0] == '5' && |IntToString(status)| == 3
    ensures AllDigits(IntToString(status))
  {
    assert NatToString(status / 10) == NatToString(status / 100) + [DigitChar(status / 10 % 10)];
    assert NatToString(status / 100) == [DigitChar(5)];
  }

  /** A 4xx response is never retried. */
  lemma ClientErrorNotRetried(status: int, body: string)
    requires 400 <= status <= 499
    ensures !ShouldRetry(HttpError(status, body))
  {
    FourHundreds(status);
    var m := Message(HttpError(status, body));
    assert m[..6] == "HTTP 4";
    ContainsAtStart(m, "HTTP 4");
  }

  lemma {:induction false} ContainsAfterPrefix(p: string, s: string, sub: string)
    requires forall i :: 0 <= i < |p| ==> !StartsWith(p[i..] + s, sub)
    ensures Contains(p + s, sub) == Contains(s, sub)
  {
    if |p| > 0 {
      assert p[0..] + s == p + s;
      assert (p + s)[1..] == p[1..] + s;
      forall i | 0 <= i < |p| - 1 ensures !StartsWith(p[1..][i..] + s, sub) {
        assert p[1..][i..] == p[i + 1..];
      }
      ContainsAfterPrefix(p[1..], s, sub);
    } else {
      assert p + s == s;
    }
  }

  /** A 5xx response is retried, unless its body happens to mention "HTTP 4". */
  lemma ServerErrorRetried(status: int, body: string)
    requires 500 <= status <= 599
    ensures ShouldRetry(HttpError(status, body)) <==> !Contains(body, "HTTP 4")
  {
    FiveHundreds(status);
    var p := "HTTP " + IntToString(status) + ": ";
    assert Message(HttpError(status, body)) == p + body;
    forall i | 0 <= i < |p| ensures !StartsWith(p[i..] + body, "HTTP 4") {
      if i == 0 {
        assert (p + body)[5] == '5';
        assert p[i..] + body == p + body;
      } else {
        assert (p[i..] + body)[0] == p[i] != 'H';
      }
    }
    ContainsAfterPrefix(p, body, "HTTP 4");
  }

  /** A 4xx response, 429 included, is the verdict of its attempt and stops the retries. */
  lemma FourHundredStops(resp: Response)
    requires 400 <= resp.status <= 499
    ensures Classify(Responded(resp)) ==
      if resp.status == 429 then Err(RateLimitError(RetryAfterOf(resp.retryAfterHeader)))
      else Err(HttpError(resp.status, resp.body))
    ensures !ShouldRetry(Classify(Responded(resp)).error)
  {
    if resp.status != 429 {
      ClientErrorNotRetried(resp.status, resp.body);
    }
  }

  /**
   * request: the bearer token is obtained once, then each attempt is classified; a
   * failure is retried while shouldRetry allows and attempts remain.
   */
  method Request(accessToken: string, attempts: seq<Attempt>)
    returns (r: Result<Response, ClientError>, used: nat, ghost authorizations: seq<string>)
    requires |attempts| >= MaxAttempts
    ensures 1 <= used <= MaxAttempts
    ensures r == Classify(attempts[used - 1])
    ensures forall k :: 0 <= k < used - 1 ==> Classify(attempts[k]).Err? && ShouldRetry(Classify(attempts[k]).error)
    ensures r.Err? ==> used == MaxAttempts || !ShouldRetry(r.error)
    ensures |authorizations| == used
    ensures forall k :: 0 <= k < used ==> authorizations[k] == "Bearer " + accessToken
    ensures attempts[0].Responded? && attempts[0].response.status == 429 ==>
      used == 1 && r == Err(RateLimitError(RetryAfterOf(attempts[0].response.retryAfterHeader)))
    ensures attempts[0].Responded? && 400 <= attempts[0].response.status <= 499 && attempts[0].response.status != 429 ==>
      used == 1 && r == Err(HttpError(attempts[0].response.status, attempts[0].response.body))
  {
    ghost var firstStops := attempts[0].Responded? && 400 <= attempts[0].response.status <= 499;
    if firstStops {
      FourHundredStops(attempts[0].response);
    }
    var attempt := 0;
    authorizations := [];
    while true
      invariant 0 <= attempt < MaxAttempts
      invariant firstStops ==> attempt == 0
      invariant |authorizations| == attempt
      invariant forall k :: 0 <= k < attempt ==> authorizations[k] == "Bearer " + accessToken
      invariant forall k :: 0 <= k < attempt ==> Classify(attempts[k]).Err? && ShouldRetry(Classify(attempts[k]).error)
      decreases MaxAttempts - attempt
    {
      authorizations := authorizations + ["Bearer " + accessToken];
      var outcome := Classify(attempts[attempt]);
      if outcome.Ok? || !ShouldRetry(outcome.error) || attempt + 1 == MaxAttempts {
        return outcome, attempt + 1, authorizations;
      }
      attempt := attempt + 1;
    }
  }

  /** The query parameters of getActivities; an absent field takes its default. */
  datatype ActivitiesParams = ActivitiesParams(after: Option<real>, page: Option<int>, perPage: Option<int>)

  /** `page` and `per_page` always, then `after` only when it was given. */
  function ActivitiesQuery(p: ActivitiesParams): (q: seq<(string, real)>)
    ensures |q| == if p.after.Some? then 3 else 2
    ensures q[0] == ("page", p.page.GetOr(1) as real)
    ensures q[1] == ("per_page", p.perPage.GetOr(200) as real)
    ensures p.after.Some? ==> q[2] == ("after", p.after.value)
  {
    var base := [("page", p.page.GetOr(1) as real), ("per_page", p.perPage.GetOr(200) as real)];
    if p.after.Some? then base + [("after", p.after.value)] else base
  }
}
