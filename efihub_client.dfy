/** The base client (`EfihubClient`): URL joining, the token cache, and the
    request protocol that retries exactly once after a 401.

    The client's state is its view of the shared cache, the clock and the log
    of every exchange it made. Each operation is first given as a function
    from the old state to the new state and a result (`TokenStep`,
    `RequestStep`); the class `EfihubClient` below performs the same steps in
    place and its methods are proved to agree with those functions. */
module Efihub {
  import opened Wrappers
  import opened Json
  import opened Php
  import opened Http

  /** The four `config('efihub.*')` values the client reads. */
  datatype Config = Config(tokenUrl: string, clientId: string, clientSecret: string, apiBaseUrl: string)

  /** The fixed surroundings of a client: its configuration and the remote
      side. The transport answers the request with the given position in the
      log, so it can be any script of responses, and may look at the request. */
  datatype Env = Env(config: Config, transport: (nat, Outgoing) -> Response)

  /** The token stays in the cache for 55 minutes, 55 * 60 seconds. */
  const TokenTtl: int := 3300

  /** A cache entry and the clock reading from which it no longer counts. */
  datatype CacheEntry = CacheEntry(value: JValue, expiresAt: int)

  /** The cache's entry under `efihub_access_token`, the only key the client
      uses (if any), the clock, and every exchange so far. */
  datatype State = State(cache: Option<CacheEntry>, now: int, log: seq<Exchange>)

  /** The exception thrown when the token endpoint answers 4xx or 5xx. */
  datatype Error = TokenFetchFailed

  // ---------------------------------------------------------------------
  // URL joining

  /** `rtrim(base, '/') . '/' . ltrim(endpoint, '/')`. */
  function JoinUrl(base: string, endpoint: string): string {
    TrimRight(base, '/') + "/" + TrimLeft(endpoint, '/')
  }

  /** The joined URL is the base up to its trailing slashes, one slash, and
      the endpoint from its first non-slash character on. */
  lemma JoinUrlOneSlash(base: string, endpoint: string)
    ensures exists m, n ::
      && 0 <= m <= |base| && 0 <= n <= |endpoint|
      && (forall i :: m <= i < |base| ==> base[i] == '/')
      && (forall i :: 0 <= i < n ==> endpoint[i] == '/')
      && (m == 0 || base[m - 1] != '/')
      && (n == |endpoint| || endpoint[n] != '/')
      && JoinUrl(base, endpoint) == base[..m] + "/" + endpoint[n..]
  {
    var head, tail := TrimRight(base, '/'), TrimLeft(endpoint, '/');
    TrimRightShape(base, '/');
    TrimLeftShape(endpoint, '/');
    var m, n := |head|, |endpoint| - |tail|;
    assert head == base[..m];
    assert tail == endpoint[n..];
  }

  /** However many slashes the base ends with or the endpoint starts with,
      the URL is the same. */
  lemma JoinUrlIgnoresSlashes(base: string, endpoint: string, k: nat, n: nat)
    ensures JoinUrl(base + Repeat('/', k), Repeat('/', n) + endpoint) == JoinUrl(base, endpoint)
  {
    TrimRightPadded(base, '/', k);
    TrimLeftPadded(endpoint, '/', n);
  }

  /** The three spellings of one URL join to the same string. */
  lemma JoinUrlExamples()
    ensures JoinUrl("https://x/", "/y") == "https://x/y"
    ensures JoinUrl("https://x", "y") == "https://x/y"
    ensures JoinUrl("https://x/", "y") == "https://x/y"
  {
    assert "https://x/" == "https://x" + Repeat('/', 1);
    assert "/y" == Repeat('/', 1) + "y";
    assert "y" == Repeat('/', 0) + "y";
    JoinUrlIgnoresSlashes("https://x", "y", 1, 1);
    JoinUrlIgnoresSlashes("https://x", "y", 1, 0);
  }

  // ---------------------------------------------------------------------
  // Token cache

  /** What `Cache::get('efihub_access_token')` yields, as `Cache::remember`
      reads it: a live entry holding a non-null value. */
  function CachedToken(s: State): Option<JValue> {
    match s.cache
    case Some(entry) => if s.now < entry.expiresAt && entry.value != JNull then Some(entry.value) else None
    case None => None
  }

  /** `Cache::forget('efihub_access_token')`. */
  function Forget(s: State): State {
    s.(cache := None)
  }

  /** The form posted to the token endpoint. */
  function TokenForm(c: Config): map<string, string> {
    map["client_id" := c.clientId, "client_secret" := c.clientSecret, "grant_type" := "client_credentials"]
  }

  function TokenRequestFor(c: Config): Outgoing {
    TokenRequest(c.tokenUrl, TokenForm(c))
  }

  /** One request through the transport, recorded in the log. */
  function SendStep(env: Env, s: State, o: Outgoing): (State, Response) {
    var response := env.transport(|s.log|, o);
    (s.(log := s.log + [Exchange(o, response)]), response)
  }

  /** The callback of `Cache::remember`: a form POST to the token endpoint;
      a 4xx/5xx answer throws, any other has its `access_token` cached. */
  function FetchStep(env: Env, s: State): (State, Result<JValue, Error>) {
    var (s1, response) := SendStep(env, s, TokenRequestFor(env.config));
    if Failed(response) then (s1, Err(TokenFetchFailed))
    else
      var token := DataGet(response.body, ["access_token"]);
      (s1.(cache := Some(CacheEntry(token, s1.now + TokenTtl))), Ok(token))
  }

  /** `getAccessToken`: the cached token, or on a miss the fetched one. */
  function TokenStep(env: Env, s: State): (State, Result<JValue, Error>) {
    match CachedToken(s)
    case Some(token) => (s, Ok(token))
    case None => FetchStep(env, s)
  }

  /** `$response->json('access_token')` is the one-segment path the model reads. */
  lemma AccessTokenPath(body: JValue)
    ensures JsonAt(body, "access_token") == DataGet(body, ["access_token"])
  {
    JsonAtKey(body, "access_token");
  }

  /** A cached token is returned as is: nothing is sent and nothing changes. */
  lemma CachedTokenReused(env: Env, s: State)
    requires CachedToken(s).Some?
    ensures TokenStep(env, s) == (s, Ok(CachedToken(s).value))
  {
  }

  /** On a miss exactly one request is sent, the token form to the token URL
      with the three fields and nothing else. */
  lemma TokenMissSendsForm(env: Env, s: State)
    requires CachedToken(s).None?
    ensures var s' := TokenStep(env, s).0;
      && |s'.log| == |s.log| + 1 && s'.log[..|s.log|] == s.log
      && s'.log[|s.log|].request == TokenRequest(env.config.tokenUrl, TokenForm(env.config))
      && TokenForm(env.config).Keys == {"client_id", "client_secret", "grant_type"}
      && TokenForm(env.config)["client_id"] == env.config.clientId
      && TokenForm(env.config)["client_secret"] == env.config.clientSecret
      && TokenForm(env.config)["grant_type"] == "client_credentials"
      && s'.now == s.now
  {
    assert (s.log + [TokenStep(env, s).0.log[|s.log|]])[..|s.log|] == s.log;
  }

  /** On a miss with a 4xx/5xx answer the call fails and the cache is left as it was. */
  lemma TokenFailureCachesNothing(env: Env, s: State)
    requires CachedToken(s).None?
    requires Failed(env.transport(|s.log|, TokenRequestFor(env.config)))
    ensures TokenStep(env, s).1 == Err(TokenFetchFailed)
    ensures TokenStep(env, s).0.cache == s.cache
  {
  }

  /** On a miss with any other answer (a 3xx too) its `access_token` is
      returned and stored under `efihub_access_token` until `now + TokenTtl`. */
  lemma TokenMissStoresToken(env: Env, s: State)
    requires CachedToken(s).None?
    requires !Failed(env.transport(|s.log|, TokenRequestFor(env.config)))
    ensures var token := DataGet(env.transport(|s.log|, TokenRequestFor(env.config)).body, ["access_token"]);
      && TokenStep(env, s).1 == Ok(token)
      && TokenStep(env, s).0.cache == Some(CacheEntry(token, s.now + TokenTtl))
  {
  }

  /** A fetched non-null token is served from the cache for the next
      `TokenTtl` seconds and not after. */
  lemma FetchedTokenLivesForTtl(env: Env, s: State, elapsed: nat)
    requires CachedToken(s).None?
    requires TokenStep(env, s).1.Ok? && TokenStep(env, s).1.value != JNull
    ensures var s' := TokenStep(env, s).0;
      CachedToken(s'.(now := s'.now + elapsed)) ==
        if elapsed < TokenTtl then Some(TokenStep(env, s).1.value) else None
  {
  }

  /** After `Forget` the next token call goes to the token endpoint. */
  lemma ForgetForcesFetch(env: Env, s: State)
    ensures CachedToken(Forget(s)).None?
    ensures TokenStep(env, Forget(s)) == FetchStep(env, Forget(s))
    ensures var s' := TokenStep(env, Forget(s)).0;
      |s'.log| == |s.log| + 1 && s'.log[|s.log|].request == TokenRequestFor(env.config)
  {
  }

  // ---------------------------------------------------------------------
  // Request protocol

  /** The second half of `request`, after a first answer of 401: forget the
      cached token, take a new one, and send the same request once more. */
  function RetryStep(env: Env, s: State, verb: Verb, url: string, options: map<string, JValue>)
    : (State, Result<Response, Error>)
  {
    var (s1, token) := TokenStep(env, Forget(s));
    if token.Err? then (s1, Err(token.error))
    else
      var (s2, response) := SendStep(env, s1, ApiRequest(verb, url, options, token.value));
      (s2, Ok(response))
  }

  /** `request` for the already joined URL: take a token and send once; on
      exactly 401 go on with `RetryStep`. A token failure is an error. */
  function RequestStep(env: Env, s: State, verb: Verb, url: string, options: map<string, JValue>)
    : (State, Result<Response, Error>)
  {
    var (s1, token) := TokenStep(env, s);
    if token.Err? then (s1, Err(token.error))
    else
      var (s2, response) := SendStep(env, s1, ApiRequest(verb, url, options, token.value));
      if response.status != 401 then (s2, Ok(response))
      else RetryStep(env, s2, verb, url, options)
  }

  /** The API attempts in a log: its exchanges that are neither token fetches nor uploads. */
  function Attempts(log: seq<Exchange>): (tries: seq<Exchange>)
    ensures |tries| <= |log|
    ensures forall i :: 0 <= i < |tries| ==> tries[i].request.ApiRequest?
    decreases |log|
  {
    if log == [] then []
    else (if log[0].request.ApiRequest? then [log[0]] else []) + Attempts(log[1..])
  }

  lemma {:induction false} AttemptsAppend(a: seq<Exchange>, b: seq<Exchange>)
    ensures Attempts(a + b) == Attempts(a) + Attempts(b)
    decreases |a|
  {
    if a == [] {
      assert a + b == b;
    } else {
      assert (a + b)[1..] == a[1..] + b;
      AttemptsAppend(a[1..], b);
    }
  }

  lemma AttemptsOne(e: Exchange)
    ensures Attempts([e]) == if e.request.ApiRequest? then [e] else []
  {
    assert [e][1..] == [];
  }

  /** A token step adds at most one exchange, a token fetch, and never an API request. */
  lemma TokenStepNoAttempt(env: Env, s: State)
    ensures var s' := TokenStep(env, s).0;
      && s.log <= s'.log && |s'.log| <= |s.log| + 1
      && Attempts(s'.log[|s.log|..]) == []
      && s'.now == s.now
  {
    var s' := TokenStep(env, s).0;
    if CachedToken(s).None? {
      assert s'.log[|s.log|..] == [s'.log[|s.log|]];
      AttemptsOne(s'.log[|s.log|]);
    } else {
      assert s'.log[|s.log|..] == [];
    }
  }

  /** With a first answer other than 401 exactly one API request is sent, its
      response is returned unchanged, and the cache is not cleared. */
  lemma RequestWithout401(env: Env, s: State, verb: Verb, url: string, options: map<string, JValue>)
    requires TokenStep(env, s).1.Ok?
    requires var (s1, t1) := TokenStep(env, s);
      env.transport(|s1.log|, ApiRequest(verb, url, options, t1.value)).status != 401
    ensures var (s1, t1) := TokenStep(env, s);
      var request := ApiRequest(verb, url, options, t1.value);
      var response := env.transport(|s1.log|, request);
      RequestStep(env, s, verb, url, options) ==
        (s1.(log := s1.log + [Exchange(request, response)]), Ok(response))
  {
  }

  /** After a 401 the token endpoint is asked again (the cache was forgotten);
      when it fails the error is returned and the cache stays empty. */
  lemma RetryTokenFailure(env: Env, s: State, verb: Verb, url: string, options: map<string, JValue>)
    requires Failed(env.transport(|s.log|, TokenRequestFor(env.config)))
    ensures var fetch := Exchange(TokenRequestFor(env.config), env.transport(|s.log|, TokenRequestFor(env.config)));
      var (s', r) := RetryStep(env, s, verb, url, options);
      && s'.log == s.log + [fetch]
      && r == Err(TokenFetchFailed)
      && s'.cache == None
  {
  }

  /** After a 401, with a new token fetched, the same request is sent once
      more with that token and its response is returned, whatever its status. */
  lemma RetryResends(env: Env, s: State, verb: Verb, url: string, options: map<string, JValue>)
    requires !Failed(env.transport(|s.log|, TokenRequestFor(env.config)))
    ensures var fetch := Exchange(TokenRequestFor(env.config), env.transport(|s.log|, TokenRequestFor(env.config)));
      var token := DataGet(fetch.response.body, ["access_token"]);
      var second := ApiRequest(verb, url, options, token);
      var (s', r) := RetryStep(env, s, verb, url, options);
      && s'.log == s.log + [fetch, Exchange(second, env.transport(|s.log| + 1, second))]
      && r == Ok(env.transport(|s.log| + 1, second))
      && s'.cache == Some(CacheEntry(token, s.now + TokenTtl))
  {
    var fetch := Exchange(TokenRequestFor(env.config), env.transport(|s.log|, TokenRequestFor(env.config)));
    var (s1, t) := TokenStep(env, Forget(s));
    assert s1.log == s.log + [fetch];
    var second := ApiRequest(verb, url, options, t.value);
    assert s1.log + [Exchange(second, env.transport(|s1.log|, second))]
      == s.log + [fetch, Exchange(second, env.transport(|s.log| + 1, second))];
  }

  /** With a first answer of 401 the rest of the request is `RetryStep`
      after that first exchange: the cached token is forgotten and a new one
      fetched (`RetryTokenFailure`, `RetryResends`). */
  lemma RequestAfter401(env: Env, s: State, verb: Verb, url: string, options: map<string, JValue>)
    requires TokenStep(env, s).1.Ok?
    requires var (s1, t1) := TokenStep(env, s);
      env.transport(|s1.log|, ApiRequest(verb, url, options, t1.value)).status == 401
    ensures var (s1, t1) := TokenStep(env, s);
      var request := ApiRequest(verb, url, options, t1.value);
      var first := Exchange(request, env.transport(|s1.log|, request));
      RequestStep(env, s, verb, url, options) ==
        RetryStep(env, s1.(log := s1.log + [first]), verb, url, options)
  {
  }

  /** The attempts of a log read from `i` on split at any later point `j`. */
  lemma AttemptsSplit(log: seq<Exchange>, i: nat, j: nat)
    requires i <= j <= |log|
    ensures Attempts(log[i..]) == Attempts(log[i..j]) + Attempts(log[j..])
  {
    assert log[i..] == log[i..j] + log[j..];
    AttemptsAppend(log[i..j], log[j..]);
  }

  /** The retry half sends at most one API request, and a successful result
      is that request's response. */
  lemma RetryAttempts(env: Env, s: State, verb: Verb, url: string, options: map<string, JValue>)
    ensures var (s', r) := RetryStep(env, s, verb, url, options);
      && s.log <= s'.log
      && var tries := Attempts(s'.log[|s.log|..]);
      && (r.Err? ==> tries == [])
      && (r.Ok? ==>
            |tries| == 1 && tries[0].response == r.value
            && tries[0].request.verb == verb && tries[0].request.url == url && tries[0].request.options == options)
  {
    var (s1, t) := TokenStep(env, Forget(s));
    TokenStepNoAttempt(env, Forget(s));
    if t.Ok? {
      var second := ApiRequest(verb, url, options, t.value);
      var e := Exchange(second, env.transport(|s1.log|, second));
      var s' := s1.(log := s1.log + [e]);
      assert RetryStep(env, s, verb, url, options) == (s', Ok(e.response));
      AttemptsSplit(s'.log, |s.log|, |s1.log|);
      assert s'.log[|s.log|..|s1.log|] == s1.log[|s.log|..];
      assert s'.log[|s1.log|..] == [e];
      AttemptsOne(e);
    }
  }

  /** What the attempts of one request look like: at most two API requests,
      all with the same verb, URL and options; a successful result is the
      last one's response; a second attempt happens only after a first answer
      of 401; an answer other than 401 ends the request. */
  ghost predicate AttemptsAgree(tries: seq<Exchange>, r: Result<Response, Error>,
                                verb: Verb, url: string, options: map<string, JValue>)
  {
    && |tries| <= 2
    && (forall i :: 0 <= i < |tries| ==>
          tries[i].request.ApiRequest? && tries[i].request.verb == verb
          && tries[i].request.url == url && tries[i].request.options == options)
    && (r.Ok? ==> |tries| >= 1 && r.value == tries[|tries| - 1].response)
    && (|tries| == 2 ==> tries[0].response.status == 401 && r.Ok?)
    && (|tries| >= 1 && tries[0].response.status != 401 ==> |tries| == 1 && r == Ok(tries[0].response))
    && (|tries| >= 1 && tries[0].response.status == 401 && r.Ok? ==> |tries| == 2)
  }

  predicate SameCall(e: Exchange, verb: Verb, url: string, options: map<string, JValue>) {
    e.request.ApiRequest? && e.request.verb == verb && e.request.url == url && e.request.options == options
  }

  lemma AgreeOne(e: Exchange, r: Result<Response, Error>, verb: Verb, url: string, options: map<string, JValue>)
    requires SameCall(e, verb, url, options)
    requires e.response.status != 401 ==> r == Ok(e.response)
    requires e.response.status == 401 ==> r.Err?
    ensures AttemptsAgree([e], r, verb, url, options)
  {
  }

  lemma AgreeTwo(e1: Exchange, e2: Exchange, r: Result<Response, Error>,
                 verb: Verb, url: string, options: map<string, JValue>)
    requires SameCall(e1, verb, url, options) && SameCall(e2, verb, url, options)
    requires e1.response.status == 401 && r == Ok(e2.response)
    ensures AttemptsAgree([e1, e2], r, verb, url, options)
  {
  }

  /** The attempts of a request whose token step fails: none. */
  lemma RequestAttemptsTokenFailed(env: Env, s: State, verb: Verb, url: string, options: map<string, JValue>)
    requires TokenStep(env, s).1.Err?
    ensures var (s', r) := RequestStep(env, s, verb, url, options);
      s.log <= s'.log && AttemptsAgree(Attempts(s'.log[|s.log|..]), r, verb, url, options)
  {
    TokenStepNoAttempt(env, s);
  }

  /** The first exchange of a request whose token step succeeds. */
  function FirstExchange(env: Env, s: State, verb: Verb, url: string, options: map<string, JValue>): (e: Exchange)
    requires TokenStep(env, s).1.Ok?
    ensures SameCall(e, verb, url, options)
  {
    var (s1, t1) := TokenStep(env, s);
    var request := ApiRequest(verb, url, options, t1.value);
    Exchange(request, env.transport(|s1.log|, request))
  }

  /** The log after the first exchange, and its attempts since `s`. */
  lemma FirstAttempt(env: Env, s: State, verb: Verb, url: string, options: map<string, JValue>)
    requires TokenStep(env, s).1.Ok?
    ensures var e1 := FirstExchange(env, s, verb, url, options);
      var s2 := TokenStep(env, s).0.(log := TokenStep(env, s).0.log + [e1]);
      s.log <= s2.log && Attempts(s2.log[|s.log|..]) == [e1]
  {
    var (s1, t1) := TokenStep(env, s);
    TokenStepNoAttempt(env, s);
    var e1 := FirstExchange(env, s, verb, url, options);
    var s2 := s1.(log := s1.log + [e1]);
    AttemptsOne(e1);
    AttemptsSplit(s2.log, |s.log|, |s1.log|);
    assert s2.log[|s.log|..|s1.log|] == s1.log[|s.log|..];
    assert s2.log[|s1.log|..] == [e1];
  }

  /** The attempts of a request whose first answer is not 401: that one. */
  lemma RequestAttemptsNo401(env: Env, s: State, verb: Verb, url: string, options: map<string, JValue>)
    requires TokenStep(env, s).1.Ok?
    requires FirstExchange(env, s, verb, url, options).response.status != 401
    ensures var (s', r) := RequestStep(env, s, verb, url, options);
      s.log <= s'.log && AttemptsAgree(Attempts(s'.log[|s.log|..]), r, verb, url, options)
  {
    var e1 := FirstExchange(env, s, verb, url, options);
    FirstAttempt(env, s, verb, url, options);
    AgreeOne(e1, Ok(e1.response), verb, url, options);
  }

  /** The attempts of a request whose first answer is 401: that one and at
      most one resend. */
  lemma RequestAttempts401(env: Env, s: State, verb: Verb, url: string, options: map<string, JValue>)
    requires TokenStep(env, s).1.Ok?
    requires FirstExchange(env, s, verb, url, options).response.status == 401
    ensures var (s', r) := RequestStep(env, s, verb, url, options);
      s.log <= s'.log && AttemptsAgree(Attempts(s'.log[|s.log|..]), r, verb, url, options)
  {
    var e1 := FirstExchange(env, s, verb, url, options);
    var s1 := TokenStep(env, s).0;
    var s2 := s1.(log := s1.log + [e1]);
    FirstAttempt(env, s, verb, url, options);
    RequestAfter401(env, s, verb, url, options);
    var (s', r) := RetryStep(env, s2, verb, url, options);
    RetryAttempts(env, s2, verb, url, options);
    AttemptsSplit(s'.log, |s.log|, |s2.log|);
    assert s'.log[|s.log|..|s2.log|] == s2.log[|s.log|..];
    var later := Attempts(s'.log[|s2.log|..]);
    assert Attempts(s'.log[|s.log|..]) == [e1] + later;
    if r.Ok? {
      assert [e1] + later == [e1, later[0]];
      AgreeTwo(e1, later[0], r, verb, url, options);
    } else {
      assert [e1] + later == [e1];
      AgreeOne(e1, r, verb, url, options);
    }
  }

  /** Every request's attempts agree with `AttemptsAgree`: at most two, the
      second only after a 401, and a successful result is the last answer. */
  lemma RequestAttempts(env: Env, s: State, verb: Verb, url: string, options: map<string, JValue>)
    ensures var (s', r) := RequestStep(env, s, verb, url, options);
      s.log <= s'.log && AttemptsAgree(Attempts(s'.log[|s.log|..]), r, verb, url, options)
  {
    if TokenStep(env, s).1.Err? {
      RequestAttemptsTokenFailed(env, s, verb, url, options);
    } else if FirstExchange(env, s, verb, url, options).response.status != 401 {
      RequestAttemptsNo401(env, s, verb, url, options);
    } else {
      RequestAttempts401(env, s, verb, url, options);
    }
  }

  /** The whole of a request whose first answer is 401 and whose new token
      fetch does not fail: after the token step's own exchanges the log holds
      the first attempt, a fetch from the token endpoint (never the stale
      cache), and a second attempt with the same verb, URL and options and
      the fresh token; that token is cached, and the second answer is the
      result whatever its status. */
  lemma RequestRetryTrace(env: Env, s: State, verb: Verb, url: string, options: map<string, JValue>)
    requires TokenStep(env, s).1.Ok?
    requires FirstExchange(env, s, verb, url, options).response.status == 401
    requires !Failed(env.transport(|TokenStep(env, s).0.log| + 1, TokenRequestFor(env.config)))
    ensures var s1 := TokenStep(env, s).0;
      var first := FirstExchange(env, s, verb, url, options);
      var fetch := Exchange(TokenRequestFor(env.config), env.transport(|s1.log| + 1, TokenRequestFor(env.config)));
      var token := DataGet(fetch.response.body, ["access_token"]);
      var second := ApiRequest(verb, url, options, token);
      var last := Exchange(second, env.transport(|s1.log| + 2, second));
      var (s', r) := RequestStep(env, s, verb, url, options);
      && s'.log == s1.log + [first, fetch, last]
      && s'.cache == Some(CacheEntry(token, s.now + TokenTtl))
      && s'.now == s.now
      && r == Ok(last.response)
  {
    var s1 := TokenStep(env, s).0;
    var first := FirstExchange(env, s, verb, url, options);
    var s2 := s1.(log := s1.log + [first]);
    TokenStepNoAttempt(env, s);
    RequestAfter401(env, s, verb, url, options);
    RetryResends(env, s2, verb, url, options);
    TokenStepNoAttempt(env, Forget(s2));
    var fetch := Exchange(TokenRequestFor(env.config), env.transport(|s2.log|, TokenRequestFor(env.config)));
    var token := DataGet(fetch.response.body, ["access_token"]);
    var second := ApiRequest(verb, url, options, token);
    assert s2.log + [fetch, Exchange(second, env.transport(|s2.log| + 1, second))]
      == s1.log + [first, fetch, Exchange(second, env.transport(|s1.log| + 2, second))];
  }

  // ---------------------------------------------------------------------
  // The client object

  /** The base client. Its fields are the client's own view of the shared
      cache, the clock and the log of exchanges; the configuration and the
      transport are fixed when it is made. */
  class EfihubClient {
    const env: Env
    var cache: Option<CacheEntry>
    var now: int
    var log: seq<Exchange>

    function Snapshot(): State
      reads this
    {
      State(cache, now, log)
    }

    constructor (config: Config, transport: (nat, Outgoing) -> Response, clock: int)
      ensures env == Env(config, transport)
      ensures Snapshot() == State(None, clock, [])
    {
      env := Env(config, transport);
      cache := None;
      now := clock;
      log := [];
    }

    /** The passing of time, as the cache's clock sees it. */
    method Tick(seconds: nat)
      modifies this
      ensures Snapshot() == old(Snapshot()).(now := old(now) + seconds)
    {
      now := now + seconds;
    }

    /** `Http::...->$method(url, options)` and friends: one exchange. */
    method Send(o: Outgoing) returns (response: Response)
      modifies this
      ensures (Snapshot(), response) == SendStep(env, old(Snapshot()), o)
    {
      response := env.transport(|log|, o);
      log := log + [Exchange(o, response)];
    }

    method GetAccessToken() returns (r: Result<JValue, Error>)
      modifies this
      ensures (Snapshot(), r) == TokenStep(env, old(Snapshot()))
    {
      var cached := CachedToken(Snapshot());
      if cached.Some? {
        return Ok(cached.value);
      }
      ghost var s0 := Snapshot();
      var response := Send(TokenRequestFor(env.config));
      ghost var s1 := Snapshot();
      assert (s1, response) == SendStep(env, s0, TokenRequestFor(env.config));
      if Failed(response) {
        assert FetchStep(env, s0) == (s1, Err(TokenFetchFailed));
        return Err(TokenFetchFailed);
      }
      var token := DataGet(response.body, ["access_token"]);
      cache := Some(CacheEntry(token, now + TokenTtl));
      assert FetchStep(env, s0) == (s1.(cache := Some(CacheEntry(token, s1.now + TokenTtl))), Ok(token));
      return Ok(token);
    }

    /** `request(method, endpoint, options)`. */
    method Request(verb: Verb, endpoint: string, options: map<string, JValue> := map[]) returns (r: Result<Response, Error>)
      modifies this
      ensures (Snapshot(), r) == RequestStep(env, old(Snapshot()), verb, JoinUrl(env.config.apiBaseUrl, endpoint), options)
    {
      var token := GetAccessToken();
      if token.Err? {
        return Err(token.error);
      }
      var url := JoinUrl(env.config.apiBaseUrl, endpoint);
      var response := Send(ApiRequest(verb, url, options, token.value));
      if response.status == 401 {
        ghost var s2 := Snapshot();
        cache := None;
        assert Snapshot() == Forget(s2);
        token := GetAccessToken();
        if token.Err? {
          return Err(token.error);
        }
        response := Send(ApiRequest(verb, url, options, token.value));
      }
      return Ok(response);
    }

    method Get(endpoint: string, options: map<string, JValue> := map[]) returns (r: Result<Response, Error>)
      modifies this
      ensures (Snapshot(), r) == RequestStep(env, old(Snapshot()), Verb.Get, JoinUrl(env.config.apiBaseUrl, endpoint), options)
    {
      r := Request(Verb.Get, endpoint, options);
    }

    method Post(endpoint: string, options: map<string, JValue> := map[]) returns (r: Result<Response, Error>)
      modifies this
      ensures (Snapshot(), r) == RequestStep(env, old(Snapshot()), Verb.Post, JoinUrl(env.config.apiBaseUrl, endpoint), options)
    {
      r := Request(Verb.Post, endpoint, options);
    }

    method Put(endpoint: string, options: map<string, JValue> := map[]) returns (r: Result<Response, Error>)
      modifies this
      ensures (Snapshot(), r) == RequestStep(env, old(Snapshot()), Verb.Put, JoinUrl(env.config.apiBaseUrl, endpoint), options)
    {
      r := Request(Verb.Put, endpoint, options);
    }

    method Delete(endpoint: string, options: map<string, JValue> := map[]) returns (r: Result<Response, Error>)
      modifies this
      ensures (Snapshot(), r) == RequestStep(env, old(Snapshot()), Verb.Delete, JoinUrl(env.config.apiBaseUrl, endpoint), options)
    {
      r := Request(Verb.Delete, endpoint, options);
    }

    /** `postMultipart(endpoint, fields, files)`, whose body is not part of
        this model: one exchange that records what was asked for. */
    method PostMultipart(endpoint: string, fields: map<string, JValue>, files: map<string, FileSpec>)
      returns (response: Response)
      modifies this
      ensures (Snapshot(), response) == SendStep(env, old(Snapshot()), MultipartRequest(endpoint, fields, files))
    {
      response := Send(MultipartRequest(endpoint, fields, files));
    }
  }
}
