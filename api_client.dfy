/**
 * The HTTP client's bearer-token handling: the module state `token` and
 * `isFetchingToken`, the request interceptor that fetches a token when none
 * is held and writes the `Authorization` header, its error callback, and
 * `getAuthToken`, which posts to `/access_token` through the same client (and
 * so through the same interceptor) and stores the returned `access_token`.
 *
 * The network is not modelled: the outcome of the token request is passed in.
 * Each call runs to completion before the next one starts; the interleavings
 * of concurrent calls at their `await` points are not modelled.
 */
module ApiClient {
  import opened Wrappers

  // ---------------------------------------------------------------------------
  // Values
  // ---------------------------------------------------------------------------

  /** The values `token` can hold: `null` at start, or what `access_token` was. */
  datatype JsValue = Null | Undefined | Str(s: string)

  /** JavaScript truthiness: `!token` holds for `null`, `undefined` and `""`. */
  predicate Truthy(v: JsValue) {
    v.Str? && v.s != ""
  }

  /** How a value prints inside a template literal (`${token}`). */
  function Interpolated(v: JsValue): string {
    match v
    case Null => "null"
    case Undefined => "undefined"
    case Str(s) => s
  }

  /** The outcome of the POST to `/access_token`. */
  datatype FetchOutcome =
    | Fetched(accessToken: JsValue)   // the response's `data.access_token`
    | FetchFailed(message: string)    // the thrown error's `message`

  /** A request configuration: the URL and the headers; nothing else is touched. */
  datatype Config = Config(url: string, headers: map<string, string>)

  /** What an interceptor returns: the configuration to send, or a rejected promise. */
  datatype Intercepted = Proceed(config: Config) | Rejected(message: string)

  const AuthorizationHeader: string := "Authorization"

  /** The configuration of the token request, with the client's default header. */
  const TokenRequestConfig: Config :=
    Config("/access_token", map["Content-Type" := "application/json"])

  /** The configuration with its `Authorization` header set to `Bearer ` and the printed token. */
  function WithBearer(config: Config, token: JsValue): (r: Config)
    ensures r.url == config.url
    ensures AuthorizationHeader in r.headers
    ensures r.headers[AuthorizationHeader] == "Bearer " + Interpolated(token)
    ensures forall h :: h in config.headers && h != AuthorizationHeader ==>
              h in r.headers && r.headers[h] == config.headers[h]
    ensures forall h :: h in r.headers ==> h in config.headers || h == AuthorizationHeader
  {
    config.(headers := config.headers[AuthorizationHeader := "Bearer " + Interpolated(token)])
  }

  /** The interceptor's error callback: it rejects with the error it was given. */
  function OnRequestError(message: string): (r: Intercepted)
    ensures r.Rejected? && r.message == message
  {
    Rejected(message)
  }

  // ---------------------------------------------------------------------------
  // The interceptor as a function of the module state
  // ---------------------------------------------------------------------------

  /** The module-level `let token` and `let isFetchingToken`. */
  datatype ClientState = ClientState(token: JsValue, isFetchingToken: bool)

  const InitialState: ClientState := ClientState(Null, false)

  /**
   * One interceptor call: the state afterwards, what the interceptor returns,
   * and the configuration of the token request if it started one.
   */
  datatype Step = Step(state: ClientState, result: Intercepted, tokenRequest: Option<Config>)

  /** The interceptor, call by call: `s` is the state on entry. */
  function InterceptSpec(s: ClientState, config: Config, fetch: FetchOutcome): Step {
    if Truthy(s.token) || s.isFetchingToken then
      Step(s, Proceed(WithBearer(config, s.token)), None)
    else
      var sent := Some(WithBearer(TokenRequestConfig, s.token));
      match fetch
      case FetchFailed(m) => Step(ClientState(s.token, false), Rejected(m), sent)
      case Fetched(t) => Step(ClientState(t, false), Proceed(WithBearer(config, t)), sent)
  }

  // ---------------------------------------------------------------------------
  // The module state, updated in place
  // ---------------------------------------------------------------------------

  class TokenClient {
    var token: JsValue
    var isFetchingToken: bool

    function State(): ClientState
      reads this
    {
      ClientState(token, isFetchingToken)
    }

    /** The module state on load: no token, and no fetch under way. */
    constructor ()
      ensures State() == InitialState
    {
      token := Null;
      isFetchingToken := false;
    }

    /**
     * `getAuthToken`: posts the token request through the client, so the
     * interceptor runs for it too (with the flag already set, it only writes
     * the header), then stores `access_token` in `token` and returns it. A
     * failure is rethrown as a new error with the same message and leaves
     * `token` as it was. Its only caller sets `isFetchingToken` first.
     */
    method GetAuthToken(fetch: FetchOutcome) returns (r: Result<JsValue, string>, request: Config)
      requires isFetchingToken
      modifies this
      decreases 1
      ensures isFetchingToken
      ensures request == WithBearer(TokenRequestConfig, old(token))
      ensures fetch.Fetched? ==> r == Ok(fetch.accessToken) && token == fetch.accessToken
      ensures fetch.FetchFailed? ==> r == Err(fetch.message) && token == old(token)
    {
      var sent, _ := Intercept(TokenRequestConfig, fetch);
      request := sent.config;
      match fetch
      case FetchFailed(m) =>
        r := Err(m);
      case Fetched(t) =>
        token := t;
        r := Ok(t);
    }

    /**
     * The request interceptor. With no truthy token and no fetch under way it
     * sets the flag, fetches a token, and resets the flag whether the fetch
     * succeeds or fails; a failure rejects the request. With a fetch already
     * under way it does nothing special. Every request that is not rejected
     * gets the header `Bearer ${token}`.
     */
    method Intercept(config: Config, fetch: FetchOutcome) returns (r: Intercepted, tokenRequest: Option<Config>)
      modifies this
      decreases if isFetchingToken then 0 else 2
      ensures Step(State(), r, tokenRequest) == InterceptSpec(old(State()), config, fetch)
    {
      tokenRequest := None;
      if !Truthy(token) {
        if !isFetchingToken {
          isFetchingToken := true;
          var got, sent := GetAuthToken(fetch);
          tokenRequest := Some(sent);
          match got
          case Err(m) =>
            isFetchingToken := false;
            r := Rejected(m);
            return;
          case Ok(t) =>
            token := t;
            isFetchingToken := false;
        } else {
          // a fetch is already under way: nothing is done here
        }
      }
      r := Proceed(WithBearer(config, token));
    }
  }

  // ---------------------------------------------------------------------------
  // Properties of one call
  // ---------------------------------------------------------------------------

  /** With a truthy token no fetch starts, the state is untouched, and the header carries the token. */
  lemma TokenHeldNoFetch(s: ClientState, config: Config, fetch: FetchOutcome)
    requires Truthy(s.token)
    ensures InterceptSpec(s, config, fetch).tokenRequest == None
    ensures InterceptSpec(s, config, fetch).state == s
    ensures InterceptSpec(s, config, fetch).result == Proceed(WithBearer(config, s.token))
    ensures InterceptSpec(s, config, fetch).result.config.headers[AuthorizationHeader] == "Bearer " + s.token.s
  {
  }

  /**
   * With no truthy token and the flag clear, exactly one token request is
   * sent, and the flag is clear afterwards whatever the outcome. A success
   * stores `access_token` and the header uses it; a failure rejects the
   * request with the error's message and leaves `token` as it was.
   */
  lemma IdleFetchesOnce(s: ClientState, config: Config, fetch: FetchOutcome)
    requires !Truthy(s.token) && !s.isFetchingToken
    ensures InterceptSpec(s, config, fetch).tokenRequest.Some?
    ensures !InterceptSpec(s, config, fetch).state.isFetchingToken
    ensures fetch.Fetched? ==>
              InterceptSpec(s, config, fetch).state.token == fetch.accessToken &&
              InterceptSpec(s, config, fetch).result.Proceed? &&
              InterceptSpec(s, config, fetch).result.config.headers[AuthorizationHeader] ==
                "Bearer " + Interpolated(fetch.accessToken)
    ensures fetch.FetchFailed? ==>
              InterceptSpec(s, config, fetch).state.token == s.token &&
              InterceptSpec(s, config, fetch).result == Rejected(fetch.message)
  {
  }

  /**
   * With no truthy token and a fetch already under way, no second fetch
   * starts, nothing changes, and the request goes on with the falsy token
   * printed into the header (`Bearer null` at first).
   */
  lemma FetchUnderWayPassesThrough(s: ClientState, config: Config, fetch: FetchOutcome)
    requires !Truthy(s.token) && s.isFetchingToken
    ensures InterceptSpec(s, config, fetch).tokenRequest == None
    ensures InterceptSpec(s, config, fetch).state == s
    ensures InterceptSpec(s, config, fetch).result == Proceed(WithBearer(config, s.token))
    ensures s.token == Null ==>
              InterceptSpec(s, config, fetch).result.config.headers[AuthorizationHeader] == "Bearer null"
  {
  }

  /**
   * The token request itself passes through the interceptor with the flag set,
   * so from the initial state it is sent with the header `Bearer null`, and
   * its other headers are the client's defaults.
   */
  lemma FirstTokenRequestSendsBearerNull(config: Config, fetch: FetchOutcome)
    ensures InterceptSpec(InitialState, config, fetch).tokenRequest ==
              Some(Config("/access_token", map["Content-Type" := "application/json", AuthorizationHeader := "Bearer null"]))
  {
    assert "Bearer " + Interpolated(Null) == "Bearer null";
  }

  /** The interceptor changes nothing of a configuration but its `Authorization` header. */
  lemma OnlyAuthorizationChanges(s: ClientState, config: Config, fetch: FetchOutcome)
    ensures InterceptSpec(s, config, fetch).result.Proceed? ==>
              var out := InterceptSpec(s, config, fetch).result.config;
              out.url == config.url &&
              (forall h :: h in config.headers && h != AuthorizationHeader ==>
                 h in out.headers && out.headers[h] == config.headers[h]) &&
              (forall h :: h in out.headers ==> h in config.headers || h == AuthorizationHeader)
  {
  }

  /** A request is rejected only when a token request was sent and failed. */
  lemma RejectedOnlyOnFailedFetch(s: ClientState, config: Config, fetch: FetchOutcome)
    ensures InterceptSpec(s, config, fetch).result.Rejected? <==>
              !Truthy(s.token) && !s.isFetchingToken && fetch.FetchFailed?
  {
  }

  // ---------------------------------------------------------------------------
  // Properties of a sequence of calls, each finishing before the next
  // ---------------------------------------------------------------------------

  /** One request: its configuration and the outcome its token request would have. */
  datatype Call = Call(config: Config, fetch: FetchOutcome)

  /** The state after the calls, one after another. */
  function RunState(s: ClientState, calls: seq<Call>): ClientState
    decreases |calls|
  {
    if calls == [] then s
    else RunState(InterceptSpec(s, calls[0].config, calls[0].fetch).state, calls[1..])
  }

  /** What the interceptor returns for each of the calls, in order. */
  function RunResults(s: ClientState, calls: seq<Call>): (r: seq<Intercepted>)
    ensures |r| == |calls|
    decreases |calls|
  {
    if calls == [] then []
    else
      var step := InterceptSpec(s, calls[0].config, calls[0].fetch);
      [step.result] + RunResults(step.state, calls[1..])
  }

  /** The number of token requests the calls send. */
  function RunFetches(s: ClientState, calls: seq<Call>): nat
    decreases |calls|
  {
    if calls == [] then 0
    else
      var step := InterceptSpec(s, calls[0].config, calls[0].fetch);
      (if step.tokenRequest.Some? then 1 else 0) + RunFetches(step.state, calls[1..])
  }

  /**
   * When calls do not overlap, the flag is clear between them, so the
   * "fetch already under way" branch is never taken by a request of its own.
   */
  lemma {:induction false} FlagClearBetweenCalls(s: ClientState, calls: seq<Call>)
    requires !s.isFetchingToken
    ensures !RunState(s, calls).isFetchingToken
    decreases |calls|
  {
    if calls != [] {
      FlagClearBetweenCalls(InterceptSpec(s, calls[0].config, calls[0].fetch).state, calls[1..]);
    }
  }

  /** Once the token is truthy it is kept, and no further token request is sent. */
  lemma {:induction false} TruthyTokenIsKept(s: ClientState, calls: seq<Call>)
    requires Truthy(s.token)
    ensures RunState(s, calls) == s
    ensures RunFetches(s, calls) == 0
    decreases |calls|
  {
    if calls != [] {
      TruthyTokenIsKept(s, calls[1..]);
    }
  }

  /**
   * From the initial state, if the first token request returns a non-empty
   * `access_token`, that is the only token request the whole sequence sends,
   * and the token stays that value.
   */
  lemma {:induction false} OneFetchAfterSuccess(calls: seq<Call>, t: string)
    requires |calls| > 0 && calls[0].fetch == Fetched(Str(t)) && t != ""
    ensures RunFetches(InitialState, calls) == 1
    ensures RunState(InitialState, calls) == ClientState(Str(t), false)
  {
    TruthyTokenIsKept(ClientState(Str(t), false), calls[1..]);
  }

  /**
   * When every token request fails, every call sends one, every call is
   * rejected, and the state returns to the initial one: nothing is stuck.
   */
  lemma {:induction false} FailuresRetryEveryCall(calls: seq<Call>)
    requires forall i :: 0 <= i < |calls| ==> calls[i].fetch.FetchFailed?
    ensures RunFetches(InitialState, calls) == |calls|
    ensures RunState(InitialState, calls) == InitialState
    ensures forall i :: 0 <= i < |calls| ==>
              RunResults(InitialState, calls)[i] == Rejected(calls[i].fetch.message)
    decreases |calls|
  {
    if calls != [] {
      assert forall i :: 0 <= i < |calls[1..]| ==> calls[1..][i] == calls[i + 1];
      FailuresRetryEveryCall(calls[1..]);
    }
  }

  /**
   * A token request that succeeds with an empty or missing `access_token`
   * leaves the token falsy, so the next call sends another token request.
   */
  lemma FalsyTokenRefetches(s: ClientState, config: Config, t: JsValue, next: Call)
    requires !Truthy(s.token) && !s.isFetchingToken && !Truthy(t)
    ensures RunFetches(s, [Call(config, Fetched(t)), next]) == 2
  {
    var calls := [Call(config, Fetched(t)), next];
    var after := InterceptSpec(s, config, Fetched(t)).state;
    assert after == ClientState(t, false);
    assert calls[1..] == [next] && [next][1..] == [];
    assert RunFetches(after, [next]) == 1;
  }
}
