/** The identity-provider client (src/auth0_api.rs): request strings, the token-cache decision,
    the token fetch, and the bulk delete that drains a queue of users.

    Everything the program takes from outside (the configuration file, the clock, JWT decoding
    and the answers of the remote API) is a field of `Env`. What the program does to the outside
    (requests, persisting the configuration, messages) is a trace of `Effect`s, and a Rust panic
    (`expect` on `None` or `Err`) is a `Panic` that ends the run. */
module Auth0 {
  import opened Wrappers
  import opened Json
  import opened Users
  import opened Configuration

  /** The number of delete workers (`N_WORKERS`). */
  const NWorkers := 8

  /** Nanoseconds in a second: `SystemTime` has sub-second precision. */
  const NanosPerSecond := 1_000_000_000

  /** An authenticated client: the tenant domain and the bearer token sent with each call. */
  datatype Auth0Api = Auth0Api(domain: string, access_token: string)

  /** The client-credentials request: where it is posted and its JSON body (all string fields). */
  datatype TokenRequest = TokenRequest(url: string, body: map<string, string>)

  /** What the token endpoint answered: no response at all, a body that is not JSON, or JSON. */
  datatype TokenResponse = TransportFailure | NotJson | Json(body: JsonValue)

  /** Messages printed by the delete command that the model keeps. */
  datatype Message =
    | CannotDeleteByIdAndPattern
    | CannotDeleteWithoutIdOrPattern
    | NoMatchingUsers
    | GoingToDelete(count: nat)

  /** One observable action. `succeeded` is whether the HTTP call returned a response. */
  datatype Effect =
    | TokenPost(request: TokenRequest)
    | Persist(config: Config)
    | UsersGet(url: string, bearer: string)
    | UserCreate(url: string, bearer: string, body: map<string, string>, succeeded: bool)
    | UserDelete(url: string, bearer: string, succeeded: bool)
    | Say(message: Message)

  /** The abort points of the program (`expect` failures). */
  datatype Panic =
    | UnknownApp(name: string)
    | TokenTransportFailed
    | TokenResponseNotJson
    | NoAccessTokenInResponse
    | UsersFetchFailed

  /** What happened: the effects in order, and a value or the panic that stopped the run. */
  datatype Run<T> = Run(effects: seq<Effect>, outcome: Result<T, Panic>)

  /** The world one invocation sees. `config` is what `read_config` returned, `now` the clock in
      nanoseconds since the Unix epoch, `decode` the unverified JWT decoder (`None` when the
      token does not decode), and the rest the answers of the remote API: the token endpoint's
      response, the decoded user list (`None` when fetching or decoding failed), and whether the
      delete call for a user id and the create call got a response. */
  datatype Env = Env(
    config: Config,
    now: int,
    decode: string -> Option<JsonValue>,
    tokenResponse: TokenResponse,
    users: Option<seq<User>>,
    deleteSucceeds: string -> bool,
    createSucceeds: bool)

  // ---------------------------------------------------------------- request strings

  /** The list and create endpoint of `fetch_users` and `create_user`. */
  function UsersEndpoint(domain: string): (url: string)
    ensures |url| == |domain| + 21
    ensures url[..8] == "https://" && url[8..|url| - 13] == domain && url[|url| - 13..] == "/api/v2/users"
  {
    "https://" + domain + "/api/v2/users"
  }

  /** The endpoint of `delete_user_by_id`. */
  function UserEndpoint(domain: string, id: string): (url: string)
    ensures url == UsersEndpoint(domain) + "/" + id
  {
    "https://" + domain + "/api/v2/users/" + id
  }

  /** The token endpoint of `fetch_access_token`. */
  function TokenEndpoint(domain: string): (url: string)
    ensures |url| == |domain| + 20
    ensures url[..8] == "https://" && url[8..|url| - 12] == domain && url[|url| - 12..] == "/oauth/token"
  {
    "https://" + domain + "/oauth/token"
  }

  /** The audience of the management token. */
  function Audience(domain: string): (aud: string)
    ensures aud + "users" == UsersEndpoint(domain)
  {
    "https://" + domain + "/api/v2/"
  }

  /** The body `fetch_access_token` posts. */
  function TokenRequestFor(app: AppConfig): (r: TokenRequest)
    ensures r.url == TokenEndpoint(app.domain)
    ensures r.body.Keys == {"grant_type", "client_id", "client_secret", "audience"}
    ensures r.body["grant_type"] == "client_credentials"
    ensures r.body["client_id"] == app.client_id && r.body["client_secret"] == app.client_secret
    ensures r.body["audience"] == Audience(app.domain)
  {
    TokenRequest(
      TokenEndpoint(app.domain),
      map["grant_type" := "client_credentials",
          "client_id" := app.client_id,
          "client_secret" := app.client_secret,
          "audience" := Audience(app.domain)])
  }

  /** The body `create_user` posts. */
  function CreateUserBody(email: string, password: string): (body: map<string, string>)
    ensures body.Keys == {"email", "password", "connection"}
    ensures body["email"] == email && body["password"] == password
    ensures body["connection"] == "Username-Password-Authentication"
  {
    map["email" := email, "password" := password, "connection" := "Username-Password-Authentication"]
  }

  /** The token is requested for the API that both user endpoints belong to. */
  lemma {:induction false} EndpointsUnderAudience(domain: string, id: string)
    ensures UsersEndpoint(domain) == Audience(domain) + "users"
    ensures UserEndpoint(domain, id) == UsersEndpoint(domain) + "/" + id
  {
    assert UsersEndpoint(domain) == "https://" + domain + "/api/v2/users";
    assert "/api/v2/users" == "/api/v2/" + "users";
    assert "/api/v2/users/" == "/api/v2/users" + "/";
  }

  /** Different user ids give different delete endpoints, so a DELETE names exactly one user. */
  lemma {:induction false} UserEndpointInjective(domain: string, a: string, b: string)
    requires UserEndpoint(domain, a) == UserEndpoint(domain, b)
    ensures a == b
  {
    var prefix := "https://" + domain + "/api/v2/users/";
    assert UserEndpoint(domain, a) == prefix + a && UserEndpoint(domain, b) == prefix + b;
    assert a == (prefix + a)[|prefix|..];
    assert b == (prefix + b)[|prefix|..];
  }

  /** The users endpoint determines the domain. */
  lemma {:induction false} UsersEndpointInjective(d1: string, d2: string)
    requires UsersEndpoint(d1) == UsersEndpoint(d2)
    ensures d1 == d2
  {
    var s1, s2 := UsersEndpoint(d1), UsersEndpoint(d2);
    assert d1 == s1[8..|s1| - 13];
    assert d2 == s2[8..|s2| - 13];
  }

  // ---------------------------------------------------------------- token validity

  /** `claims.get("exp").and_then(as_u64)`: the expiry in seconds, when it is an unsigned integer. */
  function ExpClaim(claims: JsonValue): (r: Option<u64>)
    ensures r.Some? <==> claims.Object? && "exp" in claims.fields && AsU64(claims.fields["exp"]).Some?
    ensures r.Some? ==> claims.fields["exp"] == Num(PosInt(r.value))
  {
    match Get(claims, "exp")
    case Some(v) => AsU64(v)
    case None => None
  }

  /** `UNIX_EPOCH + Duration::from_secs(exp)`, in nanoseconds since the epoch. */
  function ExpiryInstant(exp: u64): (t: int)
    ensures 0 <= t && t % NanosPerSecond == 0 && t / NanosPerSecond == exp as int
  {
    exp as int * NanosPerSecond
  }

  /** `access_token_still_valid`, given the decoder's result for the token and the clock. Fails
      closed: a token that does not decode, or has no unsigned `exp` claim, is not valid. */
  function AccessTokenStillValid(decoded: Option<JsonValue>, now: int): (r: bool)
    ensures decoded.None? ==> !r
    ensures decoded.Some? && ExpClaim(decoded.value).None? ==> !r
    ensures decoded.Some? && ExpClaim(decoded.value).Some? ==>
              (r <==> now < ExpiryInstant(ExpClaim(decoded.value).value))
  {
    match decoded
    case None => false
    case Some(claims) => ExpClaim(claims).Map(exp => now < ExpiryInstant(exp)).GetOr(false)
  }

  /** A claim that is present but not an unsigned integer (negative, fractional, a string, ...)
      makes the token invalid, as do claims that are not a JSON object. */
  lemma NonUnsignedExpIsInvalid(claims: JsonValue, now: int)
    requires !claims.Object? || "exp" !in claims.fields || !(claims.fields["exp"].Num? && claims.fields["exp"].number.PosInt?)
    ensures !AccessTokenStillValid(Some(claims), now)
  {
  }

  /** Validity only runs out: a token valid now was valid at every earlier time. */
  lemma ValidityIsMonotone(decoded: Option<JsonValue>, earlier: int, now: int)
    requires earlier <= now
    ensures AccessTokenStillValid(decoded, now) ==> AccessTokenStillValid(decoded, earlier)
  {
  }

  /** At a whole second `s`, a token with expiry `exp` is valid iff `s < exp`; `s == exp` is not. */
  lemma {:induction false} ValidAtWholeSecond(claims: JsonValue, exp: u64, s: int)
    requires ExpClaim(claims) == Some(exp)
    ensures AccessTokenStillValid(Some(claims), s * NanosPerSecond) <==> s < exp as int
  {
    if s < exp as int {
      assert s * NanosPerSecond < exp as int * NanosPerSecond;
    } else {
      assert s * NanosPerSecond >= exp as int * NanosPerSecond;
    }
  }

  /** An expiry an hour ahead is valid, ten seconds ago is not. */
  lemma {:induction false} ValidityExamples(s: nat)
    requires s + 3600 < 0x1_0000_0000_0000_0000 && s >= 10
    ensures AccessTokenStillValid(Some(Object(map["exp" := Num(PosInt((s + 3600) as u64))])), s * NanosPerSecond)
    ensures !AccessTokenStillValid(Some(Object(map["exp" := Num(PosInt((s - 10) as u64))])), s * NanosPerSecond)
    ensures !AccessTokenStillValid(Some(Object(map["exp" := Str("9999999999")])), s * NanosPerSecond)
    ensures !AccessTokenStillValid(Some(Object(map[])), s * NanosPerSecond)
    ensures !AccessTokenStillValid(None, s * NanosPerSecond)
  {
    ValidAtWholeSecond(Object(map["exp" := Num(PosInt((s + 3600) as u64))]), (s + 3600) as u64, s);
    ValidAtWholeSecond(Object(map["exp" := Num(PosInt((s - 10) as u64))]), (s - 10) as u64, s);
  }

  // ---------------------------------------------------------------- token fetch and cache

  /** The match on the token response: `Some(t)` exactly when `access_token` is the string `t`. */
  function AccessTokenOfBody(body: JsonValue): (r: Option<string>)
    ensures r.Some? <==> Get(body, "access_token").Some? && Get(body, "access_token").value.Str?
    ensures r.Some? ==> Get(body, "access_token") == Some(Str(r.value))
  {
    match Get(body, "access_token")
    case Some(Str(token)) => Some(token)
    case _ => None
  }

  /** `fetch_access_token` after the POST: a missing response or a non-JSON body panics. */
  function FetchAccessToken(response: TokenResponse): (r: Result<Option<string>, Panic>)
    ensures response.TransportFailure? ==> r == Err(TokenTransportFailed)
    ensures response.NotJson? ==> r == Err(TokenResponseNotJson)
    ensures response.Json? ==> r.Ok? && (r.value.Some? <==> AccessTokenOfBody(response.body).Some?)
    ensures response.Json? && r.value.Some? ==> Get(response.body, "access_token") == Some(Str(r.value.value))
  {
    match response
    case TransportFailure => Err(TokenTransportFailed)
    case NotJson => Err(TokenResponseNotJson)
    case Json(body) => Ok(AccessTokenOfBody(body))
  }

  /** The cached token of `appName` exists and is still valid. */
  predicate CachedTokenValid(env: Env, appName: string)
    ensures CachedTokenValid(env, appName) ==> GetAccessToken(env.config, appName).Some?
    ensures GetAccessToken(env.config, appName).Some? ==>
              (CachedTokenValid(env, appName) <==>
               AccessTokenStillValid(env.decode(GetAccessToken(env.config, appName).value), env.now))
  {
    match GetAccessToken(env.config, appName)
    case Some(token) => AccessTokenStillValid(env.decode(token), env.now)
    case None => false
  }

  /** `Auth0Api::api_for_app` on the configuration in `env`. */
  function ApiForApp(env: Env, appName: string): (r: Run<Auth0Api>)
    // a client is obtained iff the app is known and its cached token is valid or a new one arrives
    ensures r.outcome.Ok? <==>
              GetAppConfig(env.config, appName).Some? &&
              (CachedTokenValid(env, appName) || (FetchAccessToken(env.tokenResponse).Ok? && FetchAccessToken(env.tokenResponse).value.Some?))
    // an unknown app aborts before any token lookup or fetch
    ensures GetAppConfig(env.config, appName).None? ==> r == Run([], Err(UnknownApp(appName)))
    // a valid cached token is used unchanged, with no fetch and no persist
    ensures GetAppConfig(env.config, appName).Some? && CachedTokenValid(env, appName) ==>
              r.effects == [] &&
              r.outcome == Ok(Auth0Api(GetAppConfig(env.config, appName).value.domain,
                                       GetAccessToken(env.config, appName).value))
    // otherwise exactly one token request is made first ...
    ensures GetAppConfig(env.config, appName).Some? && !CachedTokenValid(env, appName) ==>
              1 <= |r.effects| && r.effects[0] == TokenPost(TokenRequestFor(GetAppConfig(env.config, appName).value))
    // ... and on success the new token is cached under the app, persisted once, and used
    ensures r.outcome.Ok? && !CachedTokenValid(env, appName) ==>
              r.effects == [TokenPost(TokenRequestFor(GetAppConfig(env.config, appName).value)),
                            Persist(AddAccessToken(env.config, appName, r.outcome.value.access_token))] &&
              FetchAccessToken(env.tokenResponse) == Ok(Some(r.outcome.value.access_token))
    // the client always talks to the app's own domain
    ensures r.outcome.Ok? ==>
              GetAppConfig(env.config, appName).Some? &&
              r.outcome.value.domain == GetAppConfig(env.config, appName).value.domain
    // a failed fetch aborts after the request without persisting anything
    ensures r.outcome.Err? ==> |r.effects| <= 1 && forall e :: e in r.effects ==> e.TokenPost?
    // the panic of a failed fetch is that of the response, or the missing token
    ensures GetAppConfig(env.config, appName).Some? && !CachedTokenValid(env, appName) && r.outcome.Err? ==>
              r.outcome.error ==
                (if FetchAccessToken(env.tokenResponse).Err? then FetchAccessToken(env.tokenResponse).error
                 else NoAccessTokenInResponse)
    // obtaining a client never calls the user endpoints
    ensures forall e :: e in r.effects ==> e.TokenPost? || e.Persist?
  {
    match GetAppConfig(env.config, appName)
    case None => Run([], Err(UnknownApp(appName)))
    case Some(app) =>
      if CachedTokenValid(env, appName) then
        Run([], Ok(Auth0Api(app.domain, GetAccessToken(env.config, appName).value)))
      else
        var post := [TokenPost(TokenRequestFor(app))];
        match FetchAccessToken(env.tokenResponse)
        case Err(panic) => Run(post, Err(panic))
        case Ok(None) => Run(post, Err(NoAccessTokenInResponse))
        case Ok(Some(token)) =>
          Run(post + [Persist(AddAccessToken(env.config, appName, token))], Ok(Auth0Api(app.domain, token)))
  }

  /** A missing or invalid cached token and a token response carrying `token` give a client with
      that token, after one token request and one persist of the configuration caching it. */
  lemma {:induction false} RefreshRun(env: Env, appName: string, app: AppConfig, token: string)
    requires GetAppConfig(env.config, appName) == Some(app)
    requires !CachedTokenValid(env, appName)
    requires FetchAccessToken(env.tokenResponse) == Ok(Some(token))
    ensures ApiForApp(env, appName) ==
              Run([TokenPost(TokenRequestFor(app)), Persist(AddAccessToken(env.config, appName, token))],
                  Ok(Auth0Api(app.domain, token)))
  {
  }

  /** After a refresh, the configuration that is persisted hands back the new token for the
      app and still holds every profile of the one that was read. */
  lemma {:induction false} RefreshedTokenIsPersisted(env: Env, appName: string)
    requires !CachedTokenValid(env, appName)
    requires ApiForApp(env, appName).outcome.Ok?
    ensures |ApiForApp(env, appName).effects| == 2 && ApiForApp(env, appName).effects[1].Persist?
    ensures GetAccessToken(ApiForApp(env, appName).effects[1].config, appName)
              == Some(ApiForApp(env, appName).outcome.value.access_token)
    ensures forall n :: GetAppConfig(ApiForApp(env, appName).effects[1].config, n) == GetAppConfig(env.config, n)
  {
    var r := ApiForApp(env, appName);
    assert r.effects[1] == Persist(AddAccessToken(env.config, appName, r.outcome.value.access_token));
  }

  // ---------------------------------------------------------------- bulk delete

  /** `delete_user`: the DELETE request made for one user. */
  function DeleteUser(api: Auth0Api, u: User, deleteSucceeds: string -> bool): (e: Effect)
    ensures e.UserDelete? && e.url == UserEndpoint(api.domain, u.user_id) && e.bearer == api.access_token
    ensures e.succeeded == deleteSucceeds(u.user_id)
  {
    UserDelete(UserEndpoint(api.domain, u.user_id), api.access_token, deleteSucceeds(u.user_id))
  }

  /** The deletions of `users`, one per user and in queue order. */
  function DeleteAll(api: Auth0Api, users: seq<User>, deleteSucceeds: string -> bool): (log: seq<Effect>)
    ensures |log| == |users|
    ensures forall i :: 0 <= i < |users| ==> log[i] == DeleteUser(api, users[i], deleteSucceeds)
  {
    if users == [] then [] else [DeleteUser(api, users[0], deleteSucceeds)] + DeleteAll(api, users[1..], deleteSucceeds)
  }

  /** The urls that received a DELETE, in order. */
  function DeletedUrls(log: seq<Effect>): (urls: seq<string>)
    ensures |urls| <= |log|
    ensures forall i :: 0 <= i < |log| && log[i].UserDelete? ==> log[i].url in urls
    ensures forall u :: u in urls ==> exists i :: 0 <= i < |log| && log[i].UserDelete? && log[i].url == u
  {
    if log == [] then []
    else (if log[0].UserDelete? then [log[0].url] else []) + DeletedUrls(log[1..])
  }

  /** A trace without DELETE requests yields no deleted urls. */
  lemma {:induction false} NoDeletesNoUrls(log: seq<Effect>)
    requires forall e :: e in log ==> !e.UserDelete?
    ensures DeletedUrls(log) == []
  {
    if log != [] {
      assert log[0] in log;
      assert forall e :: e in log[1..] ==> e in log;
      NoDeletesNoUrls(log[1..]);
    }
  }

  /** The delete endpoint of each user. */
  function UserUrls(domain: string, users: seq<User>): (urls: seq<string>)
    ensures |urls| == |users|
    ensures forall i :: 0 <= i < |users| ==> urls[i] == UserEndpoint(domain, users[i].user_id)
  {
    if users == [] then [] else [UserEndpoint(domain, users[0].user_id)] + UserUrls(domain, users[1..])
  }

  lemma {:induction false} DeleteAllAppend(api: Auth0Api, a: seq<User>, b: seq<User>, deleteSucceeds: string -> bool)
    ensures DeleteAll(api, a + b, deleteSucceeds) == DeleteAll(api, a, deleteSucceeds) + DeleteAll(api, b, deleteSucceeds)
  {
    var l, r := DeleteAll(api, a + b, deleteSucceeds), DeleteAll(api, a, deleteSucceeds) + DeleteAll(api, b, deleteSucceeds);
    assert |l| == |r|;
    forall i | 0 <= i < |l| ensures l[i] == r[i] {
      if i < |a| {
        assert (a + b)[i] == a[i];
      } else {
        assert (a + b)[i] == b[i - |a|];
      }
    }
  }

  lemma {:induction false} DeleteAllSnoc(api: Auth0Api, users: seq<User>, k: nat, deleteSucceeds: string -> bool)
    requires k < |users|
    ensures DeleteAll(api, users[..k + 1], deleteSucceeds) == DeleteAll(api, users[..k], deleteSucceeds) + [DeleteUser(api, users[k], deleteSucceeds)]
  {
    assert users[..k + 1] == users[..k] + [users[k]];
    DeleteAllAppend(api, users[..k], [users[k]], deleteSucceeds);
  }

  lemma {:induction false} DeletedUrlsAppend(a: seq<Effect>, b: seq<Effect>)
    ensures DeletedUrls(a + b) == DeletedUrls(a) + DeletedUrls(b)
  {
    if a == [] {
      assert a + b == b;
    } else {
      assert (a + b)[1..] == a[1..] + b;
      DeletedUrlsAppend(a[1..], b);
    }
  }

  /** The deletions hit exactly the users' endpoints, in queue order, whatever each call answers. */
  lemma {:induction false} DeleteAllUrls(api: Auth0Api, users: seq<User>, deleteSucceeds: string -> bool)
    ensures DeletedUrls(DeleteAll(api, users, deleteSucceeds)) == UserUrls(api.domain, users)
  {
    if users != [] {
      var log := DeleteAll(api, users, deleteSucceeds);
      assert log == [log[0]] + log[1..];
      DeletedUrlsAppend([log[0]], log[1..]);
      assert log[1..] == DeleteAll(api, users[1..], deleteSucceeds);
      DeleteAllUrls(api, users[1..], deleteSucceeds);
    }
  }

  /** An element found at exactly one index of a sequence occurs there once. */
  lemma {:induction false} CountAtSingleIndex<X>(s: seq<X>, k: nat, x: X)
    requires k < |s| && s[k] == x
    requires forall j :: 0 <= j < |s| && s[j] == x ==> j == k
    ensures multiset(s)[x] == 1
  {
    assert s == [s[0]] + s[1..];
    if k == 0 {
      assert x !in s[1..];
    } else {
      CountAtSingleIndex(s[1..], k - 1, x);
    }
  }

  /** Users have distinct ids, as the identity API hands them out. */
  predicate DistinctIds(users: seq<User>)
  {
    forall i, j :: 0 <= i < |users| && 0 <= j < |users| && users[i].user_id == users[j].user_id ==> i == j
  }

  /** With distinct user ids, the endpoint of each user occurs exactly once among the
      endpoints of all users. */
  lemma {:induction false} EachUserUrlOnce(domain: string, users: seq<User>, k: nat)
    requires k < |users| && DistinctIds(users)
    ensures multiset(UserUrls(domain, users))[UserEndpoint(domain, users[k].user_id)] == 1
  {
    var urls := UserUrls(domain, users);
    var target := UserEndpoint(domain, users[k].user_id);
    forall j | 0 <= j < |urls| && urls[j] == target ensures j == k {
      UserEndpointInjective(domain, users[j].user_id, users[k].user_id);
    }
    CountAtSingleIndex(urls, k, target);
  }

  /** A crossbeam unbounded channel: `send` appends, `try_recv` takes the oldest item or reports
      that the channel is empty. */
  class Channel<T> {
    var pending: seq<T>

    constructor ()
      ensures pending == []
    {
      pending := [];
    }

    method Send(x: T)
      modifies this
      ensures pending == old(pending) + [x]
    {
      pending := pending + [x];
    }

    method TryRecv() returns (r: Option<T>)
      modifies this
      ensures old(pending) == [] ==> r == None && pending == []
      ensures old(pending) != [] ==> r == Some(old(pending)[0]) && pending == old(pending)[1..]
    {
      if pending == [] {
        r := None;
      } else {
        r := Some(pending[0]);
        pending := pending[1..];
      }
    }
  }

  /** `par_delete_users`: every user is sent into the channel before any worker starts; each of
      the `NWorkers` workers then receives and deletes until the channel is empty. The workers are
      run one after another, which is one of the schedules the threads allow. */
  method ParDeleteUsers(api: Auth0Api, users: seq<User>, deleteSucceeds: string -> bool) returns (log: seq<Effect>)
    ensures log == DeleteAll(api, users, deleteSucceeds)
    ensures DeletedUrls(log) == UserUrls(api.domain, users)
  {
    var channel := new Channel<User>();
    for i := 0 to |users|
      invariant channel.pending == users[..i]
    {
      channel.Send(users[i]);
    }
    assert users[..|users|] == users;
    log := [];
    ghost var done := 0;
    for w := 0 to NWorkers
      invariant done <= |users| && channel.pending == users[done..]
      invariant log == DeleteAll(api, users[..done], deleteSucceeds)
      invariant w > 0 ==> done == |users|
    {
      var drained := false;
      while !drained
        invariant done <= |users| && channel.pending == users[done..]
        invariant log == DeleteAll(api, users[..done], deleteSucceeds)
        invariant drained ==> done == |users|
        decreases |users| - done, !drained
      {
        var next := channel.TryRecv();
        match next {
          case Some(u) =>
            DeleteAllSnoc(api, users, done, deleteSucceeds);
            log := log + [DeleteUser(api, u, deleteSucceeds)];
            done := done + 1;
          case None =>
            drained := true;
        }
      }
    }
    DeleteAllUrls(api, users, deleteSucceeds);
  }
}
