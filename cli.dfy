/** The command surface (src/main.rs) after argument parsing: the delete command's dispatch on
    `--id` and `--pattern`, the two delete paths, user creation, and the two configuration
    commands. The configuration these read is `env.config` (or `config`), what `read_config`
    returned. */
module Cli {
  import opened Wrappers
  import opened Users
  import opened Configuration
  import opened Auth0

  /** What `delete` does with its two optional arguments. */
  datatype DeleteAction = ById(id: string) | ByPattern(pattern: string) | Reject(message: Message)

  /** The `match (id, pattern)` of the delete command. */
  function DeleteDispatch(id: Option<string>, pattern: Option<string>): (a: DeleteAction)
    ensures a.ById? <==> id.Some? && pattern.None?
    ensures a.ById? ==> a.id == id.value
    ensures a.ByPattern? <==> id.None? && pattern.Some?
    ensures a.ByPattern? ==> a.pattern == pattern.value
    ensures a == Reject(CannotDeleteByIdAndPattern) <==> id.Some? && pattern.Some?
    ensures a == Reject(CannotDeleteWithoutIdOrPattern) <==> id.None? && pattern.None?
  {
    match (id, pattern)
    case (Some(i), None) => ById(i)
    case (None, Some(p)) => ByPattern(p)
    case (Some(_), Some(_)) => Reject(CannotDeleteByIdAndPattern)
    case (None, None) => Reject(CannotDeleteWithoutIdOrPattern)
  }

  /** `users.iter().filter(|user| user.matches(pattern))`: the users that match, in order. */
  function MatchingUsers(users: seq<User>, pattern: string): (r: seq<User>)
    ensures |r| <= |users|
    ensures forall u :: u in r ==> Matches(u, pattern)
    ensures forall u :: Matches(u, pattern) ==> multiset(r)[u] == multiset(users)[u]
  {
    if users == [] then []
    else
      assert users == [users[0]] + users[1..];
      (if Matches(users[0], pattern) then [users[0]] else []) + MatchingUsers(users[1..], pattern)
  }

  /** The filter keeps every copy of a matching user and no copy of any other. */
  lemma MatchingUsersCount(users: seq<User>, pattern: string, u: User)
    ensures multiset(MatchingUsers(users, pattern))[u] == if Matches(u, pattern) then multiset(users)[u] else 0
  {
    if !Matches(u, pattern) {
      assert u !in MatchingUsers(users, pattern);
    }
  }

  /** Filtering keeps the order of the fetched list: it distributes over concatenation. */
  lemma {:induction false} MatchingUsersAppend(a: seq<User>, b: seq<User>, pattern: string)
    ensures MatchingUsers(a + b, pattern) == MatchingUsers(a, pattern) + MatchingUsers(b, pattern)
  {
    if a == [] {
      assert a + b == b;
    } else {
      assert (a + b)[1..] == a[1..] + b;
      MatchingUsersAppend(a[1..], b, pattern);
    }
  }

  /** With the empty pattern every fetched user is selected. */
  lemma {:induction false} EmptyPatternSelectsAll(users: seq<User>)
    ensures MatchingUsers(users, "") == users
  {
    if users != [] {
      EmptyPatternMatchesAll(users[0]);
      EmptyPatternSelectsAll(users[1..]);
    }
  }

  /** `delete_user_by_id_main`: obtain a client, then one DELETE for `id`. */
  function DeleteUserByIdMain(env: Env, id: string, appName: string): (r: Run<()>)
    ensures r.outcome.Ok? <==> ApiForApp(env, appName).outcome.Ok?
    ensures r.outcome.Err? ==> r == Run(ApiForApp(env, appName).effects, Err(ApiForApp(env, appName).outcome.error))
    ensures r.outcome.Ok? ==>
              DeletedUrls(r.effects) == [UserEndpoint(GetAppConfig(env.config, appName).value.domain, id)] &&
              r.effects[..|r.effects| - 1] == ApiForApp(env, appName).effects &&
              r.effects[|r.effects| - 1].UserDelete? &&
              r.effects[|r.effects| - 1].bearer == ApiForApp(env, appName).outcome.value.access_token
  {
    var session := ApiForApp(env, appName);
    match session.outcome
    case Err(panic) => Run(session.effects, Err(panic))
    case Ok(api) =>
      var delete := UserDelete(UserEndpoint(api.domain, id), api.access_token, env.deleteSucceeds(id));
      NoDeletesNoUrls(session.effects);
      DeletedUrlsAppend(session.effects, [delete]);
      assert (session.effects + [delete])[..|session.effects|] == session.effects;
      Run(session.effects + [delete], Ok(()))
  }

  /** `create_user_main`: obtain a client, then one POST to the users endpoint. */
  function CreateUserMain(env: Env, email: string, password: string, appName: string): (r: Run<()>)
    ensures r.outcome.Ok? <==> ApiForApp(env, appName).outcome.Ok?
    ensures r.outcome.Err? ==> r == Run(ApiForApp(env, appName).effects, Err(ApiForApp(env, appName).outcome.error))
    ensures r.outcome.Ok? ==>
              |r.effects| == |ApiForApp(env, appName).effects| + 1 &&
              r.effects[..|r.effects| - 1] == ApiForApp(env, appName).effects &&
              r.effects[|r.effects| - 1] ==
                UserCreate(UsersEndpoint(GetAppConfig(env.config, appName).value.domain),
                           ApiForApp(env, appName).outcome.value.access_token,
                           CreateUserBody(email, password), env.createSucceeds)
  {
    var session := ApiForApp(env, appName);
    match session.outcome
    case Err(panic) => Run(session.effects, Err(panic))
    case Ok(api) =>
      var create := UserCreate(UsersEndpoint(api.domain), api.access_token, CreateUserBody(email, password), env.createSucceeds);
      assert (session.effects + [create])[..|session.effects|] == session.effects;
      Run(session.effects + [create], Ok(()))
  }

  /** What `delete_users_by_pattern_main` does: obtain a client, fetch the users, report how
      many match, and hand the matching ones to the bulk delete. This is the reference
      definition that the method `DeleteUsersByPatternMain` is proved against. */
  function PatternRun(env: Env, pattern: string, appName: string): (r: Run<()>)
    // the command finishes exactly when a client is obtained and the users are fetched
    ensures r.outcome.Ok? <==> ApiForApp(env, appName).outcome.Ok? && env.users.Some?
    // a panic while obtaining the client is the command's panic, and nothing more happens
    ensures ApiForApp(env, appName).outcome.Err? ==> r.effects == ApiForApp(env, appName).effects && r.outcome == Err(ApiForApp(env, appName).outcome.error)
    // a failed fetch of the users panics with `UsersFetchFailed` right after the request
    ensures ApiForApp(env, appName).outcome.Ok? && env.users.None? ==>
              r.outcome == Err(UsersFetchFailed) && |r.effects| == |ApiForApp(env, appName).effects| + 1 && r.effects[|r.effects| - 1].UsersGet?
  {
    var session := ApiForApp(env, appName);
    match session.outcome
    case Err(panic) => Run(session.effects, Err(panic))
    case Ok(api) =>
      var fetched := session.effects + [UsersGet(UsersEndpoint(api.domain), api.access_token)];
      match env.users
      case None => Run(fetched, Err(UsersFetchFailed))
      case Some(users) =>
        var matching := MatchingUsers(users, pattern);
        var report := if |matching| == 0 then NoMatchingUsers else GoingToDelete(|matching|);
        Run(fetched + [Say(report)] + DeleteAll(api, matching, env.deleteSucceeds), Ok(()))
  }

  /** A run that panics, while obtaining the client or while fetching the users, deletes nobody. */
  lemma {:induction false} FailedPatternRunDeletesNothing(env: Env, pattern: string, appName: string)
    requires PatternRun(env, pattern, appName).outcome.Err?
    ensures DeletedUrls(PatternRun(env, pattern, appName).effects) == []
  {
    var session := ApiForApp(env, appName);
    if session.outcome.Err? {
      NoDeletesNoUrls(session.effects);
    } else {
      var api := session.outcome.value;
      var fetched := session.effects + [UsersGet(UsersEndpoint(api.domain), api.access_token)];
      assert PatternRun(env, pattern, appName).effects == fetched;
      NoDeletesNoUrls(fetched);
    }
  }

  /** `delete_users_by_pattern_main`. */
  method DeleteUsersByPatternMain(env: Env, pattern: string, appName: string) returns (r: Run<()>)
    ensures r == PatternRun(env, pattern, appName)
  {
    var session := ApiForApp(env, appName);
    match session.outcome {
      case Err(panic) =>
        r := Run(session.effects, Err(panic));
      case Ok(api) =>
        var fetched := session.effects + [UsersGet(UsersEndpoint(api.domain), api.access_token)];
        match env.users {
          case None =>
            r := Run(fetched, Err(UsersFetchFailed));
          case Some(users) =>
            var matching := MatchingUsers(users, pattern);
            var report := if |matching| == 0 then NoMatchingUsers else GoingToDelete(|matching|);
            var log := ParDeleteUsers(api, matching, env.deleteSucceeds);
            r := Run(fetched + [Say(report)] + log, Ok(()));
        }
    }
  }

  /** The trace of the pattern path once a client and a user list are at hand. */
  lemma {:induction false} PatternRunTrace(env: Env, pattern: string, appName: string, users: seq<User>)
    requires ApiForApp(env, appName).outcome.Ok? && env.users == Some(users)
    ensures var api := ApiForApp(env, appName).outcome.value;
            var matching := MatchingUsers(users, pattern);
            PatternRun(env, pattern, appName).effects ==
              ApiForApp(env, appName).effects
              + [UsersGet(UsersEndpoint(api.domain), api.access_token)]
              + [Say(if |matching| == 0 then NoMatchingUsers else GoingToDelete(|matching|))]
              + DeleteAll(api, matching, env.deleteSucceeds)
  {
  }

  /** A trace made of requests that delete nothing, followed by the bulk delete of `matching`,
      deletes exactly the endpoints of `matching`, all with the client's token. */
  lemma {:induction false} BulkDeleteTrace(prefix: seq<Effect>, api: Auth0Api, matching: seq<User>, deleteSucceeds: string -> bool)
    requires forall e :: e in prefix ==> !e.UserDelete? && (e.UsersGet? ==> e.bearer == api.access_token)
    ensures DeletedUrls(prefix + DeleteAll(api, matching, deleteSucceeds)) == UserUrls(api.domain, matching)
    ensures forall e :: e in prefix + DeleteAll(api, matching, deleteSucceeds) && (e.UsersGet? || e.UserDelete?) ==>
              e.bearer == api.access_token
  {
    var deletes := DeleteAll(api, matching, deleteSucceeds);
    NoDeletesNoUrls(prefix);
    DeletedUrlsAppend(prefix, deletes);
    DeleteAllUrls(api, matching, deleteSucceeds);
    forall e | e in prefix + deletes && (e.UsersGet? || e.UserDelete?) ensures e.bearer == api.access_token {
      if e in deletes {
        var i :| 0 <= i < |deletes| && deletes[i] == e;
      }
    }
  }

  /** With a client and a user list, the pattern path deletes exactly the matching users, each
      through one DELETE carrying the invocation's token, and reports their number. */
  lemma {:induction false} PatternRunDeletesMatching(env: Env, pattern: string, appName: string, users: seq<User>)
    requires ApiForApp(env, appName).outcome.Ok? && env.users == Some(users)
    ensures PatternRun(env, pattern, appName).outcome.Ok?
    ensures DeletedUrls(PatternRun(env, pattern, appName).effects)
              == UserUrls(GetAppConfig(env.config, appName).value.domain, MatchingUsers(users, pattern))
    ensures forall e :: e in PatternRun(env, pattern, appName).effects && (e.UsersGet? || e.UserDelete?) ==>
              e.bearer == ApiForApp(env, appName).outcome.value.access_token
    ensures |MatchingUsers(users, pattern)| == 0 ==> Say(NoMatchingUsers) in PatternRun(env, pattern, appName).effects
    ensures |MatchingUsers(users, pattern)| > 0 ==>
              Say(GoingToDelete(|MatchingUsers(users, pattern)|)) in PatternRun(env, pattern, appName).effects
  {
    var session := ApiForApp(env, appName);
    var api := session.outcome.value;
    var matching := MatchingUsers(users, pattern);
    var report := if |matching| == 0 then NoMatchingUsers else GoingToDelete(|matching|);
    var prefix := session.effects + [UsersGet(UsersEndpoint(api.domain), api.access_token)] + [Say(report)];
    PatternRunTrace(env, pattern, appName, users);
    assert PatternRun(env, pattern, appName).effects == prefix + DeleteAll(api, matching, env.deleteSucceeds);
    assert prefix[|session.effects| + 1] == Say(report);
    SessionThenListing(session.effects, api, report);
    BulkDeleteTrace(prefix, api, matching, env.deleteSucceeds);
  }

  /** A client session followed by the user listing and the report deletes nothing, and its only
      user request carries the client's token. */
  lemma SessionThenListing(session: seq<Effect>, api: Auth0Api, report: Message)
    requires forall e :: e in session ==> e.TokenPost? || e.Persist?
    ensures forall e :: e in session + [UsersGet(UsersEndpoint(api.domain), api.access_token)] + [Say(report)] ==>
              !e.UserDelete? && (e.UsersGet? ==> e.bearer == api.access_token)
  {
  }

  /** The stale-token scenario: an expired or undecodable cached token, a token response that
      carries `token`, and a user list. The run requests a token, persists the configuration
      caching it, lists the users with it, reports, and deletes the matching users with it. */
  lemma {:induction false} StaleTokenTrace(env: Env, pattern: string, appName: string, app: AppConfig, token: string, users: seq<User>)
    requires GetAppConfig(env.config, appName) == Some(app)
    requires !CachedTokenValid(env, appName)
    requires FetchAccessToken(env.tokenResponse) == Ok(Some(token))
    requires env.users == Some(users)
    ensures var matching := MatchingUsers(users, pattern);
            PatternRun(env, pattern, appName) ==
              Run([TokenPost(TokenRequestFor(app)),
                   Persist(AddAccessToken(env.config, appName, token)),
                   UsersGet(UsersEndpoint(app.domain), token),
                   Say(if |matching| == 0 then NoMatchingUsers else GoingToDelete(|matching|))]
                  + DeleteAll(Auth0Api(app.domain, token), matching, env.deleteSucceeds),
                  Ok(()))
  {
    RefreshRun(env, appName, app, token);
    PatternRunTrace(env, pattern, appName, users);
    var matching := MatchingUsers(users, pattern);
    var report := Say(if |matching| == 0 then NoMatchingUsers else GoingToDelete(|matching|));
    var session := [TokenPost(TokenRequestFor(app)), Persist(AddAccessToken(env.config, appName, token))];
    var get := UsersGet(UsersEndpoint(app.domain), token);
    assert session + [get] + [report] == [session[0], session[1], get, report];
  }

  /** In the stale-token scenario the token is refreshed exactly once, by the first request, and
      the deletions are exactly those of the matching users. */
  lemma {:induction false} StaleTokenScenario(env: Env, pattern: string, appName: string, app: AppConfig, token: string, users: seq<User>)
    requires GetAppConfig(env.config, appName) == Some(app)
    requires !CachedTokenValid(env, appName)
    requires FetchAccessToken(env.tokenResponse) == Ok(Some(token))
    requires env.users == Some(users)
    ensures PatternRun(env, pattern, appName).effects[0].TokenPost?
    ensures forall i :: 0 < i < |PatternRun(env, pattern, appName).effects| ==>
              !PatternRun(env, pattern, appName).effects[i].TokenPost?
    ensures DeletedUrls(PatternRun(env, pattern, appName).effects) == UserUrls(app.domain, MatchingUsers(users, pattern))
  {
    StaleTokenTrace(env, pattern, appName, app, token, users);
    PatternRunDeletesMatching(env, pattern, appName, users);
    var matching := MatchingUsers(users, pattern);
    OnlyFirstRequestsToken(TokenPost(TokenRequestFor(app)),
                           Persist(AddAccessToken(env.config, appName, token)),
                           UsersGet(UsersEndpoint(app.domain), token),
                           Say(if |matching| == 0 then NoMatchingUsers else GoingToDelete(|matching|)),
                           Auth0Api(app.domain, token), matching, env.deleteSucceeds);
  }

  /** When the first of four effects is the only token request among them, a bulk delete after
      them requests no further token. */
  lemma OnlyFirstRequestsToken(first: Effect, second: Effect, third: Effect, fourth: Effect,
                               api: Auth0Api, users: seq<User>, deleteSucceeds: string -> bool)
    requires !second.TokenPost? && !third.TokenPost? && !fourth.TokenPost?
    ensures forall i :: 0 < i < |[first, second, third, fourth] + DeleteAll(api, users, deleteSucceeds)| ==>
              !([first, second, third, fourth] + DeleteAll(api, users, deleteSucceeds))[i].TokenPost?
  {
    var effects := [first, second, third, fourth] + DeleteAll(api, users, deleteSucceeds);
    forall i | 0 < i < |effects| ensures !effects[i].TokenPost? {
      if i >= 4 {
        assert effects[i] == DeleteAll(api, users, deleteSucceeds)[i - 4];
      }
    }
  }

  /** The `delete` arm of `main`. */
  method DeleteCommandMain(env: Env, id: Option<string>, pattern: Option<string>, appName: string) returns (r: Run<()>)
    ensures DeleteDispatch(id, pattern).ById? ==> r == DeleteUserByIdMain(env, id.value, appName)
    ensures DeleteDispatch(id, pattern).ByPattern? ==> r == PatternRun(env, pattern.value, appName)
    // a rejected combination prints its message and touches neither the network nor the config
    ensures DeleteDispatch(id, pattern).Reject? ==> r == Run([Say(DeleteDispatch(id, pattern).message)], Ok(()))
  {
    match DeleteDispatch(id, pattern) {
      case ById(i) =>
        r := DeleteUserByIdMain(env, i, appName);
      case ByPattern(p) =>
        r := DeleteUsersByPatternMain(env, p, appName);
      case Reject(message) =>
        r := Run([Say(message)], Ok(()));
    }
  }

  /** `config_add_app_main`: the profile built from the arguments is added and persisted once. */
  function ConfigAddAppMain(config: Config, name: string, client_id: string, client_secret: string, domain: string): (effects: seq<Effect>)
    ensures |effects| == 1 && effects[0].Persist?
    ensures GetAppConfig(effects[0].config, name) == Some(AppConfig(name, client_id, client_secret, domain))
    ensures forall n :: n != name ==> GetAppConfig(effects[0].config, n) == GetAppConfig(config, n)
    ensures forall n :: GetAccessToken(effects[0].config, n) == GetAccessToken(config, n)
  {
    [Persist(AddApp(config, AppConfig(name, client_id, client_secret, domain)))]
  }

  /** `config_remove_app_main`: the profile is removed and the result persisted once. */
  function ConfigRemoveAppMain(config: Config, name: string): (effects: seq<Effect>)
    ensures |effects| == 1 && effects[0].Persist?
    ensures GetAppConfig(effects[0].config, name) == None
    ensures forall n :: n != name ==> GetAppConfig(effects[0].config, n) == GetAppConfig(config, n)
    ensures forall n :: GetAccessToken(effects[0].config, n) == GetAccessToken(config, n)
  {
    [Persist(RemoveApp(config, name))]
  }
}
