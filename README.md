# auth0-cli, modelled in Dafny

auth0-cli is a command-line client for the Auth0 management API. It lists, creates and deletes
user accounts. It keeps named application profiles (client id, client secret, tenant domain) in
a local configuration file, next to one cached access token per profile. This project models
the parts of it that make decisions:

- **Users** (`user.dfy`): the `User` record, `str::find`, `User::matches` and `User::to_table_row`.
- **Configuration** (`config.dfy`): `AppConfig` and `Config`, with the copy-producing mutators
  `add_app`, `remove_app` and `add_access_token`, and the lookups `get_app_config` and
  `get_access_token`, all over Dafny `map`s.
- **Auth0** (`auth0_api.dfy`):
  - the request strings;
  - the fail-closed token validity rule;
  - the token fetch's handling of the response;
  - `api_for_app`'s choice between the cached and a fresh token;
  - `par_delete_users`, a crossbeam channel (`Channel`) drained by the delete workers.
- **Cli** (`main.rs`, in `cli.dfy`): the delete command's `(id, pattern)` dispatch, the match
  filter, the delete-by-id, delete-by-pattern and create paths, and the two configuration
  commands.
- **Json** and **Wrappers**: the slice of `serde_json::Value` that the client inspects, and
  `Option`/`Result`.

The outside world comes in as one value, `Auth0.Env`. It holds:

- the configuration `read_config` returned;
- the clock, in nanoseconds since the Unix epoch;
- the unverified JWT decoder, as a function from token to optional claims;
- the answers of the remote API.

What the program does to the world is a trace of `Auth0.Effect`s: token requests, persisting
the configuration, user requests and printed messages. A Rust panic (`expect`) is an
`Auth0.Panic` that ends the trace. Configuration values are immutable in Dafny, so "the mutators
do not change the receiver" holds by construction. Every mutator returns a new `Config`, and its
contract compares that result with the argument.

The eight delete workers run one after another in the model. That is one of the schedules the
threads allow. Every user is sent into the channel before the first worker starts, so the first
worker drains the whole queue and the other seven find it empty.

## Model

| member | source | states |
|---|---|---|
| `Users.FindFrom` | src/user.rs:26 | the result is the first index at or after `from` where the pattern occurs, and `None` exactly when it occurs nowhere from there |
| `Users.Find` | src/user.rs:26 | `find` is `Some` iff the pattern is a contiguous substring, and then gives its first occurrence |
| `Users.Matches` | src/user.rs:25-30 | a user matches iff the pattern is a substring of `email` or of `user_id` |
| `Users.MatchIgnoresOptionalFields` | src/user.rs:25-30 | matching does not depend on `nickname` or `last_login` |
| `Users.EmptyPatternMatchesAll` | src/user.rs:26-29 | the empty pattern matches every user |
| `Users.SliceMatches` | src/user.rs:25-30 | every prefix, infix and suffix of either field matches |
| `Users.MatchesOwnFields` | src/user.rs:52-57 | a user matches its own full email and its own full user id |
| `Users.MatchesExactExample` | src/user.rs:52-57 | the `matches_exact` test |
| `Users.MatchesPartialExample` | src/user.rs:59-67 | the `matches_partial` test: `.test`, `email.test`, `user`, `a1b`, `2c3` all match |
| `Users.FirstCharOfSubstring` | src/user.rs:26 | an occurring pattern starts with a character of the searched string |
| `Users.AbsentFirstCharNoMatch` | src/user.rs:25-30 | a pattern whose first character is in neither field does not match |
| `Users.NoMatchExample` | src/user.rs:25-30 | `zzz` and `USER` do not match the test user, so matching is case-sensitive |
| `Users.ToTableRow` | src/user.rs:14-23 | four cells in order: email, user id, nickname or "", last login or "" |
| `Users.UserOfRow` | src/user.rs:14-23 | a row can be read back exactly when it has four cells |
| `Users.RowRoundTrip` | src/user.rs:14-23 | reading a row back gives the user, unless an optional field is `Some("")` |
| `Users.RowShowsEmptyAsAbsent` | src/user.rs:15-16 | an absent optional field and an empty one print the same row |
| `Configuration.GetAppConfig` | src/config.rs:84-86 | the profile under a name, `None` exactly when the name is not stored |
| `Configuration.GetAccessToken` | src/config.rs:99-102 | the cached token under a name, `None` exactly when none is cached |
| `Configuration.AddApp` | src/config.rs:68-72 | afterwards `get_app_config(app.name)` is `Some(app)`; other profiles and all tokens are as before |
| `Configuration.RemoveApp` | src/config.rs:74-78 | afterwards the name has no profile; other profiles and all tokens are as before |
| `Configuration.AddAccessToken` | src/config.rs:104-108 | afterwards `get_access_token(name)` is the new token; other tokens and all profiles are as before |
| `Configuration.MutatorsPreserveWellKeyed` | src/config.rs:68-78 | the mutators keep every profile stored under its own name |
| `Configuration.AddAppIdempotent` | src/config.rs:68-72 | adding the same profile twice equals adding it once |
| `Configuration.AddAppOverwrites` | src/config.rs:68-72 | a later profile with the same name replaces the earlier one |
| `Configuration.RemoveAbsentIsIdentity` | src/config.rs:74-78 | removing a name that is not present returns an equal configuration |
| `Configuration.RemoveUndoesAdd` | src/config.rs:68-78 | removing a freshly added profile restores the configuration |
| `Configuration.RemoveAppOrphansToken` | src/config.rs:74-78 | after removing a profile, its cached token is still returned |
| `Configuration.AddAccessTokensCommute` | src/config.rs:104-108 | caching tokens for two different apps commutes |
| `Json.Get` | src/auth0_api.rs:159 | `Value::get` finds an object's field; other values have none |
| `Json.AsU64` | src/auth0_api.rs:160 | `as_u64` succeeds exactly on numbers serde_json holds as `PosInt`, i.e. integer literals from 0 to 2^64-1, and returns that integer |
| `Auth0.TokenRequestFor` | src/auth0_api.rs:130-139 | the token request goes to `https://{domain}/oauth/token` with exactly `grant_type = client_credentials`, the client id and secret, and audience `https://{domain}/api/v2/` |
| `Auth0.CreateUserBody` | src/auth0_api.rs:44 | the create body holds email, password and the `Username-Password-Authentication` connection |
| `Auth0.UsersEndpoint` | src/auth0_api.rs:35 | the users endpoint is `https://`, then the domain, then `/api/v2/users` (the same string `create_user` posts to, line 43) |
| `Auth0.UserEndpoint` | src/auth0_api.rs:54 | a user's endpoint is the users endpoint, then `/`, then the id |
| `Auth0.TokenEndpoint` | src/auth0_api.rs:130 | the token endpoint is `https://`, then the domain, then `/oauth/token` |
| `Auth0.Audience` | src/auth0_api.rs:133 | the audience is the users endpoint without its final `users` |
| `Auth0.EndpointsUnderAudience` | src/auth0_api.rs:35 | `…/api/v2/users` lies under the token's audience, and `…/users/{id}` is `…/users` + "/" + id |
| `Auth0.UserEndpointInjective` | src/auth0_api.rs:54 | different user ids give different delete endpoints |
| `Auth0.UsersEndpointInjective` | src/auth0_api.rs:35 | the users endpoint determines the domain |
| `Auth0.ExpiryInstant` | src/auth0_api.rs:162 | `UNIX_EPOCH + Duration::from_secs(exp)` is exactly `exp` whole seconds after the epoch, counted in nanoseconds |
| `Auth0.ExpClaim` | src/auth0_api.rs:159-160 | the `exp` claim is read only when the claims are an object whose `exp` is an unsigned integer |
| `Auth0.AccessTokenStillValid` | src/auth0_api.rs:156-172 | a decode failure, or a missing or non-unsigned `exp`, is invalid; otherwise valid iff `now < UNIX_EPOCH + exp` seconds |
| `Auth0.NonUnsignedExpIsInvalid` | src/auth0_api.rs:159-165 | claims that are not an object, lack `exp`, or hold a negative, fractional or non-numeric `exp` are invalid |
| `Auth0.ValidityIsMonotone` | src/auth0_api.rs:161-164 | a token valid now was valid at every earlier time |
| `Auth0.ValidAtWholeSecond` | src/auth0_api.rs:161-164 | at whole second `s`, valid iff `s < exp`; `s == exp` is invalid |
| `Auth0.ValidityExamples` | src/auth0_api.rs:156-172 | expiry an hour ahead is valid; ten seconds ago, a string `exp`, no `exp` and a decode failure are not |
| `Auth0.AccessTokenOfBody` | src/auth0_api.rs:149-152 | `Some(t)` iff the response's `access_token` is the JSON string `t` |
| `Auth0.FetchAccessToken` | src/auth0_api.rs:146-152 | no response and a non-JSON body panic; a JSON body yields the token or `None` |
| `Auth0.CachedTokenValid` | src/auth0_api.rs:111-112 | the match guard holds only when a token is cached, and then exactly when that token is still valid now |
| `Auth0.ApiForApp` | src/auth0_api.rs:101-125 | unknown app aborts with no effects; a valid cached token is used with no fetch or persist; otherwise one token request, then on success one persist of `add_access_token(app, token)` and a client with the new token; a failed fetch panics as the response did, or with the missing-token panic |
| `Auth0.RefreshRun` | src/auth0_api.rs:115-121 | an invalid cache and a good response give exactly request, persist, and a client with the new token |
| `Auth0.RefreshedTokenIsPersisted` | src/auth0_api.rs:117-119 | the persisted configuration returns the new token for the app and keeps every profile |
| `Auth0.DeleteUser` | src/auth0_api.rs:62-69 | one DELETE to the user's endpoint with the client's bearer token, recording whether that user's call got a response |
| `Auth0.DeleteAll` | src/auth0_api.rs:72-95 | one deletion per queued user, in queue order |
| `Auth0.DeleteAllUrls` | src/auth0_api.rs:72-95 | the DELETEs hit exactly the users' endpoints, whatever each call answers, so a failure does not stop the rest |
| `Auth0.EachUserUrlOnce` | src/auth0_api.rs:72-95 | with distinct ids, each user's endpoint is deleted exactly once |
| `Auth0.Channel.TryRecv` | src/auth0_api.rs:86 | `try_recv` takes the oldest item, or reports an empty channel and changes nothing |
| `Auth0.Channel.Send` | src/auth0_api.rs:75-78 | `send` appends to the channel |
| `Auth0.ParDeleteUsers` | src/auth0_api.rs:72-96 | after all eight workers (`N_WORKERS`, line 16) finish, the log is one deletion per input user; empty input deletes nothing |
| `Cli.DeleteDispatch` | src/main.rs:94-99 | only `id` deletes by id, only `pattern` deletes by pattern, both or neither is rejected with its message |
| `Cli.MatchingUsers` | src/main.rs:142-145 | the selection holds only matching users, each as often as in the fetched list |
| `Cli.MatchingUsersCount` | src/main.rs:142-145 | each matching user keeps its multiplicity; a non-matching user occurs zero times |
| `Cli.MatchingUsersAppend` | src/main.rs:142-145 | filtering keeps the fetched order |
| `Cli.EmptyPatternSelectsAll` | src/main.rs:142-145 | the empty pattern selects every fetched user |
| `Cli.DeleteUserByIdMain` | src/main.rs:131-137 | after obtaining a client, exactly one DELETE, for that id, with the client's token |
| `Cli.CreateUserMain` | src/main.rs:120-129 | after obtaining a client, one POST to the users endpoint with the create body |
| `Cli.PatternRun` | src/main.rs:139-154 | the command completes exactly when a client is obtained and the users are fetched; a client panic is passed on unchanged; a failed fetch panics right after the listing request |
| `Cli.FailedPatternRunDeletesNothing` | src/main.rs:140-141 | a panic while obtaining the client or fetching the users deletes nobody |
| `Cli.DeleteUsersByPatternMain` | src/main.rs:139-154 | the pattern path: client, one user list request, a report, then the bulk delete of the matching users |
| `Cli.PatternRunTrace` | src/main.rs:139-154 | the full trace of the pattern path once a client and a user list are at hand |
| `Cli.BulkDeleteTrace` | src/main.rs:153 | requests before the bulk delete contribute no deletions |
| `Cli.PatternRunDeletesMatching` | src/main.rs:139-154 | exactly the matching users are deleted, all calls carry the one token, and "no matching users" or the count is reported |
| `Cli.StaleTokenTrace` | src/main.rs:139-154 | with an expired cached token: token request, persist, user list, report, deletions |
| `Cli.StaleTokenScenario` | src/auth0_api.rs:111-121 | with an expired cached token the token is refreshed exactly once, by the first request |
| `Cli.DeleteCommandMain` | src/main.rs:93-99 | the delete arm runs the chosen path; a rejected combination only prints its message |
| `Cli.ConfigAddAppMain` | src/main.rs:182-193 | one persist of the configuration with the new profile added |
| `Cli.ConfigRemoveAppMain` | src/main.rs:195-198 | one persist of the configuration with the profile removed |

## Left out

- HTTP transport (`reqwest`): each remote call is a trace entry. Their answers are `Env` fields: the token response, the decoded user list, and for each DELETE or POST whether a response came back. reqwest reports a non-2xx status as `Ok`, so `succeeded` means "a response arrived".
- JWT decoding (`jwt::dangerous_unsafe_decode`) is not modelled. It is the `Env.decode` function, whose claims may be any JSON value.
- The wall clock (`SystemTime::now`) is `Env.now`, read once per invocation.
- AccessTokenStillValid: an `exp` beyond the largest signed 64-bit second count makes the source's `UNIX_EPOCH + Duration` addition panic. The model treats such a claim as a far-future expiry.
- Threads, the crossbeam channel's thread safety, `join`, and interleavings of the eight workers are not modelled. Only the sequential schedule is verified, so the log is in queue order. The per-user "Deleting user" and "Successfully deleted" lines are folded into the deletion's `succeeded` flag.
- Configuration I/O is not modelled: `config_path`, `read_config_file`, `read_config` (including its panics), `Config::from_string`, the TOML format, and `persist` beyond "writes this configuration once". A failed write (`exit(1)`) is not modelled.
- Printing is not modelled: `create_user_main`'s "Creating user … with password …" line (src/main.rs:123), `persist`'s "New config:" dump of the whole file (src/config.rs:91), `prettytable` tables, `list_users_main`'s row loop, `config display`/`config validate`, and `ansi_term` colours. The printed success and failure messages of single create and delete become the effect's `succeeded` flag.
- Argument parsing (`structopt`/`clap`, `AppConfig::of_commandline_args`) and shell completions are not modelled.
- `config_add_app_main` calls `AppConfig::new`, and both configuration commands call `persist(true)`. Neither exists in the configuration module. The model uses the evident meaning: the struct built from the four arguments, and a plain persist.
- A rejected `delete` only prints its message, and the process then ends normally. The model follows the code, not a non-zero exit status.
- `str::find` returns a byte offset. The model counts characters, and only whether a match exists is used.
