/** The credential store (src/config.rs): application profiles and cached access tokens, both
    keyed by application name. Every operation takes a configuration and returns a new one; the
    argument is never changed, so "nothing else changes" is stated against the argument. */
module Configuration {
  import opened Wrappers

  datatype AppConfig = AppConfig(name: string, client_id: string, client_secret: string, domain: string)

  datatype Config = Config(apps: map<string, AppConfig>, access_tokens: map<string, string>)

  /** `Config::get_app_config`: the profile stored under `appName`, if any. */
  function GetAppConfig(c: Config, appName: string): (r: Option<AppConfig>)
    ensures r.Some? <==> appName in c.apps
    ensures r.Some? ==> r.value == c.apps[appName]
  {
    if appName in c.apps then Some(c.apps[appName]) else None
  }

  /** `Config::get_access_token`: the token cached under `appName`, if any. */
  function GetAccessToken(c: Config, appName: string): (r: Option<string>)
    ensures r.Some? <==> appName in c.access_tokens
    ensures r.Some? ==> r.value == c.access_tokens[appName]
  {
    if appName in c.access_tokens then Some(c.access_tokens[appName]) else None
  }

  /** `Config::add_app`: stores `app` under its own name, replacing any profile of that name. */
  function AddApp(c: Config, app: AppConfig): (r: Config)
    ensures GetAppConfig(r, app.name) == Some(app)
    ensures forall n :: n != app.name ==> GetAppConfig(r, n) == GetAppConfig(c, n)
    ensures forall n :: GetAccessToken(r, n) == GetAccessToken(c, n)
    ensures r.apps.Keys == c.apps.Keys + {app.name}
  {
    c.(apps := c.apps[app.name := app])
  }

  /** `Config::remove_app`: drops the profile named `name`; cached tokens are kept. */
  function RemoveApp(c: Config, name: string): (r: Config)
    ensures GetAppConfig(r, name) == None
    ensures forall n :: n != name ==> GetAppConfig(r, n) == GetAppConfig(c, n)
    ensures forall n :: GetAccessToken(r, n) == GetAccessToken(c, n)
    ensures r.apps.Keys == c.apps.Keys - {name}
  {
    c.(apps := c.apps - {name})
  }

  /** `Config::add_access_token`: caches `token` for `appName`, replacing any earlier token. */
  function AddAccessToken(c: Config, appName: string, token: string): (r: Config)
    ensures GetAccessToken(r, appName) == Some(token)
    ensures forall n :: n != appName ==> GetAccessToken(r, n) == GetAccessToken(c, n)
    ensures forall n :: GetAppConfig(r, n) == GetAppConfig(c, n)
    ensures r.access_tokens.Keys == c.access_tokens.Keys + {appName}
  {
    c.(access_tokens := c.access_tokens[appName := token])
  }

  /** Every profile is stored under its own name, as `add_app` stores them. */
  ghost predicate WellKeyed(c: Config)
  {
    forall n :: n in c.apps ==> c.apps[n].name == n
  }

  /** The three mutators keep profiles stored under their own names. */
  lemma MutatorsPreserveWellKeyed(c: Config, app: AppConfig, name: string, token: string)
    requires WellKeyed(c)
    ensures WellKeyed(AddApp(c, app))
    ensures WellKeyed(RemoveApp(c, name))
    ensures WellKeyed(AddAccessToken(c, name, token))
  {
  }

  /** Adding the same profile twice gives the same configuration as adding it once. */
  lemma AddAppIdempotent(c: Config, app: AppConfig)
    ensures AddApp(AddApp(c, app), app) == AddApp(c, app)
  {
  }

  /** A later `add_app` of a profile with the same name wins. */
  lemma AddAppOverwrites(c: Config, first: AppConfig, second: AppConfig)
    requires first.name == second.name
    ensures AddApp(AddApp(c, first), second) == AddApp(c, second)
  {
  }

  /** Removing a profile that is not there changes nothing. */
  lemma {:induction false} RemoveAbsentIsIdentity(c: Config, name: string)
    requires GetAppConfig(c, name) == None
    ensures RemoveApp(c, name) == c
  {
    assert RemoveApp(c, name).apps == c.apps;
  }

  /** Removing a profile that was just added restores a configuration without that name. */
  lemma RemoveUndoesAdd(c: Config, app: AppConfig)
    requires GetAppConfig(c, app.name) == None
    ensures RemoveApp(AddApp(c, app), app.name) == c
  {
    RemoveAbsentIsIdentity(c, app.name);
    assert RemoveApp(AddApp(c, app), app.name).apps == c.apps;
  }

  /** Removing a profile orphans its cached token: the token is still returned. */
  lemma RemoveAppOrphansToken(c: Config, name: string, token: string)
    requires GetAccessToken(c, name) == Some(token)
    ensures GetAppConfig(RemoveApp(c, name), name) == None
    ensures GetAccessToken(RemoveApp(c, name), name) == Some(token)
  {
  }

  /** Caching tokens for two different applications commutes. */
  lemma AddAccessTokensCommute(c: Config, a: string, ta: string, b: string, tb: string)
    requires a != b
    ensures AddAccessToken(AddAccessToken(c, a, ta), b, tb) == AddAccessToken(AddAccessToken(c, b, tb), a, ta)
  {
  }
}
