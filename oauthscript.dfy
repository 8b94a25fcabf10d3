/**
 * `oauth.js`: obtains the first token. An unreadable `.env` falls back to the
 * process environment, the state is fixed, and the error page shows the
 * failure's detail.
 */
module OAuthScript {
  import opened Wrappers
  import opened Text
  import opened EnvFile
  import opened OAuthCallback

  const FixedState := "state123"

  /** `process.env[name]`: absent names read as undefined. */
  function EnvValue(env: map<string, string>, name: string): Option<string> {
    if name in env then Some(env[name]) else None
  }

  /** The settings taken from the process environment when the file cannot be read. */
  function EnvSettings(env: map<string, string>): Settings {
    Settings(EnvValue(env, "DIDA_CLIENT_ID"), EnvValue(env, "DIDA_CLIENT_SECRET"), EnvValue(env, "DIDA_REDIRECT_URI"))
  }

  /** The script's checks before its server starts: only missing credentials are fatal. */
  function Startup(file: Result<string, string>, env: map<string, string>): (r: Result<Config, StartupError>)
    ensures r.Err? ==> r.error == MissingCredentials
    ensures file.Ok? ==> (r.Ok? <==> (Given(LastValue(Lines(file.value), ClientIdKey))
                                      && Given(LastValue(Lines(file.value), ClientSecretKey))))
    ensures file.Err? ==> (r.Ok? <==> ("DIDA_CLIENT_ID" in env && env["DIDA_CLIENT_ID"] != ""
                                       && "DIDA_CLIENT_SECRET" in env && env["DIDA_CLIENT_SECRET"] != ""))
    ensures file.Err? && r.Ok? ==> (r.value.clientId == env["DIDA_CLIENT_ID"]
                                    && r.value.clientSecret == env["DIDA_CLIENT_SECRET"])
    ensures file.Err? && r.Ok? ==>
      r.value.redirectUri
      == (if "DIDA_REDIRECT_URI" in env && env["DIDA_REDIRECT_URI"] != "" then env["DIDA_REDIRECT_URI"] else DefaultRedirectUri)
    ensures file.Ok? && r.Ok? ==> var lines := Lines(file.value);
      r.value.clientId == LastValue(lines, ClientIdKey).value
      && r.value.clientSecret == LastValue(lines, ClientSecretKey).value
      && r.value.redirectUri ==
         (if Given(LastValue(lines, RedirectUriKey)) then LastValue(lines, RedirectUriKey).value else DefaultRedirectUri)
  {
    match file
    case Ok(content) => Configure(SettingsOf(Lines(content)))
    case Err(_) => Configure(EnvSettings(env))
  }

  /** The file, when readable, is the only source: the environment is then ignored. */
  lemma {:induction false} FileOverridesEnvironment(content: string, env1: map<string, string>, env2: map<string, string>)
    ensures Startup(Ok(content), env1) == Startup(Ok(content), env2)
  {
  }

  /**
   * With the `.env` unreadable, the fallback starts the server, but a granted
   * token cannot be stored: the reply is the error page with the read error.
   */
  lemma {:induction false} GrantWithoutFileFails(cfg: Config, message: string, code: string, exchange: Exchange)
    requires Granted(exchange) && code != ""
    ensures var o := Callback(Bootstrap, cfg, Err(message), CallbackPath, Some(code), exchange);
      o.response == Response(500, Some(message)) && o.stored == None
  {
  }

  /** The script from startup until its server listens. */
  method Launch(file: Result<string, string>, env: map<string, string>)
    returns (r: Result<Config, StartupError>, url: string, server: CallbackServer?)
    ensures r == Startup(file, env)
    ensures r.Err? ==> server == null
    ensures r.Ok? ==> server != null && fresh(server) && server.listening && !server.closeScheduled
                      && server.variant == Bootstrap && server.config == r.value && server.envFile == file
                      && url == AuthUrl(r.value, FixedState)
  {
    url, server := "", null;
    var settings: Settings;
    if file.Ok? {
      settings := ReadSettings(file.value);
    } else {
      settings := EnvSettings(env);
    }
    r := Configure(settings);
    assert r == Startup(file, env);
    if r.Err? {
      return;
    }
    assert State(Bootstrap, 0) == FixedState;
    url := AuthUrl(r.value, State(Bootstrap, 0));
    server := new CallbackServer(Bootstrap, r.value, file);
  }
}
