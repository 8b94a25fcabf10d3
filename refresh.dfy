/**
 * `refresh-token.js`: replaces the stored token. An unreadable `.env` is fatal,
 * the authorization URL carries the start time as its state, and the server
 * reports at startup whether a usable token is already stored.
 */
module RefreshToken {
  import opened Wrappers
  import opened Text
  import opened EnvFile
  import opened OAuthCallback

  /** The script's checks before its server starts. */
  function Startup(file: Result<string, string>): (r: Result<Config, StartupError>)
    ensures file.Err? ==> r == Err(EnvUnreadable)
    ensures r.Ok? <==> (file.Ok? && Given(LastValue(Lines(file.value), ClientIdKey))
                        && Given(LastValue(Lines(file.value), ClientSecretKey)))
  {
    match file
    case Err(_) => Err(EnvUnreadable)
    case Ok(content) => Configure(SettingsOf(Lines(content)))
  }

  /** The credentials the script starts with come from the last line that sets each of them. */
  lemma {:induction false} StartupTakesLastLines(content: string)
    requires Startup(Ok(content)).Ok?
    ensures var lines, cfg := Lines(content), Startup(Ok(content)).value;
      (exists i: nat :: IsLastMatch(lines, ClientIdKey, i) && cfg.clientId == ValueAfter(lines[i], ClientIdKey))
      && (exists i: nat :: IsLastMatch(lines, ClientSecretKey, i) && cfg.clientSecret == ValueAfter(lines[i], ClientSecretKey))
  {
    LastValueMatch(Lines(content), ClientIdKey);
    LastValueMatch(Lines(content), ClientSecretKey);
  }

  /** A line that stores a token whose value is neither empty nor the bare `Bearer ` prefix. */
  predicate UsableTokenLine(line: string) {
    StartsWith(line, TokenKey) && ValueAfter(line, TokenKey) != "" && ValueAfter(line, TokenKey) != "Bearer "
  }

  /** Some line of the text stores a usable token. */
  predicate HasUsableToken(content: string) {
    exists i :: 0 <= i < |Lines(content)| && UsableTokenLine(Lines(content)[i])
  }

  /** The startup report on the stored token: false when the file cannot be read. */
  method CheckCurrentToken(file: Result<string, string>) returns (present: bool)
    ensures present <==> file.Ok? && HasUsableToken(file.value)
  {
    if file.Err? {
      return false;
    }
    var lines := Lines(file.value);
    var i := 0;
    while i < |lines|
      invariant 0 <= i <= |lines|
      invariant forall j :: 0 <= j < i ==> !UsableTokenLine(lines[j])
    {
      var line := lines[i];
      if StartsWith(line, TokenKey) {
        var token := line[|TokenKey|..];
        if token != "" && token != "Bearer " {
          return true;
        }
      }
      i := i + 1;
    }
    return false;
  }

  /** The new token line is a usable token line whenever the granted token is non-empty. */
  lemma {:induction false} UsableReplacedLine(x: string, token: string)
    requires StartsWith(x, TokenKey) && token != ""
    ensures UsableTokenLine(ReplacedLine(x, token))
  {
    var y := ReplacedLine(x, token);
    var rest := x[LineEnd(x, |TokenKey|)..];
    TokenLineValue(token);
    assert y == TokenKey + ("Bearer " + token + rest);
    assert ValueAfter(y, TokenKey) == "Bearer " + token + rest;
  }

  /**
   * After a successful refresh that replaced a token line at the start of a
   * line, the startup check of the next run finds a usable token.
   */
  lemma {:induction false} ReplacedTokenDetected(lines: seq<string>, m: nat, token: string)
    requires m < |lines| && NoNewlines(lines) && '\n' !in token && token != ""
    requires StartsWith(lines[m], TokenKey)
    requires forall i :: 0 <= i < m ==> !Contains(lines[i], TokenKey)
    ensures HasUsableToken(UpsertToken(Join(lines, '\n'), token))
  {
    var updated := lines[m := ReplacedLine(lines[m], token)];
    assert Lines(UpsertToken(Join(lines, '\n'), token)) == updated by {
      UpsertReplacesLine(lines, m, token);
    }
    assert UsableTokenLine(updated[m]) by {
      UsableReplacedLine(lines[m], token);
    }
    UsableAt(UpsertToken(Join(lines, '\n'), token), updated, m);
  }

  /** After a successful refresh that appended the token line, the startup check finds a usable token. */
  lemma {:induction false} AppendedTokenDetected(lines: seq<string>, token: string)
    requires |lines| >= 1 && NoNewlines(lines) && '\n' !in token && token != ""
    requires forall i :: 0 <= i < |lines| ==> !Contains(lines[i], TokenKey)
    ensures HasUsableToken(UpsertToken(Join(lines, '\n'), token))
  {
    var updated := lines + [TokenLine(token)];
    assert Lines(UpsertToken(Join(lines, '\n'), token)) == updated by {
      UpsertAppendsLine(lines, token);
    }
    assert UsableTokenLine(updated[|lines|]) by {
      TokenLineUsable(token);
    }
    UsableAt(UpsertToken(Join(lines, '\n'), token), updated, |lines|);
  }

  /** A stored token line is usable whenever the token is not empty. */
  lemma {:induction false} TokenLineUsable(token: string)
    requires token != ""
    ensures UsableTokenLine(TokenLine(token))
  {
    TokenLineValue(token);
  }

  /** A usable line among the lines of a text makes the text hold a usable token. */
  lemma {:induction false} UsableAt(content: string, lines: seq<string>, i: nat)
    requires Lines(content) == lines && i < |lines| && UsableTokenLine(lines[i])
    ensures HasUsableToken(content)
  {
  }

  /**
   * The script from startup until its server listens: the checks, the
   * authorization URL (state `refresh_<start time in ms>`), the server, and the
   * stored-token report.
   */
  method Launch(file: Result<string, string>, nowMs: nat)
    returns (r: Result<Config, StartupError>, url: string, server: CallbackServer?, hasToken: bool)
    ensures r == Startup(file)
    ensures r.Err? ==> server == null
    ensures r.Ok? ==> server != null && fresh(server) && server.listening && !server.closeScheduled
                      && server.variant == Refresh && server.config == r.value && server.envFile == file
                      && url == AuthUrl(r.value, State(Refresh, nowMs))
                      && hasToken == HasUsableToken(file.value)
  {
    url, server, hasToken := "", null, false;
    if file.Err? {
      r := Err(EnvUnreadable);
      return;
    }
    var settings := ReadSettings(file.value);
    r := Configure(settings);
    if r.Err? {
      return;
    }
    url := AuthUrl(r.value, State(Refresh, nowMs));
    server := new CallbackServer(Refresh, r.value, file);
    hasToken := CheckCurrentToken(file);
  }
}
