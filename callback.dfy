/**
 * The OAuth authorization-code flow shared by the two token scripts
 * (`refresh-token.js` and `oauth.js`): reading the client settings from the
 * `.env` lines, the authorization URL, the token request, and the temporary
 * callback server that stores the granted token in the `.env` text.
 */
module OAuthCallback {
  import opened Wrappers
  import opened Text
  import Utf8
  import Base64
  import UriEncoding
  import opened EnvFile

  const Port := 38000
  const CallbackPath := "/callback"
  const DefaultRedirectUri := "http://localhost:38000/callback"
  const AuthorizeEndpoint := "https://dida365.com/oauth/authorize"
  const TokenEndpoint := "https://dida365.com/oauth/token"
  /** The scope sent in the token request form. */
  const Scope := "tasks:read tasks:write"
  /** The same scope as written, already percent-encoded, into the authorization URL. */
  const EncodedScope := "tasks:read%20tasks:write"

  /** Which script runs the flow: `refresh-token.js` or `oauth.js`. */
  datatype Variant = Refresh | Bootstrap

  /** A setting is given when it is present and not empty (JavaScript truthiness of a string). */
  predicate Given(v: Option<string>) {
    v.Some? && v.value != ""
  }

  // ---- settings ----

  /** What the scan of the `.env` lines (or the process environment) found. */
  datatype Settings = Settings(clientId: Option<string>, clientSecret: Option<string>, redirectUri: Option<string>)

  /** The settings the scan finds: for each key, the value of the last line that starts with it. */
  function SettingsOf(lines: seq<string>): Settings {
    Settings(LastValue(lines, ClientIdKey), LastValue(lines, ClientSecretKey), LastValue(lines, RedirectUriKey))
  }

  /** The configuration the flow runs with once the credentials are checked. */
  datatype Config = Config(clientId: string, clientSecret: string, redirectUri: string)

  /** Why a script exits with status 1 before its server starts. */
  datatype StartupError = EnvUnreadable | MissingCredentials

  /**
   * The scan of the `.env` lines with its `else if` chain: each matching line
   * overwrites the setting it names, so the last line for each key wins.
   */
  method ReadSettings(content: string) returns (s: Settings)
    ensures s == SettingsOf(Lines(content))
  {
    var lines := Lines(content);
    var id: Option<string> := None;
    var secret: Option<string> := None;
    var redirect: Option<string> := None;
    var i := 0;
    while i < |lines|
      invariant 0 <= i <= |lines|
      invariant id == LastValue(lines[..i], ClientIdKey)
      invariant secret == LastValue(lines[..i], ClientSecretKey)
      invariant redirect == LastValue(lines[..i], RedirectUriKey)
    {
      var line := lines[i];
      KeysExclusive(line);
      LastValueStep(lines, i, ClientIdKey);
      LastValueStep(lines, i, ClientSecretKey);
      LastValueStep(lines, i, RedirectUriKey);
      if StartsWith(line, ClientIdKey) {
        id := Some(line[|ClientIdKey|..]);
      } else if StartsWith(line, ClientSecretKey) {
        secret := Some(line[|ClientSecretKey|..]);
      } else if StartsWith(line, RedirectUriKey) {
        redirect := Some(line[|RedirectUriKey|..]);
      }
      i := i + 1;
    }
    assert lines[..i] == lines;
    s := Settings(id, secret, redirect);
  }

  /**
   * The checks after the scan: an absent or empty redirect URI becomes the
   * local default, and an absent or empty client id or secret is fatal.
   */
  function Configure(s: Settings): (r: Result<Config, StartupError>)
    ensures r.Ok? <==> Given(s.clientId) && Given(s.clientSecret)
    ensures r.Err? ==> r.error == MissingCredentials
    ensures r.Ok? ==> r.value.clientId == s.clientId.value && r.value.clientSecret == s.clientSecret.value
    ensures r.Ok? && Given(s.redirectUri) ==> r.value.redirectUri == s.redirectUri.value
    ensures r.Ok? && !Given(s.redirectUri) ==> r.value.redirectUri == DefaultRedirectUri
    ensures r.Ok? ==> r.value.clientId != "" && r.value.clientSecret != "" && r.value.redirectUri != ""
  {
    var redirect := if Given(s.redirectUri) then s.redirectUri.value else DefaultRedirectUri;
    if !Given(s.clientId) || !Given(s.clientSecret) then Err(MissingCredentials)
    else Ok(Config(s.clientId.value, s.clientSecret.value, redirect))
  }

  // ---- the authorization URL ----

  /** The `state` parameter: the start time for the refresh script, a fixed word for the first-time script. */
  function State(variant: Variant, nowMs: nat): (s: string)
    ensures variant == Refresh ==> StartsWith(s, "refresh_") && ParseNat(s[8..]) == Some(nowMs)
    ensures variant == Bootstrap ==> s == "state123"
  {
    ParseNatToString(nowMs);
    match variant
    case Refresh => "refresh_" + NatToString(nowMs)
    case Bootstrap => "state123"
  }

  /** The query of the authorization URL, as its template literal writes it. */
  function AuthQuery(cfg: Config, state: string): string {
    "client_id=" + cfg.clientId + "&redirect_uri=" + UriEncoding.EncodeURIComponent(cfg.redirectUri)
    + "&response_type=code&scope=" + EncodedScope + "&state=" + state
  }

  /** The URL the user is asked to open. */
  function AuthUrl(cfg: Config, state: string): string {
    AuthorizeEndpoint + "?" + AuthQuery(cfg, state)
  }

  /** The five query parameters, in order. */
  function QueryParameters(cfg: Config, state: string): seq<string> {
    ["client_id=" + cfg.clientId,
     "redirect_uri=" + UriEncoding.EncodeURIComponent(cfg.redirectUri),
     "response_type=code",
     "scope=" + EncodedScope,
     "state=" + state]
  }

  /** Neither state contains the parameter separator. */
  lemma {:induction false} StateHasNoSeparator(variant: Variant, nowMs: nat)
    ensures '&' !in State(variant, nowMs)
  {
    if variant == Refresh {
      var s := State(variant, nowMs);
      var digits := NatToString(nowMs);
      forall i | 0 <= i < |s| ensures s[i] != '&' {
        if i >= 8 {
          assert s[i] == digits[i - 8];
        }
      }
    }
  }

  /** A separator-free prefix followed by a separator-free text is separator-free. */
  lemma {:induction false} NoSeparatorIn(prefix: string, rest: string)
    requires '&' !in prefix && '&' !in rest
    ensures '&' !in prefix + rest
  {
  }

  /** The template literal is the five parameters joined with `&`. */
  lemma {:induction false} AuthQueryJoin(cfg: Config, state: string)
    ensures AuthQuery(cfg, state) == Join(QueryParameters(cfg, state), '&')
  {
    QueryShape(cfg.clientId, UriEncoding.EncodeURIComponent(cfg.redirectUri), state);
  }

  /** The query template, for any client id, encoded redirect URI and state. */
  lemma {:induction false} QueryShape(id: string, enc: string, state: string)
    ensures "client_id=" + id + "&redirect_uri=" + enc + "&response_type=code&scope=" + EncodedScope + "&state=" + state
         == Join(["client_id=" + id, "redirect_uri=" + enc, "response_type=code", "scope=" + EncodedScope, "state=" + state], '&')
  {
    var ps := ["client_id=" + id, "redirect_uri=" + enc, "response_type=code", "scope=" + EncodedScope, "state=" + state];
    JoinFive(ps, '&');
    var q1 := "client_id=" + id + "&redirect_uri=" + enc;
    assert q1 == ps[0] + "&" + ps[1] by {
      Regroup(ps[0], "&", "redirect_uri=", enc);
    }
    var q2 := q1 + "&response_type=code&scope=" + EncodedScope;
    assert q2 == q1 + "&" + ps[2] + "&" + ps[3];
    assert q2 + "&state=" + state == q2 + "&" + ps[4] by {
      Regroup(q2, "&", "state=", state);
    }
  }

  /**
   * Splitting the query at `&` gives back the five parameters, provided the
   * client id (inserted without encoding) holds no `&`; the redirect parameter
   * decodes to exactly the redirect URI that the token request later sends.
   */
  lemma {:induction false} AuthQueryParameters(cfg: Config, state: string, code: string)
    requires '&' !in cfg.clientId && '&' !in state
    ensures Split(AuthQuery(cfg, state), '&') == QueryParameters(cfg, state)
    ensures var redirect := QueryParameters(cfg, state)[1];
      StartsWith(redirect, "redirect_uri=")
      && UriEncoding.DecodeURIComponent(redirect[|"redirect_uri="|..]) == Some(TokenRequestFor(cfg, code).form[3].1)
  {
    var ps := QueryParameters(cfg, state);
    var enc := UriEncoding.EncodeURIComponent(cfg.redirectUri);
    UriEncoding.EncodedHasNoDelimiters(cfg.redirectUri);
    NoSeparatorIn("client_id=", cfg.clientId);
    NoSeparatorIn("redirect_uri=", enc);
    NoSeparatorIn("scope=", EncodedScope);
    NoSeparatorIn("state=", state);
    assert '&' !in ps[2];
    AuthQueryJoin(cfg, state);
    SplitJoin(ps, '&');
    assert ps[1][|"redirect_uri="|..] == enc;
    UriEncoding.DecodeEncodeURIComponent(cfg.redirectUri);
  }

  // ---- the token request ----

  /** The HTTP Basic credentials: Base64 of the UTF-8 bytes of `id:secret`. */
  function BasicCredentials(id: string, secret: string): string {
    Base64.Encode(Utf8.Encode(id + ":" + secret))
  }

  /** The token request: its `Authorization` header and its form fields, in order. */
  datatype TokenRequest = TokenRequest(authorization: string, form: seq<(string, string)>)

  function TokenRequestFor(cfg: Config, code: string): (r: TokenRequest)
    ensures |r.form| == 4
    ensures r.form[0] == ("code", code) && r.form[1] == ("grant_type", "authorization_code")
    ensures r.form[2] == ("scope", Scope) && r.form[3] == ("redirect_uri", cfg.redirectUri)
    ensures r.authorization == "Basic " + BasicCredentials(cfg.clientId, cfg.clientSecret)
  {
    TokenRequest(
      "Basic " + BasicCredentials(cfg.clientId, cfg.clientSecret),
      [("code", code), ("grant_type", "authorization_code"), ("scope", Scope), ("redirect_uri", cfg.redirectUri)])
  }

  /** The server recovers `id:secret`: Base64 decoding, then UTF-8 decoding, give it back. */
  lemma {:induction false} CredentialsDecode(id: string, secret: string)
    ensures Base64.Decode(BasicCredentials(id, secret)).Some?
    ensures Utf8.Decode(Base64.Decode(BasicCredentials(id, secret)).value) == Some(id + ":" + secret)
  {
    Base64.DecodeEncode(Utf8.Encode(id + ":" + secret));
    Utf8.DecodeEncode(id + ":" + secret);
  }

  /** When the id holds no colon, the first colon of `id:secret` separates the id from the secret. */
  lemma {:induction false} CredentialsSplit(id: string, secret: string)
    requires ':' !in id
    ensures var s := id + ":" + secret;
      IndexOf(s, ":") == Some(|id|) && s[..|id|] == id && s[|id| + 1..] == secret
  {
    var s := id + ":" + secret;
    assert OccursAt(s, ":", |id|);
    forall k: nat | k < |id| ensures !OccursAt(s, ":", k) {
      assert s[k..k + 1][0] == id[k];
    }
  }

  // ---- the callback ----

  /**
   * What the token endpoint did: a reply whose data is an object or a string
   * (status, `access_token` if any, data as JSON text), a reply whose data is
   * JSON `null`, or an error without reply.
   */
  datatype Exchange =
    | Replied(status: nat, accessToken: Option<string>, body: string)
    | RepliedNull(status: nat)
    | NoReply(message: string)

  /** The exchange grants a token: status 200 and a non-empty `access_token`. */
  predicate Granted(e: Exchange) {
    e.Replied? && e.status == 200 && Given(e.accessToken)
  }

  /** The message of the error raised for an exchange that grants nothing. */
  function ExchangeFailure(e: Exchange): string {
    match e
    case Replied(status, _, body) => "令牌请求失败，状态码: " + NatToString(status) + ", 响应: " + body
    case RepliedNull(status) =>
      // with status 200 the test goes on to read `access_token` of `null`, which throws
      if status == 200 then NullRead("access_token")
      else "令牌请求失败，状态码: " + NatToString(status) + ", 响应: null"
    case NoReply(message) => message
  }

  /** The message of the `TypeError` a property read on `null` throws. */
  function NullRead(property: string): string {
    "Cannot read properties of null (reading '" + property + "')"
  }

  /** The HTTP response: status and, on the first-time script's error page, the error detail. */
  datatype Response = Response(status: nat, detail: Option<string>)

  /** What one request to the callback server does: the reply, the token request sent, the new `.env` text written. */
  datatype Outcome = Outcome(response: Response, request: Option<TokenRequest>, stored: Option<string>)

  /**
   * The callback handler. `file` is the `.env` text or the message of the error
   * reading it; `exchange` is what the token endpoint answered to the request sent.
   */
  function Callback(variant: Variant, cfg: Config, file: Result<string, string>, path: string,
                    code: Option<string>, exchange: Exchange): (o: Outcome)
    ensures o.response.status == 404 <==> path != CallbackPath
    ensures o.response.status == 400 <==> path == CallbackPath && !Given(code)
    ensures o.response.status == 200 <==> path == CallbackPath && Given(code) && Granted(exchange) && file.Ok?
    ensures o.response.status == 500 <==> path == CallbackPath && Given(code) && !(Granted(exchange) && file.Ok?)
    ensures o.request.Some? <==> path == CallbackPath && Given(code)
    ensures o.request.Some? ==> o.request.value == TokenRequestFor(cfg, code.value)
    ensures o.stored.Some? <==> o.response.status == 200
    ensures o.stored.Some? ==> o.stored.value == UpsertToken(file.value, exchange.accessToken.value)
    ensures o.response.detail.Some? <==> variant == Bootstrap && o.response.status == 500
    ensures o.response.detail.Some? && !Granted(exchange) ==> o.response.detail.value == ExchangeFailure(exchange)
  {
    if path != CallbackPath then Outcome(Response(404, None), None, None)
    else if !Given(code) then Outcome(Response(400, None), None, None)
    else
      var request := Some(TokenRequestFor(cfg, code.value));
      if Granted(exchange) && file.Ok? then
        Outcome(Response(200, None), request, Some(UpsertToken(file.value, exchange.accessToken.value)))
      else
        var message := if Granted(exchange) then file.error else ExchangeFailure(exchange);
        Outcome(Response(500, if variant == Bootstrap then Some(message) else None), request, None)
  }

  /** The error detail of a refused exchange names the status and carries the response body. */
  lemma {:induction false} FailureDetailReportsReply(status: nat, token: Option<string>, body: string)
    ensures var m := ExchangeFailure(Replied(status, token, body));
      Contains(m, NatToString(status)) && Contains(m, body)
  {
    var prefix := "令牌请求失败，状态码: ";
    var digits := NatToString(status);
    var m := ExchangeFailure(Replied(status, token, body));
    assert m == prefix + digits + (", 响应: " + body);
    assert OccursAt(m, digits, |prefix|);
    assert OccursAt(m, body, |m| - |body|);
  }

  /**
   * A 200 reply with a `null` body grants nothing: the first-time script's
   * error page shows the `TypeError` of reading `access_token`, not the status.
   */
  lemma {:induction false} NullReplyShowsTypeError(cfg: Config, file: Result<string, string>, code: string)
    requires code != ""
    ensures var o := Callback(Bootstrap, cfg, file, CallbackPath, Some(code), RepliedNull(200));
      o.response == Response(500, Some("Cannot read properties of null (reading 'access_token')")) && o.stored == None
  {
    assert !Granted(RepliedNull(200));
    assert NullRead("access_token") == "Cannot read properties of null (reading 'access_token')";
  }

  /** A token line whose token has no line terminator is one whole line: `.*` after the key runs to its end. */
  lemma {:induction false} WholeTokenLine(token: string)
    requires forall i :: 0 <= i < |token| ==> !IsLineTerminator(token[i])
    ensures '\n' !in TokenLine(token)
    ensures LineEnd(TokenLine(token), |TokenKey|) == |TokenLine(token)|
  {
    var x := TokenLine(token);
    assert x == TokenKey + "Bearer " + token;
    forall i | |TokenKey| <= i < |x| ensures !IsLineTerminator(x[i]) {
      if i >= |TokenKey| + 7 {
        assert x[i] == token[i - |TokenKey| - 7];
      }
    }
    forall i | 0 <= i < |x| ensures x[i] != '\n' {
      if i >= |TokenKey| {
        assert !IsLineTerminator(x[i]);
      }
    }
  }

  /**
   * A second successful callback replaces the line the first one appended
   * instead of adding another: the file ends up with exactly one token line, the newest.
   */
  lemma {:induction false} RepeatedCallbackReplaces(lines: seq<string>, first: string, second: string)
    requires |lines| >= 1 && NoNewlines(lines)
    requires forall i :: 0 <= i < |lines| ==> !Contains(lines[i], TokenKey)
    requires forall i :: 0 <= i < |first| ==> !IsLineTerminator(first[i])
    requires '\n' !in second
    ensures Lines(UpsertToken(UpsertToken(Join(lines, '\n'), first), second)) == lines + [TokenLine(second)]
  {
    FirstCallbackAppends(lines, first);
    SecondCallbackReplaces(lines, first, second);
  }

  /** The second callback rewrites the appended token line, and only it. */
  lemma {:induction false} SecondCallbackReplaces(lines: seq<string>, first: string, second: string)
    requires NoNewlines(lines + [TokenLine(first)]) && '\n' !in second
    requires forall i :: 0 <= i < |lines| ==> !Contains(lines[i], TokenKey)
    requires LineEnd(TokenLine(first), |TokenKey|) == |TokenLine(first)|
    ensures Lines(UpsertToken(Join(lines + [TokenLine(first)], '\n'), second)) == lines + [TokenLine(second)]
  {
    TokenLineValue(first);
    LastLineFollowsKeyless(lines, TokenLine(first));
    UpsertReplacesLine(lines + [TokenLine(first)], |lines|, second);
    ReplacedWholeLine(first, second);
    ReplaceLast(lines, TokenLine(first), TokenLine(second));
  }

  lemma {:induction false} LastLineFollowsKeyless(lines: seq<string>, x: string)
    requires forall i :: 0 <= i < |lines| ==> !Contains(lines[i], TokenKey)
    ensures forall i :: 0 <= i < |lines| ==> !Contains((lines + [x])[i], TokenKey)
  {
    assert forall i :: 0 <= i < |lines| ==> (lines + [x])[i] == lines[i];
  }

  lemma {:induction false} ReplacedWholeLine(first: string, second: string)
    requires StartsWith(TokenLine(first), TokenKey)
    requires LineEnd(TokenLine(first), |TokenKey|) == |TokenLine(first)|
    ensures ReplacedLine(TokenLine(first), second) == TokenLine(second)
  {
  }

  lemma {:induction false} ReplaceLast(lines: seq<string>, x: string, y: string)
    ensures (lines + [x])[|lines| := y] == lines + [y]
  {
  }

  /** The first callback's text is the old lines and the token line, joined. */
  lemma {:induction false} FirstCallbackAppends(lines: seq<string>, first: string)
    requires |lines| >= 1 && NoNewlines(lines)
    requires forall i :: 0 <= i < |lines| ==> !Contains(lines[i], TokenKey)
    requires forall i :: 0 <= i < |first| ==> !IsLineTerminator(first[i])
    ensures UpsertToken(Join(lines, '\n'), first) == Join(lines + [TokenLine(first)], '\n')
    ensures NoNewlines(lines + [TokenLine(first)])
    ensures LineEnd(TokenLine(first), |TokenKey|) == |TokenLine(first)|
  {
    var once := UpsertToken(Join(lines, '\n'), first);
    WholeTokenLine(first);
    UpsertAppendsLine(lines, first);
    JoinSplit(once, '\n');
  }

  // ---- the server ----

  /**
   * The temporary callback server. It answers every request with `Callback`,
   * writes the new `.env` text on success and then schedules its own shutdown.
   * Nothing stops a second callback from being handled before the shutdown.
   */
  class CallbackServer {
    const variant: Variant
    const config: Config
    /** The `.env` text, or the message of the error reading it. */
    var envFile: Result<string, string>
    var listening: bool
    var closeScheduled: bool
    /**
     * The status passed to an explicit `process.exit`, once one is called.
     * A process that never calls it still ends, with status 0, once the
     * closed server leaves nothing pending; that natural end is not recorded here.
     */
    var exitCode: Option<int>

    constructor (variant: Variant, config: Config, envFile: Result<string, string>)
      ensures this.variant == variant && this.config == config && this.envFile == envFile
      ensures listening && !closeScheduled && exitCode == None
    {
      this.variant := variant;
      this.config := config;
      this.envFile := envFile;
      listening := true;
      closeScheduled := false;
      exitCode := None;
    }

    /** One request to the server, with the token endpoint's answer should a token request be sent. */
    method HandleRequest(path: string, code: Option<string>, exchange: Exchange)
      returns (response: Response, request: Option<TokenRequest>)
      requires listening
      modifies this
      ensures var o := Callback(variant, config, old(envFile), path, code, exchange);
        response == o.response && request == o.request
        && envFile == (if o.stored.Some? then Ok(o.stored.value) else old(envFile))
        && closeScheduled == (old(closeScheduled) || o.stored.Some?)
      ensures listening && exitCode == old(exitCode)
    {
      request := None;
      if path == CallbackPath {
        if Given(code) {
          request := Some(TokenRequestFor(config, code.value));
          var failure: string;
          if Granted(exchange) {
            if envFile.Ok? {
              envFile := Ok(UpsertToken(envFile.value, exchange.accessToken.value));
              response := Response(200, None);
              closeScheduled := true;
              return;
            }
            failure := envFile.error;
          } else {
            failure := ExchangeFailure(exchange);
          }
          response := Response(500, if variant == Bootstrap then Some(failure) else None);
        } else {
          response := Response(400, None);
        }
      } else {
        response := Response(404, None);
      }
    }

    /**
     * The shutdown timer fires: the server closes; the refresh script then
     * calls `process.exit(0)`, the first-time script calls no exit.
     */
    method CloseTimerFires()
      requires closeScheduled && listening
      modifies this
      ensures !listening && closeScheduled && envFile == old(envFile)
      ensures exitCode == (if variant == Refresh then Some(0) else old(exitCode))
    {
      listening := false;
      if variant == Refresh {
        exitCode := Some(0);
      }
    }
  }
}
