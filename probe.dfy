/**
 * `test-oauth.js`: reads the client id and secret, prints the length of the
 * secret, builds the Basic credential, and checks that decoding it gives the
 * original `id:secret` string back.
 */
module OAuthProbe {
  import opened Wrappers
  import opened Text
  import opened EnvFile
  import Utf8
  import Base64

  /** The scan of the `.env` lines for the two credentials; the last line for each key wins. */
  method ReadCredentials(content: string) returns (id: Option<string>, secret: Option<string>)
    ensures id == LastValue(Lines(content), ClientIdKey)
    ensures secret == LastValue(Lines(content), ClientSecretKey)
  {
    var lines := Lines(content);
    id, secret := None, None;
    var i := 0;
    while i < |lines|
      invariant 0 <= i <= |lines|
      invariant id == LastValue(lines[..i], ClientIdKey)
      invariant secret == LastValue(lines[..i], ClientSecretKey)
    {
      var line := lines[i];
      KeysExclusive(line);
      LastValueStep(lines, i, ClientIdKey);
      LastValueStep(lines, i, ClientSecretKey);
      if StartsWith(line, ClientIdKey) {
        id := Some(line[|ClientIdKey|..]);
      } else if StartsWith(line, ClientSecretKey) {
        secret := Some(line[|ClientSecretKey|..]);
      }
      i := i + 1;
    }
    assert lines[..i] == lines;
  }

  /** The credentials: from the file when it can be read, otherwise from the process environment. */
  function Credentials(file: Result<string, string>, env: map<string, string>): (r: (Option<string>, Option<string>))
    ensures file.Ok? ==> r == (LastValue(Lines(file.value), ClientIdKey), LastValue(Lines(file.value), ClientSecretKey))
    ensures file.Err? ==> (r.0.Some? <==> "DIDA_CLIENT_ID" in env) && (r.1.Some? <==> "DIDA_CLIENT_SECRET" in env)
    ensures file.Err? && r.0.Some? ==> r.0.value == env["DIDA_CLIENT_ID"]
    ensures file.Err? && r.1.Some? ==> r.1.value == env["DIDA_CLIENT_SECRET"]
  {
    match file
    case Ok(content) => (LastValue(Lines(content), ClientIdKey), LastValue(Lines(content), ClientSecretKey))
    case Err(_) =>
      (if "DIDA_CLIENT_ID" in env then Some(env["DIDA_CLIENT_ID"]) else None,
       if "DIDA_CLIENT_SECRET" in env then Some(env["DIDA_CLIENT_SECRET"]) else None)
  }

  /** `s.length`: the number of UTF-16 code units, two for a character outside the Basic Multilingual Plane. */
  function Utf16Length(s: string): nat {
    if s == [] then 0 else Utf16Length(s[..|s| - 1]) + (if s[|s| - 1] as int > 0xFFFF then 2 else 1)
  }

  /** Between one and two code units per character; exactly one each when all are in the Basic Multilingual Plane. */
  lemma {:induction false} Utf16LengthBounds(s: string)
    ensures |s| <= Utf16Length(s) <= 2 * |s|
    ensures Utf16Length(s) == |s| <==> forall i :: 0 <= i < |s| ==> s[i] as int <= 0xFFFF
    decreases |s|
  {
    if s != [] {
      var init := s[..|s| - 1];
      Utf16LengthBounds(init);
      assert forall i :: 0 <= i < |init| ==> init[i] == s[i];
    }
  }

  /** The secret length printed: 0 for an absent or empty secret, its UTF-16 length otherwise. */
  function SecretLength(secret: Option<string>): (n: nat)
    ensures n == 0 <==> secret.None? || secret.value == ""
    ensures secret.Some? ==> n >= |secret.value|
    ensures secret.Some? && secret.value != "" ==> n == Utf16Length(secret.value)
  {
    if secret.Some? && secret.value != "" then
      Utf16LengthBounds(secret.value);
      Utf16Length(secret.value)
    else 0
  }

  /** `${v}` for a setting that may be undefined. */
  function Display(v: Option<string>): string {
    match v
    case Some(s) => s
    case None => "undefined"
  }

  /** The auth string: the id, a colon, the secret, each rendered as a template literal renders it. */
  function AuthString(id: Option<string>, secret: Option<string>): (r: string)
    ensures |r| == |Display(id)| + 1 + |Display(secret)|
    ensures r[..|Display(id)|] == Display(id) && r[|Display(id)|] == ':' && r[|Display(id)| + 1..] == Display(secret)
  {
    Display(id) + ":" + Display(secret)
  }

  /** `Buffer.from(authString, 'utf8').toString('base64')` */
  function Encoded(auth: string): string {
    Base64.Encode(Utf8.Encode(auth))
  }

  /**
   * `Buffer.from(b64, 'base64').toString('utf8')` for well-formed input;
   * `None` for input outside what this model decodes.
   */
  function Decoded(b64: string): Option<string> {
    match Base64.Decode(b64)
    case Some(bytes) => Utf8.Decode(bytes)
    case None => None
  }

  /** The check the script prints: the decoded credential equals the auth string. */
  predicate RoundTripMatches(auth: string) {
    Decoded(Encoded(auth)) == Some(auth)
  }

  /** The script's check always succeeds, whatever the id and secret are, set or not. */
  lemma {:induction false} RoundTripAlwaysMatches(id: Option<string>, secret: Option<string>)
    ensures RoundTripMatches(AuthString(id, secret))
  {
    var auth := AuthString(id, secret);
    Base64.DecodeEncode(Utf8.Encode(auth));
    Utf8.DecodeEncode(auth);
  }
}
