/**
 * `check-token-expiry.js`: finds the stored token, drops its `Bearer ` prefix,
 * and, for a three-part JWT whose payload carries `exp`, reports the time left.
 */
module TokenExpiry {
  import opened Wrappers
  import opened Text
  import opened EnvFile

  const BearerPrefix := "Bearer "
  /** The endpoint the script calls with the stored value as its `Authorization` header. */
  const ProbeUrl := "https://api.dida365.com/open/v1/project"

  /** The scan of the `.env` lines that stops at the first token line. */
  method FindToken(content: string) returns (token: Option<string>)
    ensures token == FirstValue(Lines(content), TokenKey)
  {
    var lines := Lines(content);
    token := None;
    var i := 0;
    while i < |lines|
      invariant 0 <= i <= |lines|
      invariant FirstValue(lines, TokenKey) == FirstValue(lines[i..], TokenKey)
    {
      assert lines[i..][1..] == lines[i + 1..];
      if StartsWith(lines[i], TokenKey) {
        token := Some(lines[i][|TokenKey|..]);
        break;
      }
      i := i + 1;
    }
  }

  /** Why the script exits with status 1 before inspecting the token. */
  datatype StartupError = EnvUnreadable | NoToken

  /** The script's checks: an unreadable file, and a missing or empty token, are fatal. */
  function Startup(file: Result<string, string>): (r: Result<string, StartupError>)
    ensures file.Err? ==> r == Err(EnvUnreadable)
    ensures file.Ok? && r.Err? ==> r.error == NoToken
    ensures r.Ok? <==> (file.Ok? && FirstValue(Lines(file.value), TokenKey).Some?
                        && FirstValue(Lines(file.value), TokenKey).value != "")
    ensures r.Ok? ==> r.value != "" && Some(r.value) == FirstValue(Lines(file.value), TokenKey)
  {
    match file
    case Err(_) => Err(EnvUnreadable)
    case Ok(content) =>
      match FirstValue(Lines(content), TokenKey)
      case Some(t) => if t == "" then Err(NoToken) else Ok(t)
      case None => Err(NoToken)
  }

  /** `token.replace('Bearer ', '')`: only the first occurrence, wherever it is, is removed. */
  function StripBearer(t: string): (r: string)
    ensures !Contains(t, BearerPrefix) ==> r == t
    ensures Contains(t, BearerPrefix) ==> |r| == |t| - |BearerPrefix|
    ensures Contains(t, BearerPrefix) ==> (exists i: nat :: (OccursAt(t, BearerPrefix, i)
              && (forall k: nat :: k < i ==> !OccursAt(t, BearerPrefix, k))
              && r == t[..i] + t[i + |BearerPrefix|..]))
  {
    match IndexOf(t, BearerPrefix)
    case None => t
    case Some(i) => t[..i] + t[i + |BearerPrefix|..]
  }

  /** A value stored as `Bearer <token>` strips back to the token. */
  lemma {:induction false} StripBearerPrefix(token: string)
    ensures StripBearer(BearerPrefix + token) == token
  {
    assert OccursAt(BearerPrefix + token, BearerPrefix, 0);
    assert IndexOf(BearerPrefix + token, BearerPrefix) == Some(0);
  }

  /** What the middle part of the JWT decodes to: a JSON object and its `exp`, or the parse error. */
  datatype Payload = Unparseable(message: string) | Parsed(exp: Option<int>)

  /** What the script reports about the token. */
  datatype Report =
    | NotJwt
    | ParseFailed(message: string)
    | NoExpiry
    | Remaining(hours: nat, minutes: nat)
    | Expired

  /** The expiry check against the clock, in whole seconds (`Math.floor(Date.now() / 1000)`). */
  function Expiry(exp: int, nowMs: nat): (r: Report)
    ensures r.Remaining? <==> exp - nowMs / 1000 > 0
    ensures r.Expired? <==> exp - nowMs / 1000 <= 0
    ensures r.Remaining? ==> var t := exp - nowMs / 1000;
      r.minutes < 60 && 3600 * r.hours + 60 * r.minutes <= t < 3600 * r.hours + 60 * r.minutes + 60
  {
    var t := exp - nowMs / 1000;
    if t > 0 then Remaining(t / 3600, (t % 3600) / 60) else Expired
  }

  /** A non-zero multiple of `d` is at least `d` away from zero. */
  lemma {:induction false} MultipleBounds(k: int, d: int)
    requires d > 0
    ensures k >= 1 ==> k * d >= d
    ensures k <= -1 ==> k * d <= -d
  {
  }

  /** Euclidean division is determined by its quotient-remainder bounds. */
  lemma {:induction false} DivUnique(t: int, d: int, q: int, r: int)
    requires d > 0 && 0 <= r < d && t == q * d + r
    ensures t / d == q && t % d == r
  {
    var k := q - t / d;
    assert k * d == t % d - r;
    MultipleBounds(k, d);
  }

  /** The hours and minutes reported are the only ones that bracket a positive time left. */
  lemma {:induction false} RemainingUnique(exp: int, nowMs: nat, hours: nat, minutes: nat)
    requires exp - nowMs / 1000 > 0 && minutes < 60
    requires var t := exp - nowMs / 1000;
      3600 * hours + 60 * minutes <= t < 3600 * hours + 60 * minutes + 60
    ensures Expiry(exp, nowMs) == Remaining(hours, minutes)
  {
    var t := exp - nowMs / 1000;
    var s := t - 3600 * hours - 60 * minutes;
    DivUnique(t, 3600, hours, 60 * minutes + s);
    DivUnique(60 * minutes + s, 60, minutes, s);
  }

  /** `parseToken`: the checks on the token with its prefix removed. */
  function Inspect(accessToken: string, payload: Payload, nowMs: nat): (r: Report)
    ensures r.NotJwt? <==> |Split(StripBearer(accessToken), '.')| != 3
    ensures r.Remaining? || r.Expired? ==> payload.Parsed? && payload.exp.Some? && payload.exp.value != 0
    ensures |Split(StripBearer(accessToken), '.')| == 3 && payload.Unparseable? ==> r == ParseFailed(payload.message)
    ensures |Split(StripBearer(accessToken), '.')| == 3 && payload.Parsed? && (payload.exp.None? || payload.exp.value == 0)
      ==> r == NoExpiry
    ensures |Split(StripBearer(accessToken), '.')| == 3 && payload.Parsed? && payload.exp.Some? && payload.exp.value != 0
      ==> r == Expiry(payload.exp.value, nowMs)
  {
    var parts := Split(StripBearer(accessToken), '.');
    if |parts| != 3 then NotJwt
    else
      match payload
      case Unparseable(message) => ParseFailed(message)
      case Parsed(exp) =>
        if exp.None? || exp.value == 0 then NoExpiry else Expiry(exp.value, nowMs)
  }

  /** Three dot-free parts joined with dots split back into those parts. */
  lemma {:induction false} SplitThree(header: string, body: string, signature: string)
    requires '.' !in header && '.' !in body && '.' !in signature
    ensures Split(header + "." + body + "." + signature, '.') == [header, body, signature]
  {
    var parts := [header, body, signature];
    var jwt := header + "." + body + "." + signature;
    assert Join(parts, '.') == jwt by {
      assert Join(parts[2..], '.') == signature;
      assert Join(parts[1..], '.') == body + "." + signature;
      assert jwt == header + "." + (body + "." + signature);
    }
    assert forall i :: 0 <= i < |parts| ==> '.' !in parts[i];
    SplitJoin(parts, '.');
  }

  /** A token made of three dot-free parts is taken for a JWT, with or without its `Bearer ` prefix. */
  lemma {:induction false} ThreePartsIsJwt(header: string, body: string, signature: string, payload: Payload, nowMs: nat)
    requires '.' !in header && '.' !in body && '.' !in signature
    requires !Contains(header + "." + body + "." + signature, BearerPrefix)
    ensures !Inspect(header + "." + body + "." + signature, payload, nowMs).NotJwt?
    ensures !Inspect(BearerPrefix + (header + "." + body + "." + signature), payload, nowMs).NotJwt?
  {
    SplitThree(header, body, signature);
    StripBearerPrefix(header + "." + body + "." + signature);
  }

  /**
   * After the OAuth scripts append a token to a file without one, this script
   * finds it and strips it back to the granted token.
   */
  lemma {:induction false} ReadsGrantedToken(lines: seq<string>, token: string)
    requires |lines| >= 1 && NoNewlines(lines) && '\n' !in token
    requires forall i :: 0 <= i < |lines| ==> !Contains(lines[i], TokenKey)
    ensures Startup(Ok(UpsertToken(Join(lines, '\n'), token))) == Ok(BearerPrefix + token)
    ensures StripBearer(BearerPrefix + token) == token
  {
    AppendedTokenReadsBack(lines, token);
    StripBearerPrefix(token);
  }

  /** The whole script: the checks, then the report on the token. */
  method Run(file: Result<string, string>, payload: Payload, nowMs: nat) returns (r: Result<Report, StartupError>)
    ensures Startup(file).Err? ==> r == Err(Startup(file).error)
    ensures Startup(file).Ok? ==> r == Ok(Inspect(Startup(file).value, payload, nowMs))
  {
    if file.Err? {
      return Err(EnvUnreadable);
    }
    var token := FindToken(file.value);
    if token.None? || token.value == "" {
      return Err(NoToken);
    }
    r := Ok(Inspect(token.value, payload, nowMs));
  }
}
