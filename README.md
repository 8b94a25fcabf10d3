# Dida365 MCP server and its OAuth token scripts, in Dafny

This project models the Dida365 (TickTick China) MCP server and the Node
scripts that obtain and inspect the access token it uses:

- `refresh-token.js` and `oauth.js`: the OAuth authorization-code flow. Each
  reads the client credentials from the `.env` lines and prints the
  authorization URL. It then starts a temporary local callback server on
  port 38000, which shuts itself down a few seconds after its first success.
  The server exchanges the `code` for a token and writes
  `DIDA365_TOKEN=Bearer <token>` into the `.env` text.
- `check-token-expiry.js`: finds the stored token, strips `Bearer `,
  recognises a three-part JWT and reports the remaining hours and minutes
  before `exp`.
- `test-oauth.js`: builds the `id:secret` Basic credentials and checks that
  Base64 decoding gives them back.
- `dist/index.js`: the MCP tool and resource handlers of the built server. Each
  tool is routed to an Open API request (verb, path and body), and failures
  become MCP errors.
- `src/index.ts`: the TypeScript server source, which calls the v2 API
  (`https://api.dida365.com/api/v2`) with its own tool names, request helper
  and error texts.

The JavaScript built-ins these scripts rely on are modelled explicitly:

- `String.prototype.split`, `startsWith` and `replace` with a regular expression;
- template literals, where `undefined` renders as `"undefined"`, and JavaScript truthiness;
- `encodeURIComponent`, UTF-8, Base64 and the UTF-16 `.length`.

The two OAuth scripts share one model of the flow (`OAuthCallback`),
parameterised by which script runs it. The network, the file system and the
clock are inputs:

- the `.env` text, or the message of the error reading it;
- the token endpoint's answer;
- the API's answer;
- `Date.now()`;
- the decoded JWT payload.

Modules: `Wrappers`, `Text`, `JsValue`, `Utf8`, `Base64`, `UriEncoding`,
`EnvFile`, `OAuthCallback`, `RefreshToken`, `OAuthScript`, `TokenExpiry`,
`OAuthProbe`, `Http`, `DistServer` and `SrcServer`.

### Behaviour of the code worth noting

- The token upsert tests `/DIDA365_TOKEN=/` anywhere in the text. It
  replaces the first occurrence up to the end of that line, which is not
  necessarily a line that starts with the key. The read-back lemmas
  therefore assume the first occurrence begins a line.
- Neither callback server guards against a second callback. A second
  successful callback before the timer closes the server writes the file
  again (`OAuthCallback.RepeatedCallbackReplaces`).
- In `dist/index.js`, every error thrown inside the tool handler's `try` is
  re-wrapped by its `catch` as `InternalError`. That includes the
  `InvalidRequest` of `throwValidError` and the `MethodNotFound` of an
  unknown tool. Only the missing-arguments check, which sits before the
  `try`, reaches the client as `InvalidRequest`.
- `oauth.js` falls back to the process environment when `.env` cannot be
  read. `refresh-token.js` exits instead.

## Model

| member | source | states |
|---|---|---|
| EnvFile.Lines | refresh-token.js:14 | splitting at `\n` yields at least one line and no line holds a newline |
| EnvFile.LastValue | refresh-token.js:16-24 | the overwriting scan: any value found is the text after the key on some line that starts with it |
| EnvFile.FirstValue | check-token-expiry.js:14-19 | the breaking scan: any value found is the text after the key on some line that starts with it |
| EnvFile.UpsertToken | refresh-token.js:117-126 | the new text always contains the token line, and the text before the first key occurrence (the whole old text when there is none) is kept |
| EnvFile.LastValueSpec | refresh-token.js:16-24 | the scan's value for a key is absent iff no line starts with it, and otherwise it is the value after the key on the last such line |
| EnvFile.LastValueOverrides | oauth.js:18-26 | a later line with the key overrides every earlier one |
| EnvFile.FirstValueSpec | check-token-expiry.js:14-19 | the breaking scan's value is absent iff no line starts with the key, and otherwise it is the value on the first such line |
| EnvFile.FirstValueIgnoresLater | check-token-expiry.js:14-19 | once a line with the key has been seen, later lines do not change the result |
| EnvFile.UpsertReplacesFirstOccurrence | refresh-token.js:118-123 | when the key occurs, the text from its first occurrence to the end of that line becomes `DIDA365_TOKEN=Bearer <token>` and the rest is untouched |
| EnvFile.UpsertAppendsWhenAbsent | refresh-token.js:124-126 | when the key is absent, the old text is kept as a prefix and `\n` plus the token line is appended |
| EnvFile.UpsertReplacesLine | oauth.js:118-126 | for a file whose first key occurrence starts line m, the new file's lines are the old lines with only line m rewritten |
| EnvFile.UpsertAppendsLine | oauth.js:118-126 | for a file without the key, the new file's lines are the old lines plus the token line |
| EnvFile.TokenReadsBack | check-token-expiry.js:14-19 | after replacing a whole token line, the expiry checker's scan finds `Bearer <token>` |
| EnvFile.AppendedTokenReadsBack | check-token-expiry.js:14-19 | after appending the token line, the expiry checker's scan finds `Bearer <token>` |
| Text.IndexOf | refresh-token.js:118 | finds a match iff the pattern occurs, and then the first occurrence |
| Text.Split | refresh-token.js:14 | yields at least one part and no part holds the separator |
| Text.SplitJoin | check-token-expiry.js:75 | splitting parts joined by a separator they lack gives the parts back |
| Text.JoinSplit | refresh-token.js:14 | joining the split parts gives the text back |
| Text.SplitAround | check-token-expiry.js:75 | splitting around one separator is the concatenation of the two sides' splits |
| Text.ParseNatToString | refresh-token.js:67 | the decimal rendering of `Date.now()` in the state parses back to the same number |
| Utf8.DecodeEncode | test-oauth.js:41-50 | UTF-8 decoding of the UTF-8 encoding of a string gives it back |
| Utf8.Encode | test-oauth.js:41 | the UTF-8 encoding has between one and four bytes per character (its inverse is `Utf8.DecodeEncode`) |
| Utf8.EncodeAppend | test-oauth.js:41 | the UTF-8 encoding of a concatenation is the concatenation of the encodings |
| Utf8.DecodeEncodeChar | test-oauth.js:50 | each character's 1–4 byte encoding decodes back to that character and its length |
| Base64.DecodeEncode | test-oauth.js:41-50 | Base64 decoding of the Base64 encoding of any byte sequence gives it back |
| Base64.Encode | test-oauth.js:41 | four characters for every started group of three bytes (its inverse is `Base64.DecodeEncode`) |
| Base64.Sextets | test-oauth.js:41 | the four 6-bit groups of three bytes are below 64 and reassemble the three bytes |
| Base64.Alphabet | test-oauth.js:41 | each 6-bit value's character is not the pad and decodes to the same value |
| UriEncoding.EncodeURIComponent | refresh-token.js:67 | every character of the output is unreserved, `%` or a hex digit |
| UriEncoding.DecodeEncodeURIComponent | refresh-token.js:67 | percent-decoding `encodeURIComponent(s)` gives `s` back |
| UriEncoding.EncodedHasNoDelimiters | oauth.js:51 | the encoded redirect URI contains no `&`, `=`, `#` or space |
| UriEncoding.PercentDecodeEncodeBytes | refresh-token.js:67 | percent-decoding the encoding of any byte sequence gives it back |
| OAuthCallback.ReadSettings | refresh-token.js:12-24 | the loop with its `else if` chain ends with, for each key, the value of its last line |
| OAuthCallback.Configure | refresh-token.js:30-38 | configuration succeeds iff id and secret are non-empty, and copies them; the redirect URI is the given one or `http://localhost:38000/callback` |
| OAuthCallback.StateHasNoSeparator | refresh-token.js:67 | neither `refresh_<ms>` nor `state123` contains `&` |
| OAuthCallback.State | refresh-token.js:67 | the refresh script's state is `refresh_` followed by digits that parse back to the start time; the first-time script's is `state123` (oauth.js:51) |
| OAuthCallback.AuthUrl | oauth.js:51 | the authorize endpoint, `?`, then the query whose parameters `AuthQueryParameters` recovers |
| OAuthCallback.BasicCredentials | refresh-token.js:88-89 | Base64 of the UTF-8 bytes of `id:secret`, which `CredentialsDecode` inverts |
| OAuthCallback.AuthQueryJoin | oauth.js:51 | the authorization query is the five parameters joined with `&` |
| OAuthCallback.AuthQueryParameters | refresh-token.js:67 | for an id without `&`, splitting the query gives the five parameters back, and the redirect parameter decodes to the redirect URI the token request sends |
| OAuthCallback.TokenRequestFor | refresh-token.js:88-109 | the form is, in order, `code`, `grant_type=authorization_code`, `scope=tasks:read tasks:write` and the configured `redirect_uri`; the header is `Basic ` and the credentials |
| OAuthCallback.CredentialsDecode | refresh-token.js:88-89 | Base64 then UTF-8 decoding of the Basic credentials gives back `id:secret` |
| OAuthCallback.CredentialsSplit | oauth.js:78-81 | for an id without `:`, the first colon separates the id from the secret |
| OAuthCallback.Callback | oauth.js:58-196 | 404 iff not `/callback`; 400 iff no code; 200 iff a 200 reply with a token and a readable file; otherwise 500. A token request is sent iff there is a code. The file is stored iff 200, as the upsert of the token. The first-time script's 500 page carries the error detail (`ExchangeFailure` of the reply, or the read error) |
| OAuthCallback.FailureDetailReportsReply | oauth.js:155 | the refused-exchange message contains the status and the response body |
| OAuthCallback.ExchangeFailure | oauth.js:112-155 | the message of a refused exchange: the status and the JSON body, the `TypeError` of reading `access_token` of a `null` 200 reply, or the client error's message; `FailureDetailReportsReply` and `NullReplyShowsTypeError` state it |
| OAuthCallback.NullReplyShowsTypeError | oauth.js:112 | a 200 reply whose data is `null` answers 500 with `Cannot read properties of null (reading 'access_token')` and stores nothing |
| OAuthCallback.WholeTokenLine | refresh-token.js:121-122 | a token without line terminators gives one whole line that `.*` matches to its end |
| OAuthCallback.FirstCallbackAppends | refresh-token.js:124-126 | the first successful callback on a file without the key yields the old lines plus the token line |
| OAuthCallback.SecondCallbackReplaces | refresh-token.js:118-123 | a second callback rewrites the appended token line and nothing else |
| OAuthCallback.RepeatedCallbackReplaces | refresh-token.js:117-126 | two successful callbacks leave exactly one token line, the newest |
| OAuthCallback.CallbackServer.constructor | refresh-token.js:74 | a new server is listening, with no close scheduled and no exit |
| OAuthCallback.CallbackServer.HandleRequest | refresh-token.js:74-203 | the reply and the token request are those of `Callback`; the stored `.env` text is replaced exactly on success, and success schedules the close |
| OAuthCallback.CallbackServer.CloseTimerFires | refresh-token.js:150-158 | the timer closes the server; the refresh script then calls `process.exit(0)`, and the first-time script calls no exit (its process ends by itself once nothing is pending) |
| RefreshToken.Startup | refresh-token.js:12-38 | an unreadable `.env` is fatal; start-up succeeds iff the last id and secret lines are non-empty |
| RefreshToken.StartupTakesLastLines | refresh-token.js:16-24 | the configuration holds the values of the last matching lines |
| RefreshToken.CheckCurrentToken | refresh-token.js:44-64 | the loop reports a token iff the file is readable and some token line holds a value other than empty and `Bearer ` |
| RefreshToken.UsableReplacedLine | refresh-token.js:52 | a rewritten token line with a non-empty token counts as a usable token |
| RefreshToken.ReplacedTokenDetected | refresh-token.js:44-64 | after a callback replaces the token line, the next run's check reports a token |
| RefreshToken.AppendedTokenDetected | refresh-token.js:44-64 | after a callback appends the token line, the next run's check reports a token |
| RefreshToken.Launch | refresh-token.js:206-217 | the server starts iff start-up succeeds; it is then fresh, listening and not closing |
| OAuthScript.Startup | oauth.js:14-43 | a readable `.env` alone decides, with its last id, secret and redirect lines; otherwise the process environment supplies id, secret and redirect URI; an absent or empty redirect URI becomes the local default; failure is `MissingCredentials` |
| OAuthScript.FileOverridesEnvironment | oauth.js:27-33 | with a readable `.env` the environment has no influence |
| OAuthScript.GrantWithoutFileFails | oauth.js:157-175 | a granted token with an unreadable `.env` answers 500 with the read error as detail and stores nothing |
| OAuthScript.Launch | oauth.js:51-58 | the server starts iff start-up succeeds, with state `state123` |
| TokenExpiry.FindToken | check-token-expiry.js:10-23 | the loop stops at the first `DIDA365_TOKEN=` line and returns its value |
| TokenExpiry.Startup | check-token-expiry.js:10-28 | an unreadable file is fatal; a missing or empty token is fatal; otherwise the value returned is exactly the first token line's (non-empty) value |
| TokenExpiry.StripBearer | check-token-expiry.js:72 | without `Bearer ` the token is unchanged; otherwise exactly one occurrence is removed |
| TokenExpiry.StripBearerPrefix | check-token-expiry.js:72 | stripping a stored `Bearer <token>` gives the token |
| TokenExpiry.Expiry | check-token-expiry.js:91-101 | remaining iff `exp - floor(now/1000) > 0`, as whole hours and the minutes of the remainder (minutes < 60) |
| TokenExpiry.RemainingUnique | check-token-expiry.js:95-98 | the reported hours and minutes are the only ones with `3600h + 60m <= t < 3600h + 60m + 60` |
| TokenExpiry.Inspect | check-token-expiry.js:69-109 | not a JWT iff the stripped token does not split into three parts; for three parts, an unparseable payload reports its parse error, a payload without a truthy `exp` reports no expiry, and otherwise the report is `Expiry(exp, now)` |
| TokenExpiry.ThreePartsIsJwt | check-token-expiry.js:75-80 | any `header.body.signature` without dots in its parts, with or without `Bearer `, is a JWT |
| TokenExpiry.ReadsGrantedToken | check-token-expiry.js:10-28 | after the callback appends a token, the checker starts with `Bearer <token>` and strips it back to the token |
| TokenExpiry.Run | check-token-expiry.js:10-109 | the script fails as start-up fails, and otherwise reports `Inspect` of the found token |
| OAuthProbe.ReadCredentials | test-oauth.js:11-21 | the loop yields the last id and the last secret line's values |
| OAuthProbe.Credentials | test-oauth.js:11-37 | a readable `.env` decides; otherwise the environment's values, absent iff unset |
| OAuthProbe.SecretLength | test-oauth.js:26 | the printed length is 0 iff the secret is absent or empty, and otherwise exactly its UTF-16 length (`Utf16Length`), which is at least its number of characters |
| OAuthProbe.Utf16LengthBounds | test-oauth.js:36 | the UTF-16 length lies between one and two units per character, and equals the count iff all are in the BMP |
| OAuthProbe.AuthString | test-oauth.js:40 | the auth string is the rendered id, a colon and the rendered secret (`undefined` when absent) |
| OAuthProbe.Display | test-oauth.js:24-25 | `${v}` of a setting: its text, or `undefined` when absent; `AuthString` states its use |
| OAuthProbe.Utf16Length | test-oauth.js:26 | `.length` counts UTF-16 code units; `Utf16LengthBounds` bounds it |
| OAuthProbe.RoundTripAlwaysMatches | test-oauth.js:41-52 | the Base64 round trip always matches, for every id and secret |
| DistServer.Startup | dist/index.js:10-14 | the server starts iff `DIDA365_TOKEN` is set and non-empty, and uses that value |
| DistServer.RelativePathSameUrl | dist/index.js:16-22 | `project/…` and `/project/…` resolve to the same URL under the base URL |
| DistServer.ApiUrl | dist/index.js:16-22 | every URL starts with the Open API base and one `/`, and no second slash follows it |
| DistServer.ThrowValidError | dist/index.js:537-544 | no error iff both ids are truthy; otherwise `InvalidRequest` with the message naming exactly the missing ids |
| DistServer.BodyOfSpec | dist/index.js:283-292 | a field is in the body iff its inclusion rule holds for the arguments, and then it has the argument's value; no other keys |
| DistServer.BodyOf | dist/index.js:283-292 | the body built by setting the listed fields in order, each when its rule allows; `BodyOfSpec` states its contents |
| DistServer.BuildCreateTask | dist/index.js:283-292 | the imperative build of the task object equals the specified create-task body |
| DistServer.BuildUpdateTask | dist/index.js:338-350 | the imperative build of `updateData` equals the specified update-task body |
| DistServer.CreateTaskBody | dist/index.js:283-292 | title and projectId are always present; content and dueDate iff truthy; priority iff not undefined; values copied; no other keys |
| DistServer.UpdateTaskBody | dist/index.js:338-350 | title, content and dueDate iff truthy; priority and status iff not undefined (so 0 is kept); values copied; no other keys |
| DistServer.CreateProjectBody | dist/index.js:385-402 | name always present; color, sortOrder, viewMode and kind iff truthy (a sortOrder of 0 is dropped); values copied; no other keys |
| DistServer.UpdateProjectBody | dist/index.js:403-422 | the update body is the create-project body plus `id` |
| DistServer.Route | dist/index.js:281-464 | each tool's request: `create_task` POST `/task`, `update_task` PUT `/task/<t>`, `create_project` and `update_project_by_projectID` POST `/project` (bodies as `BodyOf` their field lists); `get_task_by_projectId_and_taskId` GET and `delete_task` DELETE `/project/<p>/task/<t>`; `complete_task` POST that path plus `/complete`; `get_tasks_by_projectId` GET `/project/<p>/data`; `get_projects` GET `/project`; `delete_project_by_projectID` DELETE `/project/<p>`; `get_project_by_projectId` GET `project/<p>`. The task-id tools succeed iff both ids are truthy, the project-id tools iff the project id is, with the validation messages; unknown names give `MethodNotFound "未知工具: <name>"` |
| DistServer.TaskPathSegments | dist/index.js:303-320 | `/project/<p>/task/<t>` splits into exactly its five segments |
| DistServer.TaskToolsUseTaskPath | dist/index.js:360-373 | the task-id tools address `/project/<p>/task/<t>`, or that path plus `/complete` |
| DistServer.ApiFailure | dist/index.js:467-474 | an API failure becomes an `InternalError` |
| DistServer.StatusText | dist/index.js:469-471 | `${status}` of a response status, `undefined` without a response; `ApiFailurePrefersResponseMessage` shows it in the message |
| DistServer.SuccessText | dist/index.js:298 | the fixed label of each tool followed by the response data, or for `delete_task` the task id; `CallTool` ties it to success |
| DistServer.ApiFailurePrefersResponseMessage | dist/index.js:470 | the response's `message` is used when truthy, otherwise the error's message |
| DistServer.CallTool | dist/index.js:275-475 | missing arguments give `InvalidRequest "参数不能为空"` and send nothing; a request is sent iff routing succeeds, and it is the routed request; a route error becomes `InternalError "工具执行失败: <message>"`; an API failure becomes `ApiFailure` of its status and messages; the call succeeds iff the API responds, with `SuccessText` of the tool |
| DistServer.UnknownToolIsInternalError | dist/index.js:463-473 | an unknown tool sends nothing and fails with `InternalError "工具执行失败: 未知工具: <name>"` |
| DistServer.MissingIdsSendNothing | dist/index.js:360-373 | a task-id tool without both ids sends no request and fails |
| DistServer.ReadResource | dist/index.js:496-536 | a request is sent iff the URI is one of the two resources (`GET /task`, `GET /project`); a response is returned as its JSON; an API failure gives the `ApiFailure` error; any other URI gives the internal error `资源获取失败: 未知资源URI: <uri>` |
| SrcServer.Configure | src/index.ts:28-31 | each setting is the environment's non-empty value, else empty, and the redirect URI falls back to `http://localhost:3000/callback` |
| SrcServer.RequestUrl | src/index.ts:41 | every request URL starts with the v2 API base and continues with the endpoint |
| SrcServer.RequestUrlInjective | src/index.ts:41 | distinct endpoints give distinct URLs |
| SrcServer.RequestErrorPrefersResponse | src/index.ts:50 | the error text carries the response's message when truthy, otherwise the error's message |
| SrcServer.RequestError | src/index.ts:50 | `Dida365 API Error: ` and the chosen message; `RequestErrorPrefersResponse` states the choice |
| SrcServer.CreateTaskData | src/index.ts:230-236 | the body has exactly the five keys, copies four, and has priority set to the argument when truthy, else 0 |
| SrcServer.Copied | src/index.ts:286-289 | a copied body has exactly the listed keys, each with the argument's value |
| SrcServer.ItemPathSegments | src/index.ts:258 | `/<collection>/<id>` splits into its segments |
| SrcServer.ItemPath | src/index.ts:258 | `/<collection>/<id>`, which `ItemPathSegments` splits back |
| SrcServer.Route | src/index.ts:228-336 | unknown names give `Unknown tool: <name>`; known tools route iff arguments exist or the tool lists; for each tool the whole request: `POST /tasks` with `CreateTaskData`, `GET /tasks`, `PUT /tasks/<taskId>` with title, content, status and priority copied, `DELETE /tasks/<taskId>`, `POST /projects` with name, description and color, `GET /projects`, `PUT /projects/<projectId>` with name and description, `DELETE /projects/<projectId>`; without arguments, the TypeError text of reading the first property (`title`, `taskId`, `name` or `projectId`) |
| SrcServer.CallTool | src/index.ts:224-349 | a request is sent iff routing succeeds, and it is the routed request; the result is an error iff nothing was sent or the API failed; a success carries `SuccessText`; a routing failure is `Error: ` and its message; an API failure is `Error: ` and the request error's text |
| SrcServer.SuccessText | src/index.ts:237-330 | the fixed text of each tool, followed by the response data where the source prints it; `CallTool` ties it to success |
| SrcServer.UnknownToolAnswered | src/index.ts:335-347 | an unknown tool sends nothing and answers `Error: Unknown tool: <name>` as an error result |
| SrcServer.ItemToolTargetsItem | src/index.ts:257-333 | the update and delete tools always route to their item's path |

## Left out

- The MCP SDK, the stdio transport, tool and resource listings, and schemas are left out; the model starts at a handler's inputs.
- The network is left out. Axios requests, their headers (the `Authorization` token, content types, user agent) and timeouts are not modelled; the answer is an input.
- `dist/index.js` throws an `McpError`; the SDK's formatting of its text (`MCP error <code>: …`) is not modelled, and the model keeps the raw message.
- File reads and writes are left out. A read is a `Result` of the text or the error message; a write is the new text the model returns. Write failures are not modelled.
- The callback server's `listen` errors (`EADDRINUSE`), URL parsing of the request, the HTML pages and the console output are left out.
- The three-second `setTimeout` is modelled only as the separate `CloseTimerFires` step, and concurrency between requests is not modelled.
- `Date.now()` is an input.
- JSON parsing and printing are left out. The JWT payload arrives already decoded, and `JSON.stringify` text in replies is an input string.
- The Base64 decoding of the JWT payload and `toLocaleString` of dates are not modelled.
- `checkTokenInfo` in `check-token-expiry.js` calls the API and is not part of this model.
- The direct client-credentials request at the end of `test-oauth.js` is not part of this model.
- Floating point is not modelled. `exp` is an integer number of seconds.
- `URLSearchParams` serialisation of the token form is not modelled; the form is kept as its ordered fields.
- Node's lenient Base64 and UTF-8 decoding of malformed input are not modelled. Decoding only has to succeed on well-formed input.
- `$` patterns in the replacement string of `String.prototype.replace` are not modelled. A token containing `$&` or `$1` would be expanded by JavaScript, and the model inserts it literally.
- `SrcServer.Route` keeps `undefined` values in the request body map; `JSON.stringify` would drop them when sending.
- `DistServer.BodyOf` and `DistServer.Route` keep a listed key whose value is `undefined` (`title`/`projectId` in `create_task`, `id`/`name` in `update_project`) in the body map; `JSON.stringify` would drop such keys when sending.
- `TokenExpiry.Inspect`: a payload that fails to parse is modelled as an input case, not derived from the token's middle part.
