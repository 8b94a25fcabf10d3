/**
 * The TypeScript tool server (`src/index.ts`): its configuration defaults,
 * the URL and error text of `makeDidaRequest`, and the tool handler, which
 * maps a tool name to an API request and turns every failure into a result
 * flagged `isError` instead of throwing.
 */
module SrcServer {
  import opened Wrappers
  import opened Text
  import opened JsValue
  import opened Http

  const ApiBase := "https://api.dida365.com/api/v2"
  const DefaultRedirectUri := "http://localhost:3000/callback"

  // ---- configuration ----

  datatype Config = Config(token: string, clientId: string, clientSecret: string, redirectUri: string)

  /** A variable that is set to a non-empty value. */
  predicate IsSet(env: map<string, string>, key: string) {
    key in env && env[key] != ""
  }

  /** `process.env[key] || fallback` */
  function EnvOr(env: map<string, string>, key: string, fallback: string): string {
    if IsSet(env, key) then env[key] else fallback
  }

  /** The module constants read from the environment, each with its `||` default. */
  function Configure(env: map<string, string>): (c: Config)
    ensures IsSet(env, "DIDA365_TOKEN") ==> c.token == env["DIDA365_TOKEN"]
    ensures IsSet(env, "DIDA_CLIENT_ID") ==> c.clientId == env["DIDA_CLIENT_ID"]
    ensures IsSet(env, "DIDA_CLIENT_SECRET") ==> c.clientSecret == env["DIDA_CLIENT_SECRET"]
    ensures IsSet(env, "DIDA_REDIRECT_URI") ==> c.redirectUri == env["DIDA_REDIRECT_URI"]
    ensures !IsSet(env, "DIDA365_TOKEN") <==> c.token == ""
    ensures !IsSet(env, "DIDA_CLIENT_ID") <==> c.clientId == ""
    ensures !IsSet(env, "DIDA_CLIENT_SECRET") <==> c.clientSecret == ""
    ensures !IsSet(env, "DIDA_REDIRECT_URI") ==> c.redirectUri == DefaultRedirectUri
    ensures c.redirectUri != ""
  {
    Config(EnvOr(env, "DIDA365_TOKEN", ""), EnvOr(env, "DIDA_CLIENT_ID", ""),
           EnvOr(env, "DIDA_CLIENT_SECRET", ""), EnvOr(env, "DIDA_REDIRECT_URI", DefaultRedirectUri))
  }

  // ---- makeDidaRequest ----

  /** The URL of an endpoint: the base and the endpoint concatenated, with nothing in between. */
  function RequestUrl(endpoint: string): (url: string)
    ensures StartsWith(url, ApiBase) && url[|ApiBase|..] == endpoint
  {
    ApiBase + endpoint
  }

  /** Different endpoints are requested at different URLs. */
  lemma {:induction false} RequestUrlInjective(e1: string, e2: string)
    requires RequestUrl(e1) == RequestUrl(e2)
    ensures e1 == e2
  {
    assert e1 == RequestUrl(e1)[|ApiBase|..];
  }

  /** The message of the error `makeDidaRequest` throws: the response's own message if it has one, else the error's. */
  function RequestError(dataMessage: Value, message: string): string {
    "Dida365 API Error: " + (if Truthy(dataMessage) then ToText(dataMessage) else message)
  }

  /** The message a failed request carries ends with the response's message when that is truthy, and with the error's otherwise. */
  lemma {:induction false} RequestErrorPrefersResponse(dataMessage: Value, message: string)
    ensures var e := RequestError(dataMessage, message);
      var tail := if Truthy(dataMessage) then ToText(dataMessage) else message;
      StartsWith(e, "Dida365 API Error: ") && e[|"Dida365 API Error: "|..] == tail
  {
  }

  // ---- request data ----

  /** The `createTask` data: four arguments copied, and `priority` defaulted to 0 when falsy. */
  function CreateTaskData(args: Body): (d: Body)
    ensures d.Keys == {"title", "content", "projectId", "dueDate", "priority"}
    ensures forall k :: k in {"title", "content", "projectId", "dueDate"} ==> d[k] == Get(args, k)
    ensures Truthy(Get(args, "priority")) ==> d["priority"] == Get(args, "priority")
    ensures !Truthy(Get(args, "priority")) ==> d["priority"] == Num(0)
  {
    map["title" := Get(args, "title"), "content" := Get(args, "content"), "projectId" := Get(args, "projectId"),
        "dueDate" := Get(args, "dueDate"),
        "priority" := if Truthy(Get(args, "priority")) then Get(args, "priority") else Num(0)]
  }

  /** The data of a request built from an object literal: each listed argument copied, absent ones as undefined. */
  function Copied(keys: seq<string>, args: Body): (d: Body)
    ensures d.Keys == set i | 0 <= i < |keys| :: keys[i]
    ensures forall i :: 0 <= i < |keys| ==> d[keys[i]] == Get(args, keys[i])
  {
    if keys == [] then map[] else Copied(keys[..|keys| - 1], args)[keys[|keys| - 1] := Get(args, keys[|keys| - 1])]
  }

  // ---- the handler ----

  const ToolNames := {
    "createTask", "getTasks", "updateTask", "deleteTask", "createProject", "getProjects", "updateProject", "deleteProject"}

  /** The tools that name one task or project in their path. */
  const ItemTools := {"updateTask", "deleteTask", "updateProject", "deleteProject"}

  /** The message of the TypeError a property read on undefined `arguments` throws. */
  function UndefinedRead(property: string): string {
    "Cannot read properties of undefined (reading '" + property + "')"
  }

  /** The path of one task or project: a collection and an id. */
  function ItemPath(collection: string, id: Value): string {
    "/" + collection + "/" + ToText(id)
  }

  /** An item path splits back into its collection and its id, when neither holds a `/`. */
  lemma {:induction false} ItemPathSegments(collection: string, id: Value)
    requires '/' !in collection && '/' !in ToText(id)
    ensures Split(ItemPath(collection, id), '/') == ["", collection, ToText(id)]
  {
    var ps := ["", collection, ToText(id)];
    assert Join(ps[2..], '/') == ToText(id);
    assert Join(ps[1..], '/') == collection + ['/'] + ToText(id);
    assert Join(ps, '/') == ItemPath(collection, id);
    assert forall i :: 0 <= i < |ps| ==> '/' !in ps[i];
    SplitJoin(ps, '/');
  }

  /**
   * The `switch` on the tool name: the request each tool makes, or the
   * message of what it throws first (a read from missing arguments, or the
   * unknown-tool error).
   */
  function Route(name: string, args: Option<Body>): (r: Result<ApiRequest, string>)
    ensures name !in ToolNames ==> r == Err("Unknown tool: " + name)
    ensures name in ToolNames ==> (r.Ok? <==> args.Some? || name in {"getTasks", "getProjects"})
    ensures r.Ok? ==> (r.value.verb == GET <==> name in {"getTasks", "getProjects"})
    ensures r.Ok? ==> (r.value.verb == POST <==> name in {"createTask", "createProject"})
    ensures r.Ok? ==> (r.value.verb == PUT <==> name in {"updateTask", "updateProject"})
    ensures r.Ok? ==> (r.value.verb == DELETE <==> name in {"deleteTask", "deleteProject"})
    ensures r.Ok? ==> (r.value.body.Some? <==> r.value.verb in {POST, PUT})
    ensures r.Ok? && name in {"updateTask", "deleteTask"} ==> r.value.path == ItemPath("tasks", Get(args.value, "taskId"))
    ensures r.Ok? && name in {"updateProject", "deleteProject"} ==>
      r.value.path == ItemPath("projects", Get(args.value, "projectId"))
    ensures name == "createTask" && args.Some? ==>
      r == Ok(ApiRequest(POST, "/tasks", Some(CreateTaskData(args.value))))
    ensures name == "getTasks" ==> r == Ok(ApiRequest(GET, "/tasks", None))
    ensures name == "updateTask" && args.Some? ==>
      r == Ok(ApiRequest(PUT, ItemPath("tasks", Get(args.value, "taskId")),
                         Some(Copied(["title", "content", "status", "priority"], args.value))))
    ensures name == "deleteTask" && args.Some? ==>
      r == Ok(ApiRequest(DELETE, ItemPath("tasks", Get(args.value, "taskId")), None))
    ensures name == "createProject" && args.Some? ==>
      r == Ok(ApiRequest(POST, "/projects", Some(Copied(["name", "description", "color"], args.value))))
    ensures name == "getProjects" ==> r == Ok(ApiRequest(GET, "/projects", None))
    ensures name == "updateProject" && args.Some? ==>
      r == Ok(ApiRequest(PUT, ItemPath("projects", Get(args.value, "projectId")),
                         Some(Copied(["name", "description"], args.value))))
    ensures name == "deleteProject" && args.Some? ==>
      r == Ok(ApiRequest(DELETE, ItemPath("projects", Get(args.value, "projectId")), None))
    ensures args.None? && name == "createTask" ==> r == Err(UndefinedRead("title"))
    ensures args.None? && name == "createProject" ==> r == Err(UndefinedRead("name"))
    ensures args.None? && name in {"updateTask", "deleteTask"} ==> r == Err(UndefinedRead("taskId"))
    ensures args.None? && name in {"updateProject", "deleteProject"} ==> r == Err(UndefinedRead("projectId"))
  {
    match name
    case "createTask" =>
      if args.None? then Err(UndefinedRead("title"))
      else Ok(ApiRequest(POST, "/tasks", Some(CreateTaskData(args.value))))
    case "getTasks" => Ok(ApiRequest(GET, "/tasks", None))
    case "updateTask" =>
      if args.None? then Err(UndefinedRead("taskId"))
      else Ok(ApiRequest(PUT, ItemPath("tasks", Get(args.value, "taskId")),
                         Some(Copied(["title", "content", "status", "priority"], args.value))))
    case "deleteTask" =>
      if args.None? then Err(UndefinedRead("taskId"))
      else Ok(ApiRequest(DELETE, ItemPath("tasks", Get(args.value, "taskId")), None))
    case "createProject" =>
      if args.None? then Err(UndefinedRead("name"))
      else Ok(ApiRequest(POST, "/projects", Some(Copied(["name", "description", "color"], args.value))))
    case "getProjects" => Ok(ApiRequest(GET, "/projects", None))
    case "updateProject" =>
      if args.None? then Err(UndefinedRead("projectId"))
      else Ok(ApiRequest(PUT, ItemPath("projects", Get(args.value, "projectId")),
                         Some(Copied(["name", "description"], args.value))))
    case "deleteProject" =>
      if args.None? then Err(UndefinedRead("projectId"))
      else Ok(ApiRequest(DELETE, ItemPath("projects", Get(args.value, "projectId")), None))
    case _ => Err("Unknown tool: " + name)
  }

  /** The text of a successful call. */
  function SuccessText(name: string, json: string): string {
    match name
    case "createTask" => "Task created successfully: " + json
    case "getTasks" => "Tasks retrieved: " + json
    case "updateTask" => "Task updated successfully: " + json
    case "deleteTask" => "Task deleted successfully"
    case "createProject" => "Project created successfully: " + json
    case "getProjects" => "Projects retrieved: " + json
    case "updateProject" => "Project updated successfully: " + json
    case _ => "Project deleted successfully"
  }

  /** A tool result: its text and whether it is flagged as an error. */
  datatype ToolResult = ToolResult(text: string, isError: bool)

  /** What one tool call does: the request it sent, if any, and the result it returns. */
  datatype Call = Call(sent: Option<ApiRequest>, result: ToolResult)

  /**
   * The `CallToolRequestSchema` handler. Nothing is thrown out of it: every
   * failure is caught and returned as `Error: ` and the failure's message.
   */
  function CallTool(name: string, args: Option<Body>, api: ApiOutcome): (c: Call)
    ensures c.sent.Some? <==> Route(name, args).Ok?
    ensures c.sent.Some? ==> c.sent.value == Route(name, args).value
    ensures !c.result.isError <==> c.sent.Some? && api.Responded?
    ensures c.result.isError ==> StartsWith(c.result.text, "Error: ")
    ensures c.result.isError && c.sent.Some? ==>
      c.result.text == "Error: " + RequestError(api.dataMessage, api.message)
    ensures !c.result.isError ==> c.result.text == SuccessText(name, api.json)
    ensures c.sent.None? ==> c.result.text == "Error: " + Route(name, args).error
  {
    match Route(name, args)
    case Err(message) => Call(None, ToolResult("Error: " + message, true))
    case Ok(request) =>
      match api
      case Responded(json) => Call(Some(request), ToolResult(SuccessText(name, json), false))
      case Failed(_, dataMessage, message) => Call(Some(request), ToolResult("Error: " + RequestError(dataMessage, message), true))
  }

  /** An unknown tool sends nothing and is answered, not thrown, as `Error: Unknown tool: <name>`. */
  lemma {:induction false} UnknownToolAnswered(name: string, args: Option<Body>, api: ApiOutcome)
    requires name !in ToolNames
    ensures CallTool(name, args, api) == Call(None, ToolResult("Error: Unknown tool: " + name, true))
  {
    assert "Error: " + ("Unknown tool: " + name) == "Error: Unknown tool: " + name;
  }

  /**
   * A tool that names one item requests the URL of that item: the URL is the
   * base followed by the collection and the id, which split back out of it.
   */
  lemma {:induction false} ItemToolTargetsItem(name: string, args: Body)
    requires name in ItemTools
    ensures Route(name, Some(args)).Ok?
    ensures var collection := if name in {"updateTask", "deleteTask"} then "tasks" else "projects";
      var id := if name in {"updateTask", "deleteTask"} then Get(args, "taskId") else Get(args, "projectId");
      '/' !in ToText(id) ==>
        RequestUrl(Route(name, Some(args)).value.path)[|ApiBase|..] == ItemPath(collection, id)
        && Split(ItemPath(collection, id), '/') == ["", collection, ToText(id)]
  {
    var collection := if name in {"updateTask", "deleteTask"} then "tasks" else "projects";
    var id := if name in {"updateTask", "deleteTask"} then Get(args, "taskId") else Get(args, "projectId");
    if '/' !in ToText(id) {
      assert '/' !in "tasks" && '/' !in "projects";
      ItemPathSegments(collection, id);
    }
  }
}
