/**
 * The compiled tool server (`dist/index.js`): argument validation, request
 * bodies with optional fields, the mapping from tool name or resource URI to
 * an API request, and the rewrapping of every failure as an MCP error.
 */
module DistServer {
  import opened Wrappers
  import opened Text
  import opened JsValue
  import opened Http

  const BaseUrl := "https://api.dida365.com/open/v1"

  /** The MCP error codes the server raises. */
  datatype ErrorCode = InvalidRequest | MethodNotFound | InternalError

  /** An `McpError` with the message text passed to its constructor. */
  datatype McpError = McpError(code: ErrorCode, message: string)

  /** The server starts only with a non-empty `DIDA365_TOKEN` in its environment. */
  function Startup(env: map<string, string>): (token: Option<string>)
    ensures token.Some? <==> "DIDA365_TOKEN" in env && env["DIDA365_TOKEN"] != ""
    ensures token.Some? ==> token.value == env["DIDA365_TOKEN"]
  {
    if "DIDA365_TOKEN" in env && env["DIDA365_TOKEN"] != "" then Some(env["DIDA365_TOKEN"]) else None
  }

  /** The full URL of a path: axios joins base and path with exactly one slash. */
  function ApiUrl(path: string): (url: string)
    ensures StartsWith(url, BaseUrl + "/")
    ensures |url| == |BaseUrl| + 1 || url[|BaseUrl| + 1] != '/'
  {
    BaseUrl + "/" + WithoutLeadingSlashes(path)
  }

  function WithoutLeadingSlashes(path: string): (r: string)
    ensures r == [] || r[0] != '/'
    decreases |path|
  {
    if path != [] && path[0] == '/' then WithoutLeadingSlashes(path[1..]) else path
  }

  /** The one path written without a leading slash reaches the same URL as with it. */
  lemma {:induction false} RelativePathSameUrl(rest: string)
    ensures ApiUrl("project/" + rest) == ApiUrl("/project/" + rest)
  {
    assert ("/project/" + rest)[1..] == "project/" + rest;
  }

  // ---- validation ----

  /** `throwValidError`: the id checks, in the order the source makes them. */
  function ThrowValidError(projectId: Value, taskId: Value): (r: Option<McpError>)
    ensures r.None? <==> Truthy(projectId) && Truthy(taskId)
    ensures r.Some? ==> r.value.code == InvalidRequest
    ensures r.Some? ==> (r.value.message == "projectId 和 taskId 为空" <==> !Truthy(projectId) && !Truthy(taskId))
    ensures r.Some? ==> (r.value.message == "projectId 为空" <==> !Truthy(projectId) && Truthy(taskId))
    ensures r.Some? ==> (r.value.message == "taskId 为空" <==> Truthy(projectId) && !Truthy(taskId))
  {
    if !Truthy(projectId) && !Truthy(taskId) then Some(McpError(InvalidRequest, "projectId 和 taskId 为空"))
    else if !Truthy(projectId) then Some(McpError(InvalidRequest, "projectId 为空"))
    else if !Truthy(taskId) then Some(McpError(InvalidRequest, "taskId 为空"))
    else None
  }

  // ---- request bodies ----

  /** When a body field is set: always, when its argument is truthy, or when its argument is not undefined. */
  datatype Rule = Always | IfTruthy | IfDefined

  /** A body field, the argument it is taken from, and its rule. */
  datatype Field = Field(name: string, source: string, rule: Rule)

  predicate Included(f: Field, args: Body) {
    match f.rule
    case Always => true
    case IfTruthy => Truthy(Get(args, f.source))
    case IfDefined => Get(args, f.source) != Undefined
  }

  /** The body the fields describe, set in order. */
  function BodyOf(fields: seq<Field>, args: Body): Body
    decreases |fields|
  {
    if fields == [] then map[]
    else
      var b := BodyOf(fields[..|fields| - 1], args);
      var f := fields[|fields| - 1];
      if Included(f, args) then b[f.name := Get(args, f.source)] else b
  }

  predicate DistinctNames(fields: seq<Field>) {
    forall i, j :: 0 <= i < j < |fields| ==> fields[i].name != fields[j].name
  }

  /**
   * With distinct field names, a field is in the body exactly when its rule
   * includes it, it then holds its argument's value, and nothing else is in the body.
   */
  lemma {:induction false} BodyOfSpec(fields: seq<Field>, args: Body)
    requires DistinctNames(fields)
    ensures forall i :: 0 <= i < |fields| ==> (fields[i].name in BodyOf(fields, args) <==> Included(fields[i], args))
    ensures forall i :: 0 <= i < |fields| && Included(fields[i], args) ==>
              BodyOf(fields, args)[fields[i].name] == Get(args, fields[i].source)
    ensures forall k :: k in BodyOf(fields, args) ==> exists i :: 0 <= i < |fields| && fields[i].name == k
    decreases |fields|
  {
    if fields != [] {
      var init := fields[..|fields| - 1];
      BodyOfSpec(init, args);
      assert forall i :: 0 <= i < |init| ==> init[i] == fields[i];
    }
  }

  const CreateTaskFields := [
    Field("title", "title", Always), Field("projectId", "projectId", Always),
    Field("content", "content", IfTruthy), Field("dueDate", "dueDate", IfTruthy),
    Field("priority", "priority", IfDefined)]

  const UpdateTaskFields := [
    Field("title", "title", IfTruthy), Field("content", "content", IfTruthy),
    Field("dueDate", "dueDate", IfTruthy), Field("priority", "priority", IfDefined),
    Field("status", "status", IfDefined)]

  const CreateProjectFields := [
    Field("name", "name", Always), Field("color", "color", IfTruthy),
    Field("sortOrder", "sortOrder", IfTruthy), Field("viewMode", "viewMode", IfTruthy),
    Field("kind", "kind", IfTruthy)]

  const UpdateProjectFields := [Field("id", "projectId", Always)] + CreateProjectFields

  /** Setting one more field extends the body as its rule says. */
  lemma {:induction false} BodyOfSnoc(fields: seq<Field>, f: Field, args: Body)
    ensures BodyOf(fields + [f], args)
         == if Included(f, args) then BodyOf(fields, args)[f.name := Get(args, f.source)] else BodyOf(fields, args)
  {
    assert (fields + [f])[..|fields|] == fields;
  }

  /** The `create_task` body, assigned one field at a time. */
  method BuildCreateTask(args: Body) returns (task: Body)
    ensures task == BodyOf(CreateTaskFields, args)
  {
    ghost var done := [Field("title", "title", Always)];
    BodyOfSnoc([], done[0], args);
    BodyOfSnoc(done, Field("projectId", "projectId", Always), args);
    done := done + [Field("projectId", "projectId", Always)];
    task := map["title" := Get(args, "title"), "projectId" := Get(args, "projectId")];
    assert task == BodyOf(done, args);
    BodyOfSnoc(done, Field("content", "content", IfTruthy), args);
    done := done + [Field("content", "content", IfTruthy)];
    if Truthy(Get(args, "content")) {
      task := task["content" := Get(args, "content")];
    }
    BodyOfSnoc(done, Field("dueDate", "dueDate", IfTruthy), args);
    done := done + [Field("dueDate", "dueDate", IfTruthy)];
    if Truthy(Get(args, "dueDate")) {
      task := task["dueDate" := Get(args, "dueDate")];
    }
    BodyOfSnoc(done, Field("priority", "priority", IfDefined), args);
    done := done + [Field("priority", "priority", IfDefined)];
    if Get(args, "priority") != Undefined {
      task := task["priority" := Get(args, "priority")];
    }
    assert done == CreateTaskFields;
  }

  /** The `update_task` body, assigned one field at a time. */
  method BuildUpdateTask(args: Body) returns (updateData: Body)
    ensures updateData == BodyOf(UpdateTaskFields, args)
  {
    ghost var done: seq<Field> := [];
    updateData := map[];
    BodyOfSnoc(done, Field("title", "title", IfTruthy), args);
    done := done + [Field("title", "title", IfTruthy)];
    if Truthy(Get(args, "title")) {
      updateData := updateData["title" := Get(args, "title")];
    }
    BodyOfSnoc(done, Field("content", "content", IfTruthy), args);
    done := done + [Field("content", "content", IfTruthy)];
    if Truthy(Get(args, "content")) {
      updateData := updateData["content" := Get(args, "content")];
    }
    BodyOfSnoc(done, Field("dueDate", "dueDate", IfTruthy), args);
    done := done + [Field("dueDate", "dueDate", IfTruthy)];
    if Truthy(Get(args, "dueDate")) {
      updateData := updateData["dueDate" := Get(args, "dueDate")];
    }
    BodyOfSnoc(done, Field("priority", "priority", IfDefined), args);
    done := done + [Field("priority", "priority", IfDefined)];
    if Get(args, "priority") != Undefined {
      updateData := updateData["priority" := Get(args, "priority")];
    }
    BodyOfSnoc(done, Field("status", "status", IfDefined), args);
    done := done + [Field("status", "status", IfDefined)];
    if Get(args, "status") != Undefined {
      updateData := updateData["status" := Get(args, "status")];
    }
    assert done == UpdateTaskFields;
  }

  /** Fields named after the argument they copy. */
  predicate NamedAfterSource(fields: seq<Field>) {
    forall i :: 0 <= i < |fields| ==> fields[i].name == fields[i].source
  }

  /** A body of fields named after their arguments copies each argument under its own name. */
  lemma {:induction false} CopiesArguments(fields: seq<Field>, args: Body)
    requires DistinctNames(fields) && NamedAfterSource(fields)
    ensures forall k :: k in BodyOf(fields, args) ==> BodyOf(fields, args)[k] == Get(args, k)
  {
    BodyOfSpec(fields, args);
    var b := BodyOf(fields, args);
    forall k | k in b ensures b[k] == Get(args, k) {
      var i :| 0 <= i < |fields| && fields[i].name == k;
    }
  }

  /** One field is in the body exactly when its rule includes it. */
  lemma {:induction false} FieldRule(fields: seq<Field>, args: Body, i: nat)
    requires DistinctNames(fields) && i < |fields|
    ensures fields[i].name in BodyOf(fields, args) <==> Included(fields[i], args)
  {
    BodyOfSpec(fields, args);
  }

  /** The body holds no key other than the fields' names. */
  lemma {:induction false} KeysWithin(fields: seq<Field>, args: Body, names: set<string>)
    requires forall i :: 0 <= i < |fields| ==> fields[i].name in names
    ensures BodyOf(fields, args).Keys <= names
    decreases |fields|
  {
    if fields != [] {
      KeysWithin(fields[..|fields| - 1], args, names);
    }
  }

  /** Setting a field first, ahead of fields with other names, is the same as setting it last. */
  lemma {:induction false} BodyOfPrepend(f: Field, fields: seq<Field>, args: Body)
    requires Included(f, args)
    requires forall i :: 0 <= i < |fields| ==> fields[i].name != f.name
    ensures BodyOf([f] + fields, args) == BodyOf(fields, args)[f.name := Get(args, f.source)]
    decreases |fields|
  {
    if fields == [] {
      assert [f] + fields == [f];
      assert [f][..0] == [];
    } else {
      var init, last := fields[..|fields| - 1], fields[|fields| - 1];
      BodyOfPrepend(f, init, args);
      assert ([f] + fields)[..|fields|] == [f] + init;
      assert ([f] + fields)[|fields|] == last;
    }
  }

  lemma {:induction false} TaskFieldsWellFormed()
    ensures DistinctNames(CreateTaskFields) && NamedAfterSource(CreateTaskFields)
    ensures DistinctNames(UpdateTaskFields) && NamedAfterSource(UpdateTaskFields)
  {
  }

  lemma {:induction false} ProjectFieldsWellFormed()
    ensures DistinctNames(CreateProjectFields) && NamedAfterSource(CreateProjectFields)
  {
  }

  /**
   * The `create_task` body: `title` and `projectId` always, `content` and
   * `dueDate` only when truthy, `priority` whenever defined (so 0 is kept).
   */
  lemma {:induction false} CreateTaskBody(args: Body)
    ensures var b := BodyOf(CreateTaskFields, args);
      "title" in b && "projectId" in b
      && ("content" in b <==> Truthy(Get(args, "content")))
      && ("dueDate" in b <==> Truthy(Get(args, "dueDate")))
      && ("priority" in b <==> Get(args, "priority") != Undefined)
      && (forall k :: k in b ==> b[k] == Get(args, k))
      && b.Keys <= {"title", "projectId", "content", "dueDate", "priority"}
  {
    var fs := CreateTaskFields;
    TaskFieldsWellFormed();
    FieldRule(fs, args, 0);
    FieldRule(fs, args, 1);
    FieldRule(fs, args, 2);
    FieldRule(fs, args, 3);
    FieldRule(fs, args, 4);
    CopiesArguments(fs, args);
    KeysWithin(fs, args, {"title", "projectId", "content", "dueDate", "priority"});
  }

  /** The `update_task` body holds only the supplied fields; `priority` and `status` are kept when 0. */
  lemma {:induction false} UpdateTaskBody(args: Body)
    ensures var b := BodyOf(UpdateTaskFields, args);
      ("title" in b <==> Truthy(Get(args, "title")))
      && ("content" in b <==> Truthy(Get(args, "content")))
      && ("dueDate" in b <==> Truthy(Get(args, "dueDate")))
      && ("priority" in b <==> Get(args, "priority") != Undefined)
      && ("status" in b <==> Get(args, "status") != Undefined)
      && (forall k :: k in b ==> b[k] == Get(args, k))
      && b.Keys <= {"title", "content", "dueDate", "priority", "status"}
  {
    var fs := UpdateTaskFields;
    TaskFieldsWellFormed();
    FieldRule(fs, args, 0);
    FieldRule(fs, args, 1);
    FieldRule(fs, args, 2);
    FieldRule(fs, args, 3);
    FieldRule(fs, args, 4);
    CopiesArguments(fs, args);
    KeysWithin(fs, args, {"title", "content", "dueDate", "priority", "status"});
  }

  /**
   * The `create_project` body: `name` always, the four optional fields only
   * when truthy (a `sortOrder` of 0 is dropped).
   */
  lemma {:induction false} CreateProjectBody(args: Body)
    ensures var b := BodyOf(CreateProjectFields, args);
      "name" in b
      && ("color" in b <==> Truthy(Get(args, "color")))
      && ("sortOrder" in b <==> Truthy(Get(args, "sortOrder")))
      && ("viewMode" in b <==> Truthy(Get(args, "viewMode")))
      && ("kind" in b <==> Truthy(Get(args, "kind")))
      && (forall k :: k in b ==> b[k] == Get(args, k))
      && b.Keys <= {"name", "color", "sortOrder", "viewMode", "kind"}
  {
    var fs := CreateProjectFields;
    ProjectFieldsWellFormed();
    FieldRule(fs, args, 0);
    FieldRule(fs, args, 1);
    FieldRule(fs, args, 2);
    FieldRule(fs, args, 3);
    FieldRule(fs, args, 4);
    CopiesArguments(fs, args);
    KeysWithin(fs, args, {"name", "color", "sortOrder", "viewMode", "kind"});
  }

  /** The update variant is the create body plus `id`, taken from `projectId`. */
  lemma {:induction false} UpdateProjectBody(args: Body)
    ensures BodyOf(UpdateProjectFields, args) == BodyOf(CreateProjectFields, args)["id" := Get(args, "projectId")]
  {
    BodyOfPrepend(Field("id", "projectId", Always), CreateProjectFields, args);
  }

  // ---- routing ----

  const ToolNames := {
    "create_task", "get_task_by_projectId_and_taskId", "get_tasks_by_projectId", "update_task",
    "delete_task", "get_projects", "create_project", "update_project_by_projectID",
    "delete_project_by_projectID", "complete_task", "get_project_by_projectId"}

  /** The tools that need both a project id and a task id. */
  const TaskIdTools := {"get_task_by_projectId_and_taskId", "delete_task", "complete_task"}

  /** The tools that need a project id only. */
  const ProjectIdTools := {
    "get_tasks_by_projectId", "update_project_by_projectID", "delete_project_by_projectID", "get_project_by_projectId"}

  /** The path of one task of one project. */
  function TaskPath(projectId: Value, taskId: Value): string {
    "/project/" + ToText(projectId) + "/task/" + ToText(taskId)
  }

  /**
   * The `switch` on the tool name: the validation each tool makes, then the
   * API request it sends.
   */
  function Route(name: string, args: Body): (r: Result<ApiRequest, McpError>)
    ensures r.Err? ==> r.error.code != InternalError
    ensures r.Err? && r.error.code == MethodNotFound <==> name !in ToolNames
    ensures name in {"create_task", "update_task", "get_projects", "create_project"} ==> r.Ok?
    ensures name in TaskIdTools ==> (r.Ok? <==> Truthy(Get(args, "projectId")) && Truthy(Get(args, "taskId")))
    ensures name in ProjectIdTools ==> (r.Ok? <==> Truthy(Get(args, "projectId")))
    ensures r.Ok? ==> (r.value.body.Some? <==>
      name in {"create_task", "update_task", "create_project", "update_project_by_projectID"})
    // the request each tool sends
    ensures name == "create_task" ==> r == Ok(ApiRequest(POST, "/task", Some(BodyOf(CreateTaskFields, args))))
    ensures name == "get_task_by_projectId_and_taskId" && r.Ok? ==>
      r.value == ApiRequest(GET, TaskPath(Get(args, "projectId"), Get(args, "taskId")), None)
    ensures name == "get_tasks_by_projectId" && r.Ok? ==>
      r.value == ApiRequest(GET, "/project/" + ToText(Get(args, "projectId")) + "/data", None)
    ensures name == "update_task" ==>
      r == Ok(ApiRequest(PUT, "/task/" + ToText(Get(args, "taskId")), Some(BodyOf(UpdateTaskFields, args))))
    ensures name == "delete_task" && r.Ok? ==>
      r.value == ApiRequest(DELETE, TaskPath(Get(args, "projectId"), Get(args, "taskId")), None)
    ensures name == "get_projects" ==> r == Ok(ApiRequest(GET, "/project", None))
    ensures name == "create_project" ==> r == Ok(ApiRequest(POST, "/project", Some(BodyOf(CreateProjectFields, args))))
    ensures name == "update_project_by_projectID" && r.Ok? ==>
      r.value == ApiRequest(POST, "/project", Some(BodyOf(UpdateProjectFields, args)))
    ensures name == "delete_project_by_projectID" && r.Ok? ==>
      r.value == ApiRequest(DELETE, "/project/" + ToText(Get(args, "projectId")), None)
    ensures name == "complete_task" && r.Ok? ==>
      r.value == ApiRequest(POST, TaskPath(Get(args, "projectId"), Get(args, "taskId")) + "/complete", None)
    ensures name == "get_project_by_projectId" && r.Ok? ==>
      r.value == ApiRequest(GET, "project/" + ToText(Get(args, "projectId")), None)
    // the error each refusal carries
    ensures name !in ToolNames ==> r == Err(McpError(MethodNotFound, "未知工具: " + name))
    ensures name == "get_task_by_projectId_and_taskId" && r.Err? ==> r.error == McpError(InvalidRequest, "项目ID或任务ID为空")
    ensures name == "get_tasks_by_projectId" && r.Err? ==> r.error == McpError(InvalidRequest, "项目名称为空")
    ensures name in {"delete_task", "complete_task"} && r.Err? ==>
      Some(r.error) == ThrowValidError(Get(args, "projectId"), Get(args, "taskId"))
    ensures name in {"update_project_by_projectID", "delete_project_by_projectID", "get_project_by_projectId"} && r.Err? ==>
      Some(r.error) == ThrowValidError(Get(args, "projectId"), Str("1"))
  {
    var p, t := Get(args, "projectId"), Get(args, "taskId");
    match name
    case "create_task" => Ok(ApiRequest(POST, "/task", Some(BodyOf(CreateTaskFields, args))))
    case "get_task_by_projectId_and_taskId" =>
      if !Truthy(p) || !Truthy(t) then Err(McpError(InvalidRequest, "项目ID或任务ID为空"))
      else Ok(ApiRequest(GET, TaskPath(p, t), None))
    case "get_tasks_by_projectId" =>
      if Truthy(p) then Ok(ApiRequest(GET, "/project/" + ToText(p) + "/data", None))
      else Err(McpError(InvalidRequest, "项目名称为空"))
    case "update_task" => Ok(ApiRequest(PUT, "/task/" + ToText(t), Some(BodyOf(UpdateTaskFields, args))))
    case "delete_task" =>
      if ThrowValidError(p, t).Some? then Err(ThrowValidError(p, t).value)
      else Ok(ApiRequest(DELETE, TaskPath(p, t), None))
    case "get_projects" => Ok(ApiRequest(GET, "/project", None))
    case "create_project" => Ok(ApiRequest(POST, "/project", Some(BodyOf(CreateProjectFields, args))))
    case "update_project_by_projectID" =>
      if ThrowValidError(p, Str("1")).Some? then Err(ThrowValidError(p, Str("1")).value)
      else Ok(ApiRequest(POST, "/project", Some(BodyOf(UpdateProjectFields, args))))
    case "delete_project_by_projectID" =>
      if ThrowValidError(p, Str("1")).Some? then Err(ThrowValidError(p, Str("1")).value)
      else Ok(ApiRequest(DELETE, "/project/" + ToText(p), None))
    case "complete_task" =>
      if ThrowValidError(p, t).Some? then Err(ThrowValidError(p, t).value)
      else Ok(ApiRequest(POST, TaskPath(p, t) + "/complete", None))
    case "get_project_by_projectId" =>
      if ThrowValidError(p, Str("1")).Some? then Err(ThrowValidError(p, Str("1")).value)
      else Ok(ApiRequest(GET, "project/" + ToText(p), None))
    case _ => Err(McpError(MethodNotFound, "未知工具: " + name))
  }

  /**
   * A task path names its project and its task: split at `/` it gives back both
   * ids, provided their texts hold no `/`.
   */
  lemma {:induction false} TaskPathSegments(projectId: Value, taskId: Value)
    requires '/' !in ToText(projectId) && '/' !in ToText(taskId)
    ensures Split(TaskPath(projectId, taskId), '/') == ["", "project", ToText(projectId), "task", ToText(taskId)]
  {
    var p, t := ToText(projectId), ToText(taskId);
    TaskPathPieces(p, t);
    SplitFive("", "project", p, "task", t, '/');
  }

  /** The task path template cut at its slashes. */
  lemma {:induction false} TaskPathPieces(p: string, t: string)
    ensures "/project/" + p + "/task/" + t == "" + ['/'] + "project" + ['/'] + p + ['/'] + "task" + ['/'] + t
    ensures '/' !in "project" && '/' !in "task"
  {
    assert "/project/" == ['/'] + "project" + ['/'];
    assert "/task/" == ['/'] + "task" + ['/'];
  }

  /** The path of every tool that names a project and a task is that task's path, completed or not. */
  lemma {:induction false} TaskToolsUseTaskPath(name: string, args: Body)
    requires name in TaskIdTools && Route(name, args).Ok?
    ensures var path := Route(name, args).value.path; var tp := TaskPath(Get(args, "projectId"), Get(args, "taskId"));
      path == tp || path == tp + "/complete"
  {
  }

  // ---- the handler ----

  /** `${status}` for a response status that may be undefined. */
  function StatusText(status: Option<nat>): string {
    match status
    case Some(n) => NatToString(n)
    case None => "undefined"
  }

  /** The error raised for a failed API call: the status, then the response's message or else the error's. */
  function ApiFailure(status: Option<nat>, dataMessage: Value, message: string): (e: McpError)
    ensures e.code == InternalError
  {
    McpError(InternalError, "滴答清单API调用失败 (" + StatusText(status) + "): "
                            + (if Truthy(dataMessage) then ToText(dataMessage) else message))
  }

  /** The response's own message, when present, wins over the generic one. */
  lemma {:induction false} ApiFailurePrefersResponseMessage(status: Option<nat>, dataMessage: Value, message: string)
    ensures var e := ApiFailure(status, dataMessage, message);
      var tail := if Truthy(dataMessage) then ToText(dataMessage) else message;
      |tail| <= |e.message| && e.message[|e.message| - |tail|..] == tail
      && Contains(e.message, StatusText(status))
  {
    var prefix := "滴答清单API调用失败 (";
    var e := ApiFailure(status, dataMessage, message);
    assert OccursAt(e.message, StatusText(status), |prefix|);
  }

  /** The text of a successful call: a fixed label, then the response data (or, for `delete_task`, the task id). */
  function SuccessText(name: string, args: Body, json: string): string {
    match name
    case "create_task" => "任务创建成功: " + json
    case "get_task_by_projectId_and_taskId" => "任务: " + json
    case "get_tasks_by_projectId" => "任务列表: " + json
    case "update_task" => "任务更新成功: " + json
    case "delete_task" => "任务 " + ToText(Get(args, "taskId")) + " 删除成功"
    case "get_projects" => "项目列表: " + json
    case "create_project" => "项目创建成功: " + json
    case "update_project_by_projectID" => "项目创建成功: " + json
    case "delete_project_by_projectID" => "删除项目成功: " + json
    case "complete_task" => "任务更新: " + json
    case _ => "获取project成功: " + json
  }

  /** What one tool call does: the API request it sent, if any, and its result text or error. */
  datatype Call = Call(sent: Option<ApiRequest>, result: Result<string, McpError>)

  /**
   * The `CallToolRequestSchema` handler. Missing arguments fail before the
   * `try`; inside it, every error, the validation and unknown-tool errors
   * included, is rethrown as InternalError.
   */
  function CallTool(name: string, args: Option<Body>, api: ApiOutcome): (c: Call)
    ensures args.None? ==> c == Call(None, Err(McpError(InvalidRequest, "参数不能为空")))
    ensures args.Some? && c.result.Err? ==> c.result.error.code == InternalError
    ensures c.sent.Some? <==> args.Some? && Route(name, args.value).Ok?
    ensures c.sent.Some? ==> c.sent.value == Route(name, args.value).value
    ensures c.result.Ok? <==> c.sent.Some? && api.Responded?
    ensures c.result.Ok? ==> c.result.value == SuccessText(name, args.value, api.json)
    ensures c.sent.Some? && api.Failed? ==> c.result == Err(ApiFailure(api.status, api.dataMessage, api.message))
    ensures args.Some? && Route(name, args.value).Err? ==>
      c.result == Err(McpError(InternalError, "工具执行失败: " + Route(name, args.value).error.message))
  {
    match args
    case None => Call(None, Err(McpError(InvalidRequest, "参数不能为空")))
    case Some(a) =>
      match Route(name, a)
      case Err(e) => Call(None, Err(McpError(InternalError, "工具执行失败: " + e.message)))
      case Ok(request) =>
        match api
        case Responded(json) => Call(Some(request), Ok(SuccessText(name, a, json)))
        case Failed(status, dataMessage, message) => Call(Some(request), Err(ApiFailure(status, dataMessage, message)))
  }

  /** An unknown tool sends nothing and surfaces as InternalError, not MethodNotFound. */
  lemma {:induction false} UnknownToolIsInternalError(name: string, args: Body, api: ApiOutcome)
    requires name !in ToolNames
    ensures CallTool(name, Some(args), api) == Call(None, Err(McpError(InternalError, "工具执行失败: 未知工具: " + name)))
  {
    assert name != "create_task" && name != "get_task_by_projectId_and_taskId" && name != "get_tasks_by_projectId";
    assert name != "update_task" && name != "delete_task" && name != "get_projects" && name != "create_project";
    assert name != "update_project_by_projectID" && name != "delete_project_by_projectID";
    assert name != "complete_task" && name != "get_project_by_projectId";
    assert Route(name, args) == Err(McpError(MethodNotFound, "未知工具: " + name));
    assert "工具执行失败: " + ("未知工具: " + name) == "工具执行失败: 未知工具: " + name;
  }

  /**
   * A task tool with a missing project or task id sends nothing; the error
   * carries the validation message behind the rewrapping prefix.
   */
  lemma {:induction false} MissingIdsSendNothing(name: string, args: Body, api: ApiOutcome)
    requires name in TaskIdTools
    requires !Truthy(Get(args, "projectId")) || !Truthy(Get(args, "taskId"))
    ensures var c := CallTool(name, Some(args), api);
      c.sent.None? && c.result.Err? && c.result.error.code == InternalError
      && StartsWith(c.result.error.message, "工具执行失败: ")
  {
    var e := Route(name, args).error;
    assert CallTool(name, Some(args), api).result == Err(McpError(InternalError, "工具执行失败: " + e.message));
  }

  // ---- resources ----

  /**
   * The `ReadResourceRequestSchema` handler: the two known URIs read the task
   * and project lists; any other URI fails, and that failure is rethrown as InternalError.
   */
  function ReadResource(uri: string, api: ApiOutcome): (c: Call)
    ensures c.sent.Some? <==> uri == "dida365://tasks" || uri == "dida365://projects"
    ensures uri == "dida365://tasks" ==> c.sent == Some(ApiRequest(GET, "/task", None))
    ensures uri == "dida365://projects" ==> c.sent == Some(ApiRequest(GET, "/project", None))
    ensures c.result.Err? ==> c.result.error.code == InternalError
    ensures c.sent.Some? && api.Responded? ==> c.result == Ok(api.json)
    ensures c.sent.Some? && api.Failed? ==> c.result == Err(ApiFailure(api.status, api.dataMessage, api.message))
    ensures c.sent.None? ==> c.result == Err(McpError(InternalError, "资源获取失败: " + ("未知资源URI: " + uri)))
  {
    var request :=
      if uri == "dida365://tasks" then Some(ApiRequest(GET, "/task", None))
      else if uri == "dida365://projects" then Some(ApiRequest(GET, "/project", None))
      else None;
    match request
    case None => Call(None, Err(McpError(InternalError, "资源获取失败: " + ("未知资源URI: " + uri))))
    case Some(r) =>
      match api
      case Responded(json) => Call(request, Ok(json))
      case Failed(status, dataMessage, message) => Call(request, Err(ApiFailure(status, dataMessage, message)))
  }
}
