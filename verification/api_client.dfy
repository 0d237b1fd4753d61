/** The bot's HTTP client for the backend (bot/api_client.py): how each
    operation's request is built and how an HTTP outcome becomes a present
    or absent result. The transport is not modelled: an exchange is
    represented by its `Outcome`. */
module ApiClient {
  import opened Wrappers
  import opened Text

  /** A decoded JSON value. */
  datatype Json =
    | JNull
    | JBool(b: bool)
    | JInt(i: int)
    | JStr(s: string)
    | JArr(items: seq<Json>)
    | JObj(fields: map<string, Json>)

  /** Python truthiness of the decoded value. */
  predicate Truthy(j: Json) {
    match j
    case JNull => false
    case JBool(b) => b
    case JInt(i) => i != 0
    case JStr(s) => s != ""
    case JArr(items) => |items| > 0
    case JObj(fields) => |fields| > 0
  }

  /** How one exchange that `_request` handles ended: a status with a body
      (`None` when the response is not declared as JSON, which the client
      library reports as a client error), or an `aiohttp.ClientError` (a
      refused connection, a dropped one). A timeout or a JSON body that
      does not decode raises out of `_request` instead; the handlers see
      that as `Wizard.Raised`. */
  datatype Outcome = Response(status: int, body: Option<Json>) | ClientError

  /** `_request`: the decoded body of a 200 or 201, otherwise nothing. */
  function Request(o: Outcome): (r: Option<Json>)
    ensures r.Some? <==> o.Response? && (o.status == 200 || o.status == 201) && o.body.Some?
    ensures r.Some? ==> r.value == o.body.value
  {
    match o
    case Response(status, body) => if status == 200 || status == 201 then body else None
    case ClientError => None
  }

  /** Whether a caller's `if result:` takes the success branch. */
  predicate Present(o: Outcome) {
    Request(o).Some? && Truthy(Request(o).value)
  }

  /** 404, every other status outside 200/201, and client errors all read
      as absent. */
  lemma AbsentOutcomes(o: Outcome)
    ensures o.ClientError? ==> !Present(o)
    ensures o.Response? && o.status != 200 && o.status != 201 ==> !Present(o)
    ensures o.Response? && o.status == 404 ==> Request(o).None?
  {
  }

  /** `result if result else []`, the defaulting of `get_tasks` and
      `get_categories`. */
  function ListOrEmpty(o: Outcome): (r: Json)
    ensures !Present(o) ==> r == JArr([])
    ensures Present(o) ==> r == o.body.value
    ensures Truthy(r) <==> Present(o)
  {
    var result := Request(o);
    if result.Some? && Truthy(result.value) then result.value else JArr([])
  }

  datatype Method = Get | Post | Patch | Delete

  /** One request: method, endpoint below the base URL, JSON body and query parameters. */
  datatype Call = Call(verb: Method, endpoint: string, data: Option<map<string, Json>>, params: map<string, Json>)

  const DefaultColor: string := "#3498db"

  function RegisterUserCall(telegramId: int, username: string): Call {
    Call(Post, "users/register_telegram/",
         Some(map["telegram_id" := JInt(telegramId), "username" := JStr(username)]), map[])
  }

  function GetUserByTelegramCall(telegramId: int): Call {
    Call(Get, "users/by_telegram/", None, map["telegram_id" := JInt(telegramId)])
  }

  function GetTasksCall(telegramId: int): Call {
    Call(Get, "tasks/by_telegram/", None, map["telegram_id" := JInt(telegramId)])
  }

  function GetCategoriesCall(telegramId: int): Call {
    Call(Get, "categories/", None, map["telegram_id" := JInt(telegramId)])
  }

  /** `create_category`; the color defaults to "#3498db". */
  function CreateCategoryCall(userId: string, name: string, color: Option<string>): (c: Call)
    ensures c.verb == Post && c.endpoint == "categories/" && c.params == map[]
    ensures c.data.Some? && c.data.value.Keys == {"user", "name", "color"}
    ensures c.data.value["user"] == JStr(userId) && c.data.value["name"] == JStr(name)
    ensures color.Some? ==> c.data.value["color"] == JStr(color.value)
    ensures color.None? ==> c.data.value["color"] == JStr(DefaultColor)
  {
    Call(Post, "categories/", Some(map["user" := JStr(userId), "name" := JStr(name),
                                      "color" := JStr(color.GetOr(DefaultColor))]), map[])
  }

  /** The body of `create_task`: the telegram id, title and description
      always; the due date only when non-empty, the category ids only when
      the list is non-empty. */
  function CreateTaskPayload(telegramId: int, title: string, description: string,
                             dueDate: Option<string>, categoryIds: Option<seq<string>>): (p: map<string, Json>)
    ensures "telegram_id" in p && p["telegram_id"] == JInt(telegramId)
    ensures "title" in p && p["title"] == JStr(title)
    ensures "description" in p && p["description"] == JStr(description)
    ensures "due_date" in p <==> dueDate.Some? && dueDate.value != ""
    ensures "due_date" in p ==> p["due_date"] == JStr(dueDate.value)
    ensures "category_ids" in p <==> categoryIds.Some? && |categoryIds.value| > 0
    ensures "category_ids" in p ==> p["category_ids"] == JArr(seq(|categoryIds.value|, i requires 0 <= i < |categoryIds.value| => JStr(categoryIds.value[i])))
    ensures p.Keys <= {"telegram_id", "title", "description", "due_date", "category_ids"}
  {
    var base := map["telegram_id" := JInt(telegramId), "title" := JStr(title), "description" := JStr(description)];
    var withDue := if dueDate.Some? && dueDate.value != "" then base["due_date" := JStr(dueDate.value)] else base;
    if categoryIds.Some? && |categoryIds.value| > 0 then
      withDue["category_ids" := JArr(seq(|categoryIds.value|, i requires 0 <= i < |categoryIds.value| => JStr(categoryIds.value[i])))]
    else withDue
  }

  function CreateTaskCall(telegramId: int, title: string, description: string,
                          dueDate: Option<string>, categoryIds: Option<seq<string>>): Call {
    Call(Post, "tasks/create_for_telegram/", Some(CreateTaskPayload(telegramId, title, description, dueDate, categoryIds)), map[])
  }

  /** The endpoint of one task: `tasks/<id>/`. */
  function TaskEndpoint(taskId: string): (e: string)
    ensures |e| == |taskId| + 7
  {
    "tasks/" + taskId + "/"
  }

  /** Distinct tasks have distinct endpoints. */
  lemma TaskEndpointInjective(a: string, b: string)
    requires TaskEndpoint(a) == TaskEndpoint(b)
    ensures a == b
  {
    assert a == TaskEndpoint(a)[6..|a| + 6];
    assert b == TaskEndpoint(b)[6..|b| + 6];
  }

  /** `update_task_status`: a PATCH of the task's endpoint with the status only. */
  function UpdateTaskStatusCall(taskId: string, status: string): (c: Call)
    ensures c.verb == Patch && c.endpoint == TaskEndpoint(taskId)
    ensures c.data == Some(map["status" := JStr(status)]) && c.params == map[]
  {
    Call(Patch, TaskEndpoint(taskId), Some(map["status" := JStr(status)]), map[])
  }

  function DeleteTaskCall(taskId: string): Call {
    Call(Delete, TaskEndpoint(taskId), None, map[])
  }

  /** `delete_task`: true exactly for a 204; false on a client error. */
  function DeleteTaskResult(o: Outcome): (ok: bool)
    ensures ok <==> o.Response? && o.status == 204
  {
    match o
    case Response(status, _) => status == 204
    case ClientError => false
  }

  /** A delete and a status update address the same task endpoint, and the
      delete reads the status itself: every delete it reports as done is one
      `_request` would have reported as absent, and every outcome `_request`
      reports as present is a delete it reports as failed. */
  lemma DeleteBypassesRequest(taskId: string, o: Outcome)
    ensures DeleteTaskCall(taskId).endpoint == UpdateTaskStatusCall(taskId, "completed").endpoint
    ensures DeleteTaskCall(taskId).verb == Delete && DeleteTaskCall(taskId).data.None?
    ensures DeleteTaskResult(o) ==> Request(o).None? && !Present(o)
    ensures Request(o).Some? ==> !DeleteTaskResult(o)
  {
  }

  /** A category request carries its user and name unchanged, so two
      requests agree exactly when their user, name and effective color do. */
  lemma CreateCategoryCallInjective(u1: string, n1: string, c1: Option<string>, u2: string, n2: string, c2: Option<string>)
    ensures CreateCategoryCall(u1, n1, c1) == CreateCategoryCall(u2, n2, c2) <==>
      u1 == u2 && n1 == n2 && c1.GetOr(DefaultColor) == c2.GetOr(DefaultColor)
  {
    if CreateCategoryCall(u1, n1, c1) == CreateCategoryCall(u2, n2, c2) {
      var d1, d2 := CreateCategoryCall(u1, n1, c1).data.value, CreateCategoryCall(u2, n2, c2).data.value;
      assert d1["user"] == d2["user"] && d1["name"] == d2["name"] && d1["color"] == d2["color"];
    }
  }
}
