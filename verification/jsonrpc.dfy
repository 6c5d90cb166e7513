/**
  * The JSON-RPC 2.0 response shape the stdio drafts write: a result or an
  * error object, never both, with the request's `id` mirrored.  Error codes
  * follow section 5.1 of the JSON-RPC 2.0 Specification.
  */
module JsonRpc {
  import opened Wrappers
  import opened JsonValue

  const MethodNotFound: int := -32601
  const InternalError: int := -32603

  /** `SERVER_STATE` of the stdio draft and the daemon; the third value the
      drafts mention, "processing", is never assigned. */
  datatype ServerState = Waiting | Initialized

  datatype Body = Result(value: Json) | Error(code: int, message: string)

  datatype Response = Response(id: Json, body: Body)

  /** The dict the drafts build: `{"jsonrpc": "2.0", "id": .., "result": ..}`
      or `{"jsonrpc": "2.0", "id": .., "error": {"code": .., "message": ..}}`. */
  function ToJson(r: Response): (j: Json)
    ensures j.JObj? && "jsonrpc" in j.fields && j.fields["jsonrpc"] == JStr("2.0")
    ensures "id" in j.fields && j.fields["id"] == r.id
    ensures ("result" in j.fields) != ("error" in j.fields)
    ensures "result" in j.fields <==> r.body.Result?
  {
    var base := map["jsonrpc" := JStr("2.0"), "id" := r.id];
    match r.body
    case Result(v) => JObj(base["result" := v])
    case Error(c, m) => JObj(base["error" := JObj(map["code" := JNum(c), "message" := JStr(m)])])
  }

  /** Reads a response dict back; the inverse of `ToJson`. */
  function FromJson(j: Json): Option<Response> {
    if j.JObj? && "id" in j.fields then
      if "result" in j.fields then Some(Response(j.fields["id"], Result(j.fields["result"])))
      else if "error" in j.fields && j.fields["error"].JObj? then
        var e := j.fields["error"].fields;
        if "code" in e && e["code"].JNum? && "message" in e && e["message"].JStr? then
          Some(Response(j.fields["id"], Error(e["code"].n, e["message"].s)))
        else None
      else None
    else None
  }

  lemma FromToJson(r: Response)
    ensures FromJson(ToJson(r)) == Some(r)
  {
  }

  function InternalErrorResponse(rt: Runtime, id: Json, f: Fault): (r: Response)
    ensures r.id == id && r.body.Error? && r.body.code == InternalError
  {
    Response(id, Error(InternalError, "Internal error: " + FaultText(rt, f)))
  }

  // ---------------------------------------------------------------------
  // Reading requests, shared by the drafts
  // ---------------------------------------------------------------------

  /** `request.get("method", "")`. */
  function Method(request: map<string, Json>): Json {
    Get(request, "method", JStr(""))
  }

  /** `request.get("id", 0)`. */
  function RequestId(request: map<string, Json>): Json {
    Get(request, "id", JNum(0))
  }

  /** The `shutdown` result, `{"success": true}`. */
  const Success: Json := JObj(map["success" := JBool(true)])

  /** `request["params"]["name"]` and `request["params"]["parameters"]`,
      with the exception Python raises when either is missing. */
  function ToolArguments(request: map<string, Json>): (r: Result<(Json, Json), Fault>)
    ensures r.Ok? <==>
      "params" in request && request["params"].JObj?
      && "name" in request["params"].fields && "parameters" in request["params"].fields
    ensures r.Ok? ==> r.value == (request["params"].fields["name"], request["params"].fields["parameters"])
    ensures "params" !in request ==> r == Err(MissingKey("params"))
  {
    var params :- Subscript(JObj(request), "params");
    var name :- Subscript(params, "name");
    var parameters :- Subscript(params, "parameters");
    Ok((name, parameters))
  }

  /** The placeholder tool result of the second stdio draft and the daemon:
      `{"result": {"success": true, "message": "Executed <name> with parameters <parameters>"}}`. */
  function ExecutedResult(rt: Runtime, name: Json, parameters: Json): Json {
    JObj(map["result" := JObj(map[
      "success" := JBool(true),
      "message" := JStr("Executed " + rt.str(name) + " with parameters " + rt.str(parameters))])])
  }
}
