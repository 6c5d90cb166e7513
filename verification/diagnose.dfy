/**
  * The connection diagnostic (`diagnose_rhino_connection.py`): it checks
  * that the plugin's port accepts connections, then sends `get_scene_info`
  * and `create_box` over fresh sockets and reports whether both succeeded,
  * as a result dict per command and as the process exit code.
  *
  * The receive loop is the same as the server's and is taken from
  * `Combined`.
  */
module Diagnose {
  import opened Wrappers
  import opened JsonValue
  import Text
  import Combined

  /** `{"id": "diag_<secs>", "type": command_type, "params": params or {}}`,
      `secs` being `int(time.time())` when the command is built. */
  function Envelope(secs: nat, commandType: string, params: Json): (j: Json)
    ensures j.JObj? && j.fields.Keys == {"id", "type", "params"}
    ensures j.fields["id"] == JStr(DiagId(secs))
    ensures j.fields["type"] == JStr(commandType)
    ensures j.fields["params"] == if Truthy(params) then params else JObj(map[])
  {
    JObj(map["id" := JStr(DiagId(secs)), "type" := JStr(commandType), "params" := if Truthy(params) then params else JObj(map[])])
  }

  /** `f"diag_{secs}"`. */
  function DiagId(secs: nat): string {
    "diag_" + Text.IntToString(secs)
  }

  /** The id carries the clock reading: after the `diag_` prefix it reads
      back as the seconds. */
  lemma DiagIdEncodesSeconds(secs: nat)
    ensures |DiagId(secs)| > 5 && DiagId(secs)[..5] == "diag_"
    ensures Text.ParseInt(DiagId(secs)[5..], 10) == Some(secs as int)
  {
    Text.ParseIntOfIntToString(secs);
    assert DiagId(secs)[5..] == Text.IntToString(secs);
  }

  /** `{"success": false, "error": error}`. */
  function Failure(error: Json): Json {
    JObj(map["success" := JBool(false), "error" := error])
  }

  /** The checks on a decoded reply: an `error` key first, then
      `status == "error"` (message defaulting to "Unknown error"), then
      success with `response.get("result", response)`. Exceptions on a
      reply that is not a dict are reported as parse errors. */
  function Judge(rt: Runtime, reply: Json): (r: Json)
    ensures r.JObj? && "success" in r.fields && r.fields["success"].JBool?
  {
    match Contains(reply, "error")
    case Err(f) => Failure(JStr("Error parsing response: " + FaultText(rt, f)))
    case Ok(hasError) =>
      if !reply.JObj? then Failure(JStr("Error parsing response: " + FaultText(rt, NoAttribute(reply, "get"))))
      else
        var fields := reply.fields;
        if hasError then Failure(fields["error"])
        else if Get(fields, "status", JNull) == JStr("error") then
          Failure(Get(fields, "message", JStr("Unknown error")))
        else JObj(map["success" := JBool(true), "result" := Get(fields, "result", reply)])
  }

  /** The diagnostic judges a dict reply as the server does: it succeeds
      exactly when the server's `send_command` would return, with the same
      value; when it fails on an `error` key, it reports that value. */
  lemma JudgeAgreesWithServer(rt: Runtime, tag: string, fields: map<string, Json>)
    ensures var mine := Judge(rt, JObj(fields));
      var theirs := Combined.Classify(rt, tag, JObj(fields));
      && (mine.fields["success"] == JBool(true) <==> theirs.Ok?)
      && (theirs.Ok? ==> "result" in mine.fields && mine.fields["result"] == theirs.value)
      && ("error" in fields ==> mine == Failure(fields["error"]))
  {
  }

  /** Everything one `send_command` call meets: the clock, whether the
      connection is accepted (and the error text when not), whether
      `sendall` fails, and the `recv` results. */
  datatype Attempt = Attempt(secs: nat, connects: bool, connectError: string, sendError: Option<string>, replies: seq<Combined.Recv>)

  /** `send_command`: the command sent, if any, and the result dict. */
  function SendCommand(rt: Runtime, commandType: string, params: Json, a: Attempt): (r: (Option<Json>, Json))
    ensures r.1.JObj? && "success" in r.1.fields && r.1.fields["success"].JBool?
    ensures r.0.Some? <==> a.connects
    ensures r.0.Some? ==> r.0.value == Envelope(a.secs, commandType, params)
    ensures !a.connects ==> r.1 == Failure(JStr("Communication error: " + a.connectError))
    ensures a.connects && a.sendError.Some? ==> r.1 == Failure(JStr("Communication error: " + a.sendError.value))
    ensures a.connects && a.sendError.None? ==>
      var got := Combined.Receive(rt, "", a.replies);
      && (got.stop.Timeout? ==> r.1 == Failure(JStr("Communication error: timed out")))
      && (got.stop.Lost? ==> r.1 == Failure(JStr("Communication error: " + got.stop.reason)))
      && (got.stop.Faulted? ==> r.1 == Failure(JStr("Communication error: " + got.stop.reason)))
      && ((got.stop.Parsed? || got.stop.Eof?) && rt.loads(got.data).None? ==>
            r.1 == Failure(JStr("Error parsing response: " + rt.decodeError(got.data))))
      && ((got.stop.Parsed? || got.stop.Eof?) && rt.loads(got.data).Some? ==> r.1 == Judge(rt, rt.loads(got.data).value))
    ensures r.1.fields["success"] == JBool(true) ==>
      && a.connects && a.sendError.None?
      && var got := Combined.Receive(rt, "", a.replies);
      && (got.stop.Parsed? || got.stop.Eof?) && rt.loads(got.data).Some?
      && Judge(rt, rt.loads(got.data).value) == r.1
  {
    if !a.connects then (None, Failure(JStr("Communication error: " + a.connectError)))
    else
      var command := Envelope(a.secs, commandType, params);
      match a.sendError
      case Some(reason) => (Some(command), Failure(JStr("Communication error: " + reason)))
      case None =>
        var received := Combined.Receive(rt, "", a.replies);
        match received.stop
        case Timeout => (Some(command), Failure(JStr("Communication error: timed out")))
        case Lost(reason) => (Some(command), Failure(JStr("Communication error: " + reason)))
        case Faulted(reason) => (Some(command), Failure(JStr("Communication error: " + reason)))
        case _ =>
          match rt.loads(received.data)
          case None => (Some(command), Failure(JStr("Error parsing response: " + rt.decodeError(received.data))))
          case Some(reply) => (Some(command), Judge(rt, reply))
  }

  /** A reply whose text ends before it decodes is a parse error, not a
      communication error. */
  lemma TruncatedReplyIsParseError(rt: Runtime, commandType: string, params: Json, a: Attempt, text: string)
    requires a.connects && a.sendError.None?
    requires |a.replies| >= 2 && a.replies[0] == Combined.Chunk(text) && a.replies[1] == Combined.Chunk("")
    requires text != "" && rt.loads(text).None?
    ensures SendCommand(rt, commandType, params, a).1 == Failure(JStr("Error parsing response: " + rt.decodeError(text)))
  {
    assert "" + text == text;
    assert a.replies[1..][0] == Combined.Chunk("");
    assert Combined.Receive(rt, text, a.replies[1..]) == Combined.Received(text, Combined.Eof);
    assert Combined.Receive(rt, "", a.replies) == Combined.Received(text, Combined.Eof);
  }

  /** A reply that decodes at once to `{"result": v}` gives
      `{"success": true, "result": v}`. */
  lemma PlainResultSucceeds(rt: Runtime, commandType: string, params: Json, a: Attempt, text: string, v: Json)
    requires a.connects && a.sendError.None?
    requires |a.replies| > 0 && a.replies[0] == Combined.Chunk(text) && text != ""
    requires rt.loads(text) == Some(JObj(map["result" := v]))
    ensures SendCommand(rt, commandType, params, a) ==
      (Some(Envelope(a.secs, commandType, params)), JObj(map["success" := JBool(true), "result" := v]))
  {
    assert "" + text == text;
    assert Combined.Receive(rt, "", a.replies) == Combined.Received(text, Combined.Parsed);
    assert Judge(rt, JObj(map["result" := v])) == JObj(map["success" := JBool(true), "result" := v]);
  }

  /** The parameters of the `create_box` test. */
  function BoxParams(): Json {
    JObj(map["cornerX" := JNum(0), "cornerY" := JNum(0), "cornerZ" := JNum(0),
             "width" := JNum(30), "depth" := JNum(30), "height" := JNum(40), "color" := JStr("red")])
  }

  /** The commands sent, whether the diagnostic passed, and the exit code. */
  datatype Report = Report(sent: seq<Json>, passed: bool, exitCode: int)

  /** `main` followed by `sys.exit(0 if success else 1)`, given whether the
      port test connects and what the two command calls meet. */
  function Diagnose(rt: Runtime, portOpen: bool, scene: Attempt, box: Attempt): (r: Report)
    ensures r.exitCode == 0 <==> r.passed
    ensures r.exitCode == 0 || r.exitCode == 1
    ensures !portOpen ==> r == Report([], false, 1)
    ensures r.passed <==>
      && portOpen
      && SendCommand(rt, "get_scene_info", JObj(map[]), scene).1.fields["success"] == JBool(true)
      && SendCommand(rt, "create_box", BoxParams(), box).1.fields["success"] == JBool(true)
  {
    if !portOpen then Report([], false, 1)
    else
      var s := SendCommand(rt, "get_scene_info", JObj(map[]), scene);
      var b := SendCommand(rt, "create_box", BoxParams(), box);
      var sent := (if s.0.Some? then [s.0.value] else []) + (if b.0.Some? then [b.0.value] else []);
      var passed := Truthy(Get(s.1.fields, "success", JBool(false))) && Truthy(Get(b.1.fields, "success", JBool(false)));
      Report(sent, passed, if passed then 0 else 1)
  }

  /** With the plugin reachable and answering both commands with a plain
      result, the diagnostic passes and exits 0; the scene query is sent
      with empty parameters and the box with its fixed ones. */
  lemma PassesOnPlainResults(rt: Runtime, scene: Attempt, box: Attempt, t1: string, t2: string, v1: Json, v2: Json)
    requires scene.connects && scene.sendError.None? && box.connects && box.sendError.None?
    requires |scene.replies| > 0 && scene.replies[0] == Combined.Chunk(t1) && t1 != ""
    requires |box.replies| > 0 && box.replies[0] == Combined.Chunk(t2) && t2 != ""
    requires rt.loads(t1) == Some(JObj(map["result" := v1]))
    requires rt.loads(t2) == Some(JObj(map["result" := v2]))
    ensures var r := Diagnose(rt, true, scene, box);
      r.passed && r.exitCode == 0
      && r.sent == [Envelope(scene.secs, "get_scene_info", JObj(map[])), Envelope(box.secs, "create_box", BoxParams())]
  {
    PlainResultSucceeds(rt, "get_scene_info", JObj(map[]), scene, t1, v1);
    PlainResultSucceeds(rt, "create_box", BoxParams(), box, t2, v2);
  }
}
