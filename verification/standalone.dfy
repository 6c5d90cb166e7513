/**
  * The first stdio draft (`standalone-mcp-server.py`): reads one JSON-RPC
  * request per line from the assistant, answers `initialize` with the
  * fixed catalogue, relays `tools/call` to the modelling host as a
  * `{"Type", "Params"}` command, answers `shutdown` and then stops.
  *
  * The host relay (`send_to_rhino`) is the parameter `relay`: the reply
  * text for a command, including the error text the draft substitutes
  * when the socket fails. The hard-coded capabilities object is the
  * parameter `catalogue`; in the draft it is `Catalogue.Capabilities()`.
  */
module Standalone {
  import opened Wrappers
  import opened JsonValue
  import opened JsonRpc
  import Text
  import Catalogue

  // ---------------------------------------------------------------------
  // Tool call: command envelope and response
  // ---------------------------------------------------------------------

  /** The host command type for a tool name: the namespace text removed
      (every occurrence, as `str.replace` does), or `""` for a name in
      neither namespace. */
  function CommandType(name: string): (t: string)
    ensures |t| <= |name|
    ensures (!Text.StartsWith(name, Catalogue.GeometryNamespace)
             && !Text.StartsWith(name, Catalogue.SceneNamespace)) ==> t == ""
  {
    if Text.StartsWith(name, Catalogue.GeometryNamespace) then
      Text.RemoveAll(name, Catalogue.GeometryNamespace)
    else if Text.StartsWith(name, Catalogue.SceneNamespace) then
      Text.RemoveAll(name, Catalogue.SceneNamespace)
    else ""
  }

  /** A namespaced name whose remainder does not mention the namespace
      again maps to exactly that remainder. */
  lemma CommandTypeOfNamespaced(ns: string, rest: string)
    requires ns == Catalogue.GeometryNamespace || ns == Catalogue.SceneNamespace
    requires forall i :: !Text.OccursAt(rest, ns, i)
    ensures CommandType(ns + rest) == rest
  {
    assert (ns + rest)[..|ns|] == ns;
    if ns == Catalogue.SceneNamespace {
      assert (ns + rest)[0] == 's';
      assert Catalogue.GeometryNamespace[0] == 'g';
    }
    Text.RemoveAllLeading(ns, rest);
  }

  /** `str.replace` also removes repeats of the namespace after the
      prefix: a doubled namespace leaves only the remainder. */
  lemma CommandTypeRemovesRepeats(ns: string, rest: string)
    requires ns == Catalogue.GeometryNamespace || ns == Catalogue.SceneNamespace
    requires forall i :: !Text.OccursAt(rest, ns, i)
    ensures CommandType(ns + (ns + rest)) == rest
  {
    assert (ns + (ns + rest))[..|ns|] == ns;
    if ns == Catalogue.SceneNamespace {
      assert (ns + (ns + rest))[0] == 's';
      assert Catalogue.GeometryNamespace[0] == 'g';
    }
    Text.RemoveAllLeading(ns, ns + rest);
    Text.RemoveAllLeading(ns, rest);
  }

  /** `request["params"]["name"]`, `request["params"]["parameters"]`, the
      `startswith` on the name, and the command dict built from them. */
  function ToolCommand(request: map<string, Json>): (r: Result<Json, Fault>)
    ensures r.Ok? <==>
      && "params" in request && request["params"].JObj?
      && "name" in request["params"].fields && request["params"].fields["name"].JStr?
      && "parameters" in request["params"].fields
    ensures r.Ok? ==>
      r.value == JObj(map[
        "Type" := JStr(CommandType(request["params"].fields["name"].s)),
        "Params" := request["params"].fields["parameters"]])
    ensures "params" !in request ==> r == Err(MissingKey("params"))
  {
    var (name, parameters) :- ToolArguments(request);
    if name.JStr? then
      Ok(JObj(map["Type" := JStr(CommandType(name.s)), "Params" := parameters]))
    else
      Err(NoAttribute(name, "startswith"))
  }

  /** The reply decoded, or wrapped as `{"result": <raw text>}`. */
  function ReplyObject(rt: Runtime, reply: string): (v: Json)
    ensures rt.loads(reply).Some? ==> v == rt.loads(reply).value
    ensures rt.loads(reply).None? ==> v == JObj(map["result" := JStr(reply)])
  {
    match rt.loads(reply)
    case Some(v) => v
    case None => JObj(map["result" := JStr(reply)])
  }

  // ---------------------------------------------------------------------
  // Dispatch of one message
  // ---------------------------------------------------------------------

  /** The response dict and whether the exit flag is now set. */
  datatype Outcome = Outcome(response: Response, exit: bool)

  predicate Known(m: Json) {
    m == JStr("initialize") || m == JStr("tools/call") || m == JStr("shutdown")
  }

  /** The messages that set the exit flag: a dict request for `shutdown`. */
  predicate Exits(rt: Runtime, message: string) {
    rt.loads(message).Some? && rt.loads(message).value.JObj?
    && Method(rt.loads(message).value.fields) == JStr("shutdown")
  }

  /** `process_message`: every exception inside it becomes -32603 with id 0. */
  function Process(rt: Runtime, catalogue: Json, relay: Json -> string, message: string): (o: Outcome)
    ensures rt.loads(message).None? ==>
      o == Outcome(Response(JNum(0), Error(InternalError, "Internal error: " + rt.decodeError(message))), false)
    ensures o.exit <==> Exits(rt, message)
    ensures o.response.body.Error? && o.response.body.code == InternalError ==> o.response.id == JNum(0)
    ensures o.response.body.Error? ==>
      o.response.body.code == InternalError || o.response.body.code == MethodNotFound
  {
    match rt.loads(message)
    case None => Outcome(InternalErrorResponse(rt, JNum(0), Undecodable(message)), false)
    case Some(request) =>
      if !request.JObj? then
        Outcome(InternalErrorResponse(rt, JNum(0), NoAttribute(request, "get")), false)
      else
        var fields := request.fields;
        var m := Method(fields);
        if m == JStr("initialize") then
          Outcome(Response(JNum(0), Result(catalogue)), false)
        else if m == JStr("tools/call") then
          match ToolCommand(fields)
          case Err(e) => Outcome(InternalErrorResponse(rt, JNum(0), e), false)
          case Ok(command) =>
            Outcome(Response(RequestId(fields), Result(JObj(map["result" := ReplyObject(rt, relay(command))]))), false)
        else if m == JStr("shutdown") then
          Outcome(Response(RequestId(fields), Result(Success)), true)
        else
          Outcome(Response(RequestId(fields), Error(MethodNotFound, "Method not found: " + rt.str(m))), false)
  }

  /** A decoded request dict, as the runtime reads the message. */
  predicate IsRequest(rt: Runtime, message: string, fields: map<string, Json>) {
    rt.loads(message) == Some(JObj(fields))
  }

  /** `initialize` answers with id 0 whatever the request's id, and with
      the six-tool catalogue. */
  lemma InitializeAnswersIdZero(rt: Runtime, catalogue: Json, relay: Json -> string, message: string, fields: map<string, Json>)
    requires IsRequest(rt, message, fields) && Method(fields) == JStr("initialize")
    ensures Process(rt, catalogue, relay, message).response == Response(JNum(0), Result(catalogue))
    ensures !Process(rt, catalogue, relay, message).exit
  {
  }

  /** With the draft's own capabilities literal, `initialize` announces the
      six distinct, namespaced tools, under id 0. */
  lemma InitializeAnnouncesSixTools(rt: Runtime, relay: Json -> string, message: string, fields: map<string, Json>)
    requires IsRequest(rt, message, fields) && Method(fields) == JStr("initialize")
    ensures var r := Process(rt, Catalogue.Capabilities(), relay, message).response;
      r.id == JNum(0) && r.body.Result? && Catalogue.AnnouncesSixTools(r.body.value)
  {
    InitializeAnswersIdZero(rt, Catalogue.Capabilities(), relay, message, fields);
    Catalogue.CapabilitiesAnnounceSixTools();
  }

  /** A well-formed tool call sends exactly the command dict to the host
      and answers with the request's id and the decoded reply under
      `result.result`. */
  lemma ToolCallRelaysCommand(rt: Runtime, catalogue: Json, relay: Json -> string, message: string, fields: map<string, Json>)
    requires IsRequest(rt, message, fields) && Method(fields) == JStr("tools/call")
    requires ToolCommand(fields).Ok?
    ensures var reply := relay(ToolCommand(fields).value);
      Process(rt, catalogue, relay, message) ==
        Outcome(Response(RequestId(fields), Result(JObj(map["result" := ReplyObject(rt, reply)]))), false)
  {
  }

  /** With a sound runtime, a host reply that is the text of a value is
      handed back as that value. */
  lemma ToolCallReturnsReplyValue(rt: Runtime, reply: Json)
    requires Sound(rt)
    ensures ReplyObject(rt, rt.dumps(reply)) == reply
  {
  }

  /** A tool call without `params` is an internal error with id 0, even
      when the request carried an id. */
  lemma ToolCallWithoutParams(rt: Runtime, catalogue: Json, relay: Json -> string, message: string, fields: map<string, Json>)
    requires IsRequest(rt, message, fields) && Method(fields) == JStr("tools/call")
    requires "params" !in fields
    ensures Process(rt, catalogue, relay, message) ==
      Outcome(Response(JNum(0), Error(InternalError, "Internal error: 'params'")), false)
  {
  }

  /** Every method other than the three known ones, including a missing
      method and `notifications/cancelled`, gets -32601 with the id
      mirrored. */
  lemma UnknownMethodMirrorsId(rt: Runtime, catalogue: Json, relay: Json -> string, message: string, fields: map<string, Json>)
    requires IsRequest(rt, message, fields) && !Known(Method(fields))
    ensures Process(rt, catalogue, relay, message).response.id == RequestId(fields)
    ensures Process(rt, catalogue, relay, message).response.body.Error?
    ensures Process(rt, catalogue, relay, message).response.body.code == MethodNotFound
    ensures !Process(rt, catalogue, relay, message).exit
  {
  }

  /** `shutdown` mirrors the id and answers `{"success": true}`. */
  lemma ShutdownMirrorsId(rt: Runtime, catalogue: Json, relay: Json -> string, message: string, fields: map<string, Json>)
    requires IsRequest(rt, message, fields) && Method(fields) == JStr("shutdown")
    ensures Process(rt, catalogue, relay, message) == Outcome(Response(RequestId(fields), Result(Success)), true)
  {
  }

  // ---------------------------------------------------------------------
  // Output and input
  // ---------------------------------------------------------------------

  /** What `send_json_response` is given: a text or a dict. */
  datatype Payload = PText(text: string) | PValue(value: Json)

  /** `send_json_response`: a text is written only if it decodes, a dict is
      dumped; either is followed by one newline. */
  function SendJsonResponse(rt: Runtime, p: Payload): (out: Option<string>)
    ensures p.PText? ==> (out.Some? <==> rt.loads(p.text).Some?)
    ensures p.PText? && out.Some? ==> out.value == p.text + "\n"
    ensures p.PValue? ==> out == Some(rt.dumps(p.value) + "\n")
  {
    match p
    case PText(t) => if rt.loads(t).Some? then Some(t + "\n") else None
    case PValue(v) => Some(rt.dumps(v) + "\n")
  }

  /** With a sound runtime, a dumped dict is one line: the text before the
      single newline reads back as the dict. */
  lemma SendJsonResponseOneLine(rt: Runtime, v: Json)
    requires Sound(rt)
    ensures var out := SendJsonResponse(rt, PValue(v)).value;
      && |out| > 0 && out[|out| - 1] == '\n'
      && '\n' !in out[..|out| - 1]
      && rt.loads(out[..|out| - 1]) == Some(v)
  {
    var out := SendJsonResponse(rt, PValue(v)).value;
    assert out[..|out| - 1] == rt.dumps(v);
  }

  /** `receive_message` on one `readline()` result: `""` is end of input,
      a blank line is skipped, anything else is the stripped line. */
  function Receive(line: string): (m: Option<string>)
    ensures m.Some? ==> m.value != "" && m.value == Text.Strip(line)
    ensures m.None? <==> Text.Strip(line) == ""
  {
    if line == "" then None
    else
      var s := Text.Strip(line);
      if s == "" then None else Some(s)
  }

  // ---------------------------------------------------------------------
  // Main loop
  // ---------------------------------------------------------------------

  /** The line written for one message. */
  function Reply(rt: Runtime, catalogue: Json, relay: Json -> string, message: string): string {
    SendJsonResponse(rt, PValue(ToJson(Process(rt, catalogue, relay, message).response))).value
  }

  /** One reply per message, in order. */
  function Replies(rt: Runtime, catalogue: Json, relay: Json -> string, ms: seq<string>): (out: seq<string>)
    ensures |out| == |ms|
    ensures forall i :: 0 <= i < |ms| ==> out[i] == Reply(rt, catalogue, relay, ms[i])
  {
    if |ms| == 0 then [] else [Reply(rt, catalogue, relay, ms[0])] + Replies(rt, catalogue, relay, ms[1..])
  }

  /** The messages `main_loop` reads and processes from successive
      `readline()` results: blanks and end of input are skipped, and the
      loop ends after the message that sets the exit flag. */
  function Handled(rt: Runtime, lines: seq<string>): (ms: seq<string>)
    ensures |ms| <= |lines|
  {
    if |lines| == 0 then []
    else
      match Receive(lines[0])
      case None => Handled(rt, lines[1..])
      case Some(m) => [m] + (if Exits(rt, m) then [] else Handled(rt, lines[1..]))
  }

  /** `main_loop`'s output: one written line per handled message. */
  function Run(rt: Runtime, catalogue: Json, relay: Json -> string, lines: seq<string>): (out: seq<string>)
    ensures |out| <= |lines|
  {
    Replies(rt, catalogue, relay, Handled(rt, lines))
  }

  /** The messages carried by the lines: stripped, blanks and end-of-input dropped. */
  function Messages(lines: seq<string>): (ms: seq<string>)
    ensures |ms| <= |lines|
    ensures forall i :: 0 <= i < |ms| ==> ms[i] != ""
  {
    if |lines| == 0 then []
    else
      match Receive(lines[0])
      case None => Messages(lines[1..])
      case Some(m) => [m] + Messages(lines[1..])
  }

  /** No message among the lines sets the exit flag. */
  predicate NoShutdown(rt: Runtime, lines: seq<string>) {
    forall i :: 0 <= i < |lines| && Receive(lines[i]).Some? ==> !Exits(rt, Receive(lines[i]).value)
  }

  /** Until shutdown, every message is handled, in order. */
  lemma {:induction false} HandledAllMessages(rt: Runtime, lines: seq<string>)
    requires NoShutdown(rt, lines)
    ensures Handled(rt, lines) == Messages(lines)
  {
    if |lines| > 0 {
      var tail := lines[1..];
      assert NoShutdown(rt, tail) by {
        forall i | 0 <= i < |tail| && Receive(tail[i]).Some?
          ensures !Exits(rt, Receive(tail[i]).value)
        {
          assert tail[i] == lines[i + 1];
        }
      }
      HandledAllMessages(rt, tail);
    }
  }

  /** Until shutdown, the output is exactly one reply per message, in order:
      blank lines and end of input write nothing. */
  lemma RunRepliesToEachMessage(rt: Runtime, catalogue: Json, relay: Json -> string, lines: seq<string>)
    requires NoShutdown(rt, lines)
    ensures Run(rt, catalogue, relay, lines) == Replies(rt, catalogue, relay, Messages(lines))
  {
    HandledAllMessages(rt, lines);
  }

  /** Nothing is read or written after the reply to `shutdown`. */
  lemma {:induction false} HandledStopsAtShutdown(rt: Runtime, lines: seq<string>, after: seq<string>)
    requires |lines| > 0
    requires Receive(lines[|lines| - 1]).Some?
    requires Exits(rt, Receive(lines[|lines| - 1]).value)
    ensures Handled(rt, lines + after) == Handled(rt, lines)
  {
    var whole := lines + after;
    assert whole[0] == lines[0];
    if |lines| > 1 {
      assert whole[1..] == lines[1..] + after;
      HandledStopsAtShutdown(rt, lines[1..], after);
    }
  }

  lemma RunStopsAfterShutdown(rt: Runtime, catalogue: Json, relay: Json -> string, lines: seq<string>, after: seq<string>)
    requires |lines| > 0
    requires Receive(lines[|lines| - 1]).Some?
    requires Exits(rt, Receive(lines[|lines| - 1]).value)
    ensures Run(rt, catalogue, relay, lines + after) == Run(rt, catalogue, relay, lines)
  {
    HandledStopsAtShutdown(rt, lines, after);
  }
}
