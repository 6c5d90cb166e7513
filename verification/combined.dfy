/**
  * The FastMCP server's link to the Rhino plugin (`combined_mcp_server.py`):
  * `RhinoConnection` sends one JSON command per call over a TCP socket,
  * reads until the accumulated bytes decode, classifies the reply, and
  * drops the socket on every failure so that the next call reconnects.
  * The tool wrappers build the command parameters and turn any failure
  * into a JSON error envelope.
  *
  * The socket is modelled by what its operations return: whether a
  * connection attempt succeeds, whether `sendall` fails, and the
  * successive results of `recv`.
  */
module Combined {
  import opened Wrappers
  import opened JsonValue
  import Text
  import Framing

  // ---------------------------------------------------------------------
  // Connection state
  // ---------------------------------------------------------------------

  /** `RhinoConnection`: whether `self.sock` is set, and the last request id. */
  datatype Connection = Connection(open: bool, requestId: nat)

  /** A new `RhinoConnection`: no socket, id counter at 0. */
  const Fresh: Connection := Connection(false, 0)

  /** `connect`: an existing socket is kept without a new attempt; otherwise
      the attempt decides, and a failed attempt leaves no socket. */
  function Connect(c: Connection, attemptSucceeds: bool): (r: (Connection, bool))
    ensures r.1 <==> c.open || attemptSucceeds
    ensures r.0.open == r.1
    ensures r.0.requestId == c.requestId
    ensures c.open ==> r.0 == c
  {
    if c.open then (c, true)
    else if attemptSucceeds then (c.(open := true), true)
    else (c.(open := false), false)
  }

  /** `disconnect`: whatever `close` does, the socket is dropped. */
  function Disconnect(c: Connection): (r: Connection)
    ensures !r.open && r.requestId == c.requestId
  {
    c.(open := false)
  }

  // ---------------------------------------------------------------------
  // The command envelope
  // ---------------------------------------------------------------------

  /** `{"id": id, "type": command_type, "params": params or {}}`. */
  function Command(id: nat, commandType: string, params: Json): (j: Json)
    ensures j.JObj? && j.fields.Keys == {"id", "type", "params"}
    ensures j.fields["id"] == JNum(id) && j.fields["type"] == JStr(commandType)
    ensures Truthy(params) ==> j.fields["params"] == params
    ensures !Truthy(params) ==> j.fields["params"] == JObj(map[])
  {
    JObj(map["id" := JNum(id), "type" := JStr(commandType), "params" := if Truthy(params) then params else JObj(map[])])
  }

  // ---------------------------------------------------------------------
  // Receiving
  // ---------------------------------------------------------------------

  /** One `recv` result: bytes (empty at end of stream), the 10-second
      `socket.timeout`, an error of the `ConnectionError` family
      (`BrokenPipeError`, `ConnectionResetError`) with its text, or any
      other `OSError` with its text. */
  datatype Recv = Chunk(data: string) | TimedOut | Broken(reason: string) | Failed(reason: string)

  /** Why the receive loop stopped. */
  datatype Stop = Parsed | Eof | Timeout | Lost(reason: string) | Faulted(reason: string)

  datatype Received = Received(data: string, stop: Stop)

  /** The receive loop: append each chunk and stop as soon as the whole
      buffer decodes, or at end of stream. A `recv` that never returns
      again, once the listed results run out, is the timeout. */
  function Receive(rt: Runtime, data: string, rs: seq<Recv>): (r: Received)
    ensures r.stop.Parsed? ==> rt.loads(r.data).Some?
    ensures |r.data| >= |data| && r.data[..|data|] == data
    decreases |rs|
  {
    if |rs| == 0 then Received(data, Timeout)
    else
      match rs[0]
      case TimedOut => Received(data, Timeout)
      case Broken(reason) => Received(data, Lost(reason))
      case Failed(reason) => Received(data, Faulted(reason))
      case Chunk(c) =>
        if c == "" then Received(data, Eof)
        else
          var more := data + c;
          if rt.loads(more).Some? then Received(more, Parsed)
          else Receive(rt, more, rs[1..])
  }

  /** Chunks carrying the given texts. */
  function Chunks(cs: seq<string>): (rs: seq<Recv>)
    ensures |rs| == |cs|
    ensures forall i :: 0 <= i < |cs| ==> rs[i] == Chunk(cs[i])
  {
    if |cs| == 0 then [] else [Chunk(cs[0])] + Chunks(cs[1..])
  }

  /** Receiving stops at the first accumulated prefix that decodes: when
      the texts `cs` arrive and only their whole concatenation decodes, the
      reply is that concatenation and nothing after it is read. */
  lemma {:induction false} ReceiveStopsAtFirstParse(rt: Runtime, data: string, cs: seq<string>, later: seq<Recv>)
    requires |cs| > 0 && forall i :: 0 <= i < |cs| ==> cs[i] != ""
    requires forall k :: 0 < k < |cs| ==> rt.loads(data + Framing.Concat(cs[..k])).None?
    requires rt.loads(data + Framing.Concat(cs)).Some?
    ensures Receive(rt, data, Chunks(cs) + later) == Received(data + Framing.Concat(cs), Parsed)
    decreases |cs|
  {
    var rs := Chunks(cs) + later;
    assert rs[0] == Chunk(cs[0]);
    var more := data + cs[0];
    assert Framing.Concat(cs) == cs[0] + Framing.Concat(cs[1..]);
    assert data + Framing.Concat(cs) == more + Framing.Concat(cs[1..]);
    if |cs| == 1 {
      assert Framing.Concat(cs[1..]) == "";
      assert data + Framing.Concat(cs) == more;
    } else {
      assert Framing.Concat(cs[..1]) == cs[0] by {
        assert cs[..1][1..] == [];
      }
      assert rt.loads(more).None?;
      var tail := cs[1..];
      forall k | 0 < k < |tail|
        ensures rt.loads(more + Framing.Concat(tail[..k])).None?
      {
        assert cs[..k + 1][0] == cs[0] && cs[..k + 1][1..] == tail[..k];
        assert data + Framing.Concat(cs[..k + 1]) == more + Framing.Concat(tail[..k]);
      }
      assert rs[1..] == Chunks(tail) + later by {
        assert Chunks(cs)[1..] == Chunks(tail);
      }
      ReceiveStopsAtFirstParse(rt, more, tail, later);
    }
  }

  // ---------------------------------------------------------------------
  // Classifying the reply
  // ---------------------------------------------------------------------

  /** The checks on a decoded reply, prefixed with `tag` (`"Request #n: "`)
      where the draft prefixes them: an `error` key first, then
      `status == "error"`, then the `result` value or, without one, the
      whole reply. A reply that is not a dict fails at `in` or `.get`. */
  function Classify(rt: Runtime, tag: string, reply: Json): (r: Result<Json, string>)
    ensures r.Ok? ==> reply.JObj? && "error" !in reply.fields
    ensures r.Ok? ==> r.value == (if "result" in reply.fields then reply.fields["result"] else reply)
  {
    match Contains(reply, "error")
    case Err(f) => Err(FaultText(rt, f))
    case Ok(hasError) =>
      if !reply.JObj? then Err(FaultText(rt, NoAttribute(reply, "get")))
      else
        var fields := reply.fields;
        if hasError then Err(tag + "Rhino error: " + rt.str(fields["error"]))
        else if Get(fields, "status", JNull) == JStr("error") then
          Err(tag + "Rhino error: " + rt.str(Get(fields, "message", JStr("Unknown error from Rhino"))))
        else if "result" in fields then Ok(fields["result"])
        else Ok(reply)
  }

  /** An `error` key makes the reply a failure, whatever else it holds. */
  lemma ErrorKeyWins(rt: Runtime, tag: string, fields: map<string, Json>)
    requires "error" in fields
    ensures Classify(rt, tag, JObj(fields)) == Err(tag + "Rhino error: " + rt.str(fields["error"]))
  {
  }

  /** Without an `error` key, `status: "error"` is a failure carrying the
      reply's `message`, or a default text. */
  lemma StatusErrorCarriesMessage(rt: Runtime, tag: string, fields: map<string, Json>)
    requires Sound(rt)
    requires "error" !in fields && "status" in fields && fields["status"] == JStr("error")
    ensures "message" in fields ==> Classify(rt, tag, JObj(fields)) == Err(tag + "Rhino error: " + rt.str(fields["message"]))
    ensures "message" !in fields ==> Classify(rt, tag, JObj(fields)) == Err(tag + "Rhino error: " + "Unknown error from Rhino")
  {
    assert rt.str(JStr("Unknown error from Rhino")) == "Unknown error from Rhino";
  }

  /** A dict reply succeeds exactly when it has no `error` key and its
      `status` is not `"error"`. */
  lemma SuccessIff(rt: Runtime, tag: string, fields: map<string, Json>)
    ensures Classify(rt, tag, JObj(fields)).Ok? <==>
      "error" !in fields && Get(fields, "status", JNull) != JStr("error")
  {
  }

  // ---------------------------------------------------------------------
  // send_command
  // ---------------------------------------------------------------------

  /** How `sendall` fails, by the handler that catches it: the socket's
      10-second timeout (still set from an earlier call on a kept socket),
      the `ConnectionError` family, or any other `OSError`. */
  datatype SendFault = SendTimedOut | SendBroken(reason: string) | SendFailed(reason: string)

  /** Everything one `send_command` call meets: its arguments, whether a
      needed connection attempt succeeds, whether `sendall` fails, and the
      `recv` results. */
  datatype Exchange = Exchange(commandType: string, params: Json, connectSucceeds: bool, sendError: Option<SendFault>, replies: seq<Recv>)

  /** The connection afterwards, the text sent, and the value returned or
      the text of the exception raised. */
  datatype Sent = Sent(conn: Connection, sent: Option<string>, reply: Result<Json, string>)

  /** `"Request #<id>: "`. */
  function Tag(id: nat): string {
    "Request #" + Text.NatToString(id) + ": "
  }

  /** What the reply read from the socket comes to, once the receive loop
      has stopped. */
  function Interpret(rt: Runtime, tag: string, received: Received): (r: Result<Json, string>)
    ensures received.stop.Timeout? ==> r == Err(tag + "Timeout waiting for Rhino response")
    ensures received.stop.Lost? ==> r == Err(tag + "Connection to Rhino lost: " + received.stop.reason)
    ensures received.stop.Faulted? ==> r == Err(tag + "Communication error with Rhino: " + received.stop.reason)
    ensures (received.stop.Parsed? || received.stop.Eof?) && received.data == "" ==>
      r == Err(tag + "Connection to Rhino lost: " + tag + "No data received from Rhino")
    ensures (received.stop.Parsed? || received.stop.Eof?) && received.data != "" && rt.loads(received.data).None? ==>
      r == Err(tag + "Invalid JSON response from Rhino: " + rt.decodeError(received.data))
    ensures (received.stop.Parsed? || received.stop.Eof?) && received.data != "" && rt.loads(received.data).Some? ==>
      var c := Classify(rt, tag, rt.loads(received.data).value);
      && (r.Ok? <==> c.Ok?)
      && (c.Ok? ==> r == c)
      && (c.Err? ==> r == Err(tag + "Communication error with Rhino: " + c.error))
    ensures r.Ok? ==> received.data != "" && rt.loads(received.data).Some?
    ensures r.Err? ==> |tag| <= |r.error| && r.error[..|tag|] == tag
  {
    match received.stop
    case Timeout => Err(tag + "Timeout waiting for Rhino response")
    case Lost(reason) => Err(tag + "Connection to Rhino lost: " + reason)
    // any other socket error reaches the catch-all
    case Faulted(reason) => Err(tag + "Communication error with Rhino: " + reason)
    case _ =>
      if received.data == "" then
        // the ConnectionError raised for no data is caught and wrapped again
        Err(tag + "Connection to Rhino lost: " + tag + "No data received from Rhino")
      else
        match rt.loads(received.data)
        case None => Err(tag + "Invalid JSON response from Rhino: " + rt.decodeError(received.data))
        case Some(reply) =>
          match Classify(rt, tag, reply)
          case Ok(v) => Ok(v)
          // the draft's own exceptions are caught by the catch-all and wrapped
          case Err(e) => Err(tag + "Communication error with Rhino: " + e)
  }

  /** `send_command`. Without a socket and with a failed attempt it raises
      before taking an id; otherwise it takes the next id, and any failure
      drops the socket. */
  function SendCommand(rt: Runtime, c: Connection, x: Exchange): (s: Sent)
    ensures s.sent.Some? <==> c.open || x.connectSucceeds
    ensures s.sent.None? ==> s.conn == c.(open := false) && s.reply == Err("Not connected to Rhino")
    ensures s.sent.Some? ==>
      s.sent.value == rt.dumps(Command(c.requestId + 1, x.commandType, x.params))
      && s.conn.requestId == c.requestId + 1
    ensures s.conn.open <==> s.reply.Ok?
    ensures s.sent.Some? && x.sendError == Some(SendTimedOut) ==>
      s.reply == Err(Tag(c.requestId + 1) + "Timeout waiting for Rhino response")
    ensures s.sent.Some? && x.sendError.Some? && x.sendError.value.SendBroken? ==>
      s.reply == Err(Tag(c.requestId + 1) + "Connection to Rhino lost: " + x.sendError.value.reason)
    ensures s.sent.Some? && x.sendError.Some? && x.sendError.value.SendFailed? ==>
      s.reply == Err(Tag(c.requestId + 1) + "Communication error with Rhino: " + x.sendError.value.reason)
    ensures s.sent.Some? && x.sendError.None? ==> s.reply == Interpret(rt, Tag(c.requestId + 1), Receive(rt, "", x.replies))
    ensures s.sent.Some? && s.reply.Err? ==>
      var tag := Tag(c.requestId + 1);
      |tag| <= |s.reply.error| && s.reply.error[..|tag|] == tag
  {
    if !c.open && !x.connectSucceeds then Sent(c.(open := false), None, Err("Not connected to Rhino"))
    else
      var id := c.requestId + 1;
      var text := rt.dumps(Command(id, x.commandType, x.params));
      var reply :=
        match x.sendError
        case Some(SendTimedOut) => Err(Tag(id) + "Timeout waiting for Rhino response")
        case Some(SendBroken(reason)) => Err(Tag(id) + "Connection to Rhino lost: " + reason)
        case Some(SendFailed(reason)) => Err(Tag(id) + "Communication error with Rhino: " + reason)
        case None => Interpret(rt, Tag(id), Receive(rt, "", x.replies));
      Sent(Connection(reply.Ok?, id), Some(text), reply)
  }

  /** A reply that decodes at once and passes the checks is returned, and
      the socket is kept for the next call. */
  lemma {:induction false} SendCommandReturnsResult(rt: Runtime, c: Connection, x: Exchange, text: string, fields: map<string, Json>)
    requires c.open && x.sendError.None?
    requires |x.replies| > 0 && x.replies[0] == Chunk(text) && text != ""
    requires rt.loads(text) == Some(JObj(fields))
    requires "error" !in fields && Get(fields, "status", JNull) != JStr("error")
    ensures var s := SendCommand(rt, c, x);
      s.conn == Connection(true, c.requestId + 1)
      && s.reply == Ok(if "result" in fields then fields["result"] else JObj(fields))
  {
    assert Receive(rt, "", x.replies) == Received(text, Parsed) by {
      assert "" + text == text;
    }
  }

  /** Once a command is sent, an empty, undecodable or error-keyed reply
      makes `send_command` fail, and the socket is dropped. */
  lemma {:induction false} SendCommandRejectsBadReplies(rt: Runtime, c: Connection, x: Exchange)
    requires (c.open || x.connectSucceeds) && x.sendError.None?
    ensures var s := SendCommand(rt, c, x);
      var got := Receive(rt, "", x.replies);
      var tag := Tag(c.requestId + 1);
      && (got.data == "" ==> s.reply.Err? && !s.conn.open)
      && (got.data == "" && (got.stop.Parsed? || got.stop.Eof?) ==>
            s.reply == Err(tag + "Connection to Rhino lost: " + tag + "No data received from Rhino"))
      && (rt.loads(got.data).None? ==> s.reply.Err? && !s.conn.open)
      && (rt.loads(got.data).Some? && rt.loads(got.data).value.JObj? && "error" in rt.loads(got.data).value.fields ==>
            s.reply.Err? && !s.conn.open)
  {
    var got := Receive(rt, "", x.replies);
    var tag := Tag(c.requestId + 1);
    if rt.loads(got.data).Some? && rt.loads(got.data).value.JObj? && "error" in rt.loads(got.data).value.fields {
      ErrorKeyWins(rt, tag, rt.loads(got.data).value.fields);
    }
  }

  /** The calls of one connection, in order: the connection afterwards and
      the ids of the commands that were sent. */
  function SendAll(rt: Runtime, c: Connection, xs: seq<Exchange>): (r: (Connection, seq<nat>))
    ensures r.0.requestId == c.requestId + |r.1|
    ensures forall k :: 0 <= k < |r.1| ==> r.1[k] == c.requestId + 1 + k
    decreases |xs|
  {
    if |xs| == 0 then (c, [])
    else
      var s := SendCommand(rt, c, xs[0]);
      var rest := SendAll(rt, s.conn, xs[1..]);
      (rest.0, (if s.sent.Some? then [c.requestId + 1] else []) + rest.1)
  }

  /** A fresh connection numbers its commands 1, 2, 3, ... whatever fails
      in between: a failed call still uses up its id, and only a call that
      could not connect takes none. */
  lemma FreshIdsFromOne(rt: Runtime, xs: seq<Exchange>)
    ensures var ids := SendAll(rt, Fresh, xs).1;
      forall k :: 0 <= k < |ids| ==> ids[k] == k + 1
  {
  }

  // ---------------------------------------------------------------------
  // Tool wrappers
  // ---------------------------------------------------------------------

  /** How a tool wrapper calls Rhino: the command, the parameter names in
      the order it lists them, whether it takes an optional colour, the
      prefix of its error text, and whether its error envelope carries the
      call's `toolId`. */
  datatype Wrapper = Wrapper(command: string, keys: seq<string>, coloured: bool, errorPrefix: string, tagged: bool)

  /** The six geometry and scene wrappers. */
  function WrapperFor(tool: string): (w: Option<Wrapper>)
    ensures w.Some? ==> w.value.command == tool
  {
    if tool == "create_sphere" then
      Some(Wrapper(tool, ["centerX", "centerY", "centerZ", "radius"], true, "Error creating sphere: ", false))
    else if tool == "create_box" then
      Some(Wrapper(tool, ["cornerX", "cornerY", "cornerZ", "width", "depth", "height"], true, "Error creating box: ", true))
    else if tool == "create_cylinder" then
      Some(Wrapper(tool, ["baseX", "baseY", "baseZ", "height", "radius"], true, "Error creating cylinder: ", true))
    else if tool == "get_scene_info" then
      Some(Wrapper(tool, [], false, "Error getting scene info: ", true))
    else if tool == "clear_scene" then
      Some(Wrapper(tool, ["currentLayerOnly"], false, "Error clearing scene: ", true))
    else if tool == "create_layer" then
      Some(Wrapper(tool, ["name"], true, "Error creating layer: ", true))
    else None
  }

  /** Every wrapper's error envelope carries the tool id except
      `create_sphere`'s. */
  lemma OnlySphereUntagged(tool: string)
    requires WrapperFor(tool).Some?
    ensures !WrapperFor(tool).value.tagged <==> tool == "create_sphere"
  {
  }

  /** The keyword arguments as a dict, in the listed order. */
  function Fields(keys: seq<string>, values: seq<Json>): (m: map<string, Json>)
    requires |keys| == |values|
    ensures m.Keys == set i | 0 <= i < |keys| :: keys[i]
    decreases |keys|
  {
    if |keys| == 0 then map[]
    else Fields(keys[..|keys| - 1], values[..|values| - 1])[keys[|keys| - 1] := values[|values| - 1]]
  }

  /** A later key overrides an earlier one, as in a dict display; with
      distinct keys each key holds its own value. */
  lemma {:induction false} FieldsHold(keys: seq<string>, values: seq<Json>, i: nat)
    requires |keys| == |values| && i < |keys|
    requires forall j :: i < j < |keys| ==> keys[j] != keys[i]
    ensures Fields(keys, values)[keys[i]] == values[i]
    decreases |keys|
  {
    if i < |keys| - 1 {
      FieldsHold(keys[..|keys| - 1], values[..|values| - 1], i);
    }
  }

  /** The `params` dict a wrapper sends: its keyword arguments, plus
      `color` only when one was given and is not empty. */
  function ToolParams(w: Wrapper, values: seq<Json>, color: Option<string>): (p: Json)
    requires |values| == |w.keys|
    ensures p.JObj?
    ensures "color" in p.fields <==> (w.coloured && color.Some? && color.value != "") || "color" in w.keys
    ensures w.coloured && color.Some? && color.value != "" ==> p.fields["color"] == JStr(color.value)
    ensures forall k :: k != "color" ==> (k in p.fields <==> k in w.keys)
  {
    var base := Fields(w.keys, values);
    if w.coloured && color.Some? && color.value != "" then JObj(base["color" := JStr(color.value)])
    else JObj(base)
  }

  /** What a wrapper returns: the result as JSON text, or an error envelope
      with `success: false`, the wrapper's error text, and the tool id when
      the wrapper adds it. */
  function ToolReply(rt: Runtime, w: Wrapper, toolId: string, outcome: Result<Json, string>): string {
    match outcome
    case Ok(v) => rt.dumps(v)
    case Err(e) => rt.dumps(ErrorEnvelope(w, toolId, e))
  }

  function ErrorEnvelope(w: Wrapper, toolId: string, e: string): (j: Json)
    ensures j.JObj? && "success" in j.fields && j.fields["success"] == JBool(false)
    ensures "error" in j.fields && j.fields["error"] == JStr(w.errorPrefix + e)
    ensures "toolId" in j.fields <==> w.tagged
  {
    var base := map["success" := JBool(false), "error" := JStr(w.errorPrefix + e)];
    JObj(if w.tagged then base["toolId" := JStr(toolId)] else base)
  }

  /** Reading back what a wrapper returns gives the Rhino result on success,
      and otherwise a failure envelope naming the error and, except for
      `create_sphere`, the tool id. */
  lemma ToolReplyReadsBack(rt: Runtime, tool: string, toolId: string, outcome: Result<Json, string>)
    requires Sound(rt) && WrapperFor(tool).Some?
    ensures var back := rt.loads(ToolReply(rt, WrapperFor(tool).value, toolId, outcome));
      && back.Some?
      && (outcome.Ok? ==> back.value == outcome.value)
      && (outcome.Err? ==>
           && back.value.JObj? && "success" in back.value.fields && back.value.fields["success"] == JBool(false)
           && ("toolId" in back.value.fields <==> tool != "create_sphere"))
  {
    OnlySphereUntagged(tool);
  }
}
