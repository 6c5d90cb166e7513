/**
  * The socket daemon (`src/daemon_mcp_server.py`): each client connection
  * reads newline-framed JSON-RPC requests, answers them with one JSON line
  * each, and keeps a per-connection state beside the server-wide one.
  * `shutdown` closes only the connection that asked.
  *
  * The shared `SERVER_CAPABILITIES` object is the parameter `catalogue`;
  * in the draft it is `Catalogue.Capabilities()`.
  */
module Daemon {
  import opened Wrappers
  import opened JsonValue
  import opened JsonRpc
  import Framing
  import Catalogue

  /** The per-connection part of `MCPRequestHandler`. */
  datatype Conn = Conn(local: ServerState, connected: bool, buffer: string)

  /** A fresh connection: waiting, connected, empty buffer. */
  const Fresh: Conn := Conn(Waiting, true, "")

  /** What one request does: the response sent, and whether it was an
      `initialize` or a `shutdown`. */
  datatype Effect = Effect(response: Option<Response>, initializes: bool, closes: bool)

  /** `process_message` on one line of text. */
  function ProcessMessage(rt: Runtime, catalogue: Json, line: string): (e: Effect)
    ensures rt.loads(line).None? ==> e == Effect(None, false, false)
    ensures e.initializes <==>
      rt.loads(line).Some? && rt.loads(line).value.JObj? && Method(rt.loads(line).value.fields) == JStr("initialize")
    ensures e.closes <==>
      rt.loads(line).Some? && rt.loads(line).value.JObj? && Method(rt.loads(line).value.fields) == JStr("shutdown")
    ensures e.response.Some? && rt.loads(line).value.JObj? ==>
      e.response.value.id == RequestId(rt.loads(line).value.fields)
    ensures e.response.Some? && !rt.loads(line).value.JObj? ==>
      e.response.value == InternalErrorResponse(rt, JNum(0), NoAttribute(rt.loads(line).value, "get"))
  {
    match rt.loads(line)
    // the handler's own error path names the unbound `message`; that
    // failure is swallowed, so nothing is sent
    case None => Effect(None, false, false)
    case Some(message) =>
      if !message.JObj? then
        Effect(Some(InternalErrorResponse(rt, JNum(0), NoAttribute(message, "get"))), false, false)
      else
        var fields := message.fields;
        var m := Method(fields);
        var id := RequestId(fields);
        if m == JStr("initialize") then
          Effect(Some(Response(id, Result(catalogue))), true, false)
        else if m == JStr("tools/call") then
          match ToolArguments(fields)
          case Err(fault) => Effect(Some(InternalErrorResponse(rt, id, fault)), false, false)
          case Ok((name, parameters)) => Effect(Some(Response(id, Result(ExecutedResult(rt, name, parameters)))), false, false)
        else if m == JStr("shutdown") then
          Effect(Some(Response(id, Result(Success))), false, true)
        else if m == JStr("notifications/cancelled") then
          Effect(None, false, false)
        else
          Effect(Some(Response(id, Error(MethodNotFound, "Method '" + rt.str(m) + "' not found"))), false, false)
  }

  /** Unknown methods get -32601 naming the method, with the id mirrored;
      `notifications/cancelled` gets nothing. */
  lemma UnknownMethodNamed(rt: Runtime, catalogue: Json, line: string, fields: map<string, Json>, name: string)
    requires Sound(rt)
    requires rt.loads(line) == Some(JObj(fields)) && Method(fields) == JStr(name)
    requires name !in {"initialize", "tools/call", "shutdown", "notifications/cancelled"}
    ensures ProcessMessage(rt, catalogue, line).response ==
      Some(Response(RequestId(fields), Error(MethodNotFound, "Method '" + name + "' not found")))
  {
  }

  lemma CancelledUnanswered(rt: Runtime, catalogue: Json, line: string, fields: map<string, Json>)
    requires rt.loads(line) == Some(JObj(fields)) && Method(fields) == JStr("notifications/cancelled")
    ensures ProcessMessage(rt, catalogue, line) == Effect(None, false, false)
  {
  }

  /** A fault on a decoded request dict is -32603 with the id mirrored
      (unlike the first stdio draft, which answers such faults with id 0). */
  lemma ToolFaultMirrorsId(rt: Runtime, catalogue: Json, line: string, fields: map<string, Json>)
    requires rt.loads(line) == Some(JObj(fields)) && Method(fields) == JStr("tools/call")
    requires ToolArguments(fields).Err?
    ensures var r := ProcessMessage(rt, catalogue, line).response;
      r.Some? && r.value.id == RequestId(fields) && r.value.body.Error? && r.value.body.code == InternalError
  {
  }

  // ---------------------------------------------------------------------
  // Sending
  // ---------------------------------------------------------------------

  /** `send_response`: the JSON text and one newline. */
  function SendResponse(rt: Runtime, r: Response): string {
    rt.dumps(ToJson(r)) + "\n"
  }

  /** A client framing the daemon's output reads back exactly one line per
      response, holding the response dict, with nothing left over. */
  lemma {:induction false} SendResponseFramesBack(rt: Runtime, r: Response)
    requires Sound(rt)
    ensures var f := Framing.Frame(SendResponse(rt, r));
      |f.lines| == 1 && f.rest == "" && rt.loads(f.lines[0]) == Some(ToJson(r))
  {
    var text := rt.dumps(ToJson(r));
    assert Framing.Join([text]) + "" == SendResponse(rt, r) by {
      assert [text][1..] == [];
    }
    Framing.FrameCharacterised(SendResponse(rt, r), [text], "");
  }

  // ---------------------------------------------------------------------
  // Connection loop
  // ---------------------------------------------------------------------

  /** The server-wide state and one connection after some lines. */
  datatype Session = Session(out: seq<string>, processed: seq<string>, global: ServerState, conn: Conn)

  /** Apply one line's effect to the states. */
  function Apply(rt: Runtime, catalogue: Json, line: string, global: ServerState, conn: Conn): (s: Session)
    ensures s.processed == [line]
    ensures !conn.connected ==> !s.conn.connected
    ensures s.conn.buffer == conn.buffer
  {
    var e := ProcessMessage(rt, catalogue, line);
    var out := if e.response.Some? then [SendResponse(rt, e.response.value)] else [];
    Session(out, [line],
      if e.initializes then Initialized else global,
      Conn(if e.initializes then Initialized else conn.local, conn.connected && !e.closes, conn.buffer))
  }

  /** The inner `while b'\n' in buffer` loop: every non-empty complete line,
      in order, even after a `shutdown` among them. */
  function ProcessLines(rt: Runtime, catalogue: Json, lines: seq<string>, global: ServerState, conn: Conn): (s: Session)
    ensures s.processed == Framing.NonEmpty(lines)
    ensures !conn.connected ==> !s.conn.connected
    ensures s.conn.buffer == conn.buffer
    ensures global == Initialized ==> s.global == Initialized
  {
    if |lines| == 0 then Session([], [], global, conn)
    else if lines[0] == "" then ProcessLines(rt, catalogue, lines[1..], global, conn)
    else
      var first := Apply(rt, catalogue, lines[0], global, conn);
      var rest := ProcessLines(rt, catalogue, lines[1..], first.global, first.conn);
      Session(first.out + rest.out, [lines[0]] + rest.processed, rest.global, rest.conn)
  }

  /** `handle` over successive `recv` results; an empty result is the client
      disconnecting. The loop re-checks the connection only between reads. */
  function Serve(rt: Runtime, catalogue: Json, chunks: seq<string>, global: ServerState, conn: Conn): (s: Session)
    ensures s.conn.connected ==> conn.connected
    ensures global == Initialized ==> s.global == Initialized
    decreases |chunks|
  {
    if !conn.connected || |chunks| == 0 then Session([], [], global, conn)
    else if chunks[0] == "" then Session([], [], global, conn.(connected := false))
    else
      var f := Framing.Frame(conn.buffer + chunks[0]);
      var now := ProcessLines(rt, catalogue, f.lines, global, conn.(buffer := f.rest));
      var rest := Serve(rt, catalogue, chunks[1..], now.global, now.conn);
      Session(now.out + rest.out, now.processed + rest.processed, rest.global, rest.conn)
  }

  /** While the client stays connected, the lines processed are exactly the
      non-empty lines of everything received, framed as one stream: how
      `recv` splits the bytes does not matter. */
  lemma {:induction false} ServeProcessesStream(rt: Runtime, catalogue: Json, chunks: seq<string>, global: ServerState, conn: Conn)
    requires Framing.IsLine(conn.buffer)
    requires Serve(rt, catalogue, chunks, global, conn).conn.connected
    requires forall i :: 0 <= i < |chunks| ==> chunks[i] != ""
    ensures Serve(rt, catalogue, chunks, global, conn).processed ==
      Framing.NonEmpty(Framing.Frame(conn.buffer + Framing.Concat(chunks)).lines)
    decreases |chunks|
  {
    ServeFeeds(rt, catalogue, chunks, global, conn);
    Framing.FeedLinesWhole(conn.buffer, chunks);
  }

  lemma {:induction false} ServeFeeds(rt: Runtime, catalogue: Json, chunks: seq<string>, global: ServerState, conn: Conn)
    requires Serve(rt, catalogue, chunks, global, conn).conn.connected
    requires forall i :: 0 <= i < |chunks| ==> chunks[i] != ""
    ensures Serve(rt, catalogue, chunks, global, conn).processed == Framing.NonEmpty(Framing.FeedLines(conn.buffer, chunks))
    decreases |chunks|
  {
    if |chunks| > 0 {
      var f := Framing.Frame(conn.buffer + chunks[0]);
      var now := ProcessLines(rt, catalogue, f.lines, global, conn.(buffer := f.rest));
      ServeFeeds(rt, catalogue, chunks[1..], now.global, now.conn);
      Framing.NonEmptyAppend(f.lines, Framing.FeedLines(f.rest, chunks[1..]));
    }
  }

  /** `shutdown` closes only the asking connection: the server-wide state is
      untouched, and the connection stops reading after the current read. */
  lemma ShutdownClosesOnlyThisConnection(rt: Runtime, catalogue: Json, line: string, global: ServerState, conn: Conn)
    requires rt.loads(line).Some? && rt.loads(line).value.JObj?
    requires Method(rt.loads(line).value.fields) == JStr("shutdown")
    ensures var s := Apply(rt, catalogue, line, global, conn);
      s.global == global && !s.conn.connected && s.conn.local == conn.local
      && s.out == [SendResponse(rt, Response(RequestId(rt.loads(line).value.fields), Result(Success)))]
  {
  }

  /** `initialize` answers with the shared catalogue, mirrors the id, and
      marks both the server and the connection initialized. */
  lemma InitializeSetsBothStates(rt: Runtime, catalogue: Json, line: string, global: ServerState, conn: Conn)
    requires rt.loads(line).Some? && rt.loads(line).value.JObj?
    requires Method(rt.loads(line).value.fields) == JStr("initialize")
    ensures var s := Apply(rt, catalogue, line, global, conn);
      s.global == Initialized && s.conn.local == Initialized && s.conn.connected == conn.connected
      && s.out == [SendResponse(rt, Response(RequestId(rt.loads(line).value.fields), Result(catalogue)))]
  {
  }

  /** With the shared `SERVER_CAPABILITIES`, `initialize` writes one line
      that a client reads back as a response mirroring the id and
      announcing the six distinct, namespaced tools. */
  lemma InitializeAnnouncesSixTools(rt: Runtime, line: string, global: ServerState, conn: Conn)
    requires Sound(rt)
    requires rt.loads(line).Some? && rt.loads(line).value.JObj?
    requires Method(rt.loads(line).value.fields) == JStr("initialize")
    ensures var s := Apply(rt, Catalogue.Capabilities(), line, global, conn);
      && |s.out| == 1
      && var f := Framing.Frame(s.out[0]);
      && |f.lines| == 1 && f.rest == ""
      && rt.loads(f.lines[0]) == Some(ToJson(Response(RequestId(rt.loads(line).value.fields), Result(Catalogue.Capabilities()))))
      && Catalogue.AnnouncesSixTools(Catalogue.Capabilities())
  {
    InitializeSetsBothStates(rt, Catalogue.Capabilities(), line, global, conn);
    SendResponseFramesBack(rt, Response(RequestId(rt.loads(line).value.fields), Result(Catalogue.Capabilities())));
    Catalogue.CapabilitiesAnnounceSixTools();
  }

  /** A connection that closed reads nothing more. */
  lemma ClosedConnectionIdle(rt: Runtime, catalogue: Json, chunks: seq<string>, global: ServerState, conn: Conn)
    requires !conn.connected
    ensures Serve(rt, catalogue, chunks, global, conn) == Session([], [], global, conn)
  {
  }

  // ---------------------------------------------------------------------
  // Signals
  // ---------------------------------------------------------------------

  /** `signal_handler`: always sets the exit flag; first waits a second
      when the server is no longer waiting. */
  datatype SignalAction = SignalAction(delay: bool, exit: bool)

  function OnSignal(global: ServerState): (a: SignalAction)
    ensures a.exit
    ensures a.delay <==> global == Initialized
  {
    SignalAction(global != Waiting, true)
  }
}
