/**
  * The second stdio draft (`src/standalone-mcp-server.py`): it tracks
  * whether the assistant has initialized it, answers only `initialize`,
  * `tools/call` and `shutdown`, drops bad input silently, and refuses to
  * die on SIGTERM or on end of input once initialized.
  *
  * The hard-coded capabilities object is the parameter `catalogue`; in
  * the draft it is `Catalogue.Capabilities()`.
  */
module SrcStandalone {
  import Seqs
  import opened Wrappers
  import opened JsonValue
  import opened JsonRpc
  import Catalogue

  /** What `process_message` did: the response it sent, its return value
      (false means stop) and the server state afterwards. */
  datatype Step = Step(response: Option<Response>, keepRunning: bool, state: ServerState)

  /** `process_message` on a decoded message. Exceptions (a non-dict
      message, a tool call without its arguments) send nothing and keep
      the loop running. */
  function ProcessMessage(rt: Runtime, catalogue: Json, message: Json, state: ServerState): (s: Step)
    ensures !s.keepRunning <==> message.JObj? && Method(message.fields) == JStr("shutdown")
    ensures s.response.Some? ==> message.JObj? && s.response.value.id == RequestId(message.fields)
    ensures s.response.Some? ==> s.response.value.body.Result?
    ensures s.state == Initialized <==>
      state == Initialized || (message.JObj? && Method(message.fields) == JStr("initialize"))
  {
    if !message.JObj? then Step(None, true, state)
    else
      var fields := message.fields;
      var m := Method(fields);
      var id := RequestId(fields);
      if m == JStr("initialize") then
        Step(Some(Response(id, Result(catalogue))), true, Initialized)
      else if m == JStr("tools/call") then
        match ToolArguments(fields)
        case Err(_) => Step(None, true, state)
        case Ok((name, parameters)) => Step(Some(Response(id, Result(ExecutedResult(rt, name, parameters)))), true, state)
      else if m == JStr("shutdown") then
        Step(Some(Response(id, Result(Success))), false, state)
      else
        Step(None, true, state)
  }

  /** Exactly `initialize`, a well-formed `tools/call` and `shutdown` are
      answered; `notifications/cancelled`, unknown methods and faults are not. */
  lemma AnsweredMethods(rt: Runtime, catalogue: Json, fields: map<string, Json>, state: ServerState)
    ensures ProcessMessage(rt, catalogue, JObj(fields), state).response.Some? <==>
      || Method(fields) == JStr("initialize")
      || Method(fields) == JStr("shutdown")
      || (Method(fields) == JStr("tools/call") && ToolArguments(fields).Ok?)
    ensures Method(fields) == JStr("notifications/cancelled") ==>
      ProcessMessage(rt, catalogue, JObj(fields), state) == Step(None, true, state)
  {
  }

  /** With the draft's own capabilities literal, `initialize` answers with
      the id mirrored and announces the six distinct, namespaced tools. */
  lemma InitializeAnnouncesSixTools(rt: Runtime, fields: map<string, Json>, state: ServerState)
    requires Method(fields) == JStr("initialize")
    ensures var s := ProcessMessage(rt, Catalogue.Capabilities(), JObj(fields), state);
      && s.response.Some? && s.response.value.id == RequestId(fields)
      && s.response.value.body.Result? && Catalogue.AnnouncesSixTools(s.response.value.body.value)
      && s.state == Initialized
  {
    Catalogue.CapabilitiesAnnounceSixTools();
  }

  /** A tool call answers `{success: true, message}` naming the tool, with
      the id mirrored. */
  lemma ToolCallNamesTool(rt: Runtime, catalogue: Json, fields: map<string, Json>, state: ServerState, tool: string)
    requires Sound(rt)
    requires Method(fields) == JStr("tools/call")
    requires "params" in fields && fields["params"].JObj?
    requires "name" in fields["params"].fields && fields["params"].fields["name"] == JStr(tool)
    requires "parameters" in fields["params"].fields
    ensures var s := ProcessMessage(rt, catalogue, JObj(fields), state);
      && s.response.Some? && s.response.value.id == RequestId(fields)
      && s.response.value.body == Result(ExecutedResult(rt, JStr(tool), fields["params"].fields["parameters"]))
      && ExecutedResult(rt, JStr(tool), fields["params"].fields["parameters"]).fields["result"].fields["message"].s[..9 + |tool|]
         == "Executed " + tool
  {
    var msg := "Executed " + tool + " with parameters " + rt.str(fields["params"].fields["parameters"]);
    assert msg[..9 + |tool|] == "Executed " + tool;
  }

  // ---------------------------------------------------------------------
  // Signals
  // ---------------------------------------------------------------------

  /** The two signals the draft registers a handler for. */
  datatype Signal = SigTerm | SigInt

  /** `signal_handler`: whether the exit flag is set. */
  function SignalExits(state: ServerState, sig: Signal): (exit: bool)
    ensures !exit ==> sig == SigTerm
    ensures state == Waiting ==> exit
  {
    !(state == Initialized && sig == SigTerm)
  }

  /** Once an `initialize` request has been processed, SIGTERM no longer
      stops the server, while SIGINT always does. */
  lemma SigTermIgnoredAfterInitialize(rt: Runtime, catalogue: Json, fields: map<string, Json>, state: ServerState)
    requires Method(fields) == JStr("initialize")
    ensures !SignalExits(ProcessMessage(rt, catalogue, JObj(fields), state).state, SigTerm)
    ensures SignalExits(ProcessMessage(rt, catalogue, JObj(fields), state).state, SigInt)
  {
  }

  // ---------------------------------------------------------------------
  // Main loop
  // ---------------------------------------------------------------------

  /** One `input()`: a line without its newline, or end of input. */
  datatype Input = Eof | Line(text: string)

  /** Lines written, the final state, and whether the loop ended (after
      `shutdown`, or end of input while still waiting) rather than running
      out of modelled input. */
  datatype Run = Run(out: seq<string>, state: ServerState, ended: bool)

  /** `main`'s loop over successive inputs. */
  function Loop(rt: Runtime, catalogue: Json, state: ServerState, inputs: seq<Input>): (r: Run)
    ensures state == Initialized ==> r.state == Initialized
    ensures |r.out| <= |inputs|
    decreases |inputs|
  {
    if |inputs| == 0 then Run([], state, false)
    else
      match inputs[0]
      case Eof =>
        if state == Initialized then Loop(rt, catalogue, state, inputs[1..]) else Run([], state, true)
      case Line(text) =>
        if text == "" then Loop(rt, catalogue, state, inputs[1..])
        else
          match rt.loads(text)
          case None => Loop(rt, catalogue, state, inputs[1..])
          case Some(message) =>
            var s := ProcessMessage(rt, catalogue, message, state);
            var written := if s.response.Some? then [rt.dumps(ToJson(s.response.value)) + "\n"] else [];
            if !s.keepRunning then Run(written, s.state, true)
            else
              var rest := Loop(rt, catalogue, s.state, inputs[1..]);
              Run(written + rest.out, rest.state, rest.ended)
  }

  /** End of input keeps an initialized server reading and ends a waiting one. */
  lemma EofStaysAliveIffInitialized(rt: Runtime, catalogue: Json, state: ServerState, rest: seq<Input>)
    ensures state == Initialized ==> Loop(rt, catalogue, state, [Eof] + rest) == Loop(rt, catalogue, state, rest)
    ensures state == Waiting ==> Loop(rt, catalogue, state, [Eof] + rest) == Run([], Waiting, true)
  {
    assert ([Eof] + rest)[1..] == rest;
  }

  /** A blank line or a line that is not JSON writes nothing and changes nothing. */
  lemma UnreadableLineSkipped(rt: Runtime, catalogue: Json, state: ServerState, text: string, rest: seq<Input>)
    requires text == "" || rt.loads(text).None?
    ensures Loop(rt, catalogue, state, [Line(text)] + rest) == Loop(rt, catalogue, state, rest)
  {
    assert ([Line(text)] + rest)[1..] == rest;
  }

  /** The inputs that decode to a `shutdown` request. */
  predicate IsShutdownLine(rt: Runtime, i: Input) {
    i.Line? && i.text != "" && rt.loads(i.text).Some?
    && rt.loads(i.text).value.JObj? && Method(rt.loads(i.text).value.fields) == JStr("shutdown")
  }

  /** Nothing after a `shutdown` request is read. */
  lemma {:induction false} LoopStopsAtShutdown(rt: Runtime, catalogue: Json, state: ServerState, inputs: seq<Input>, after: seq<Input>)
    requires |inputs| > 0 && IsShutdownLine(rt, inputs[|inputs| - 1])
    ensures Loop(rt, catalogue, state, inputs + after) == Loop(rt, catalogue, state, inputs)
    ensures Loop(rt, catalogue, state, inputs).ended
    decreases |inputs|
  {
    Seqs.DropFirstOfConcat(inputs, after);
    if |inputs| > 1 {
      assert inputs[1..][|inputs[1..]| - 1] == inputs[|inputs| - 1];
      match inputs[0]
      case Eof =>
        LoopStopsAtShutdown(rt, catalogue, state, inputs[1..], after);
      case Line(text) =>
        if text != "" && rt.loads(text).Some? {
          var s := ProcessMessage(rt, catalogue, rt.loads(text).value, state);
          LoopStopsAtShutdown(rt, catalogue, s.state, inputs[1..], after);
        } else {
          LoopStopsAtShutdown(rt, catalogue, state, inputs[1..], after);
        }
    }
  }
}
