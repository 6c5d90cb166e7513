/**
  * The stdio-to-socket proxy (`src/socket_proxy.py`): one reader copies
  * standard input to the daemon's socket, another frames the socket's
  * bytes into lines and prints them. Both watch the traffic for the MCP
  * handshake and then set the sticky `INITIALIZED` flag, after which end
  * of input, a closed socket and termination signals no longer stop the
  * proxy.
  *
  * Threads are modelled one at a time, each as a function over the
  * successive results of its blocking reads; the flag they share is an
  * input and an output of each.
  */
module SocketProxy {
  import opened Wrappers
  import opened JsonValue
  import Framing
  import JsonRpc

  // ---------------------------------------------------------------------
  // Connecting with back-off
  // ---------------------------------------------------------------------

  /** `connect_to_daemon` tries this many times. */
  const MaxAttempts: nat := 5

  function Pow2(n: nat): (p: nat)
    ensures p >= 1
  {
    if n == 0 then 1 else 2 * Pow2(n - 1)
  }

  /** Which attempt connected, if any, and the seconds slept after each
      failed attempt. */
  datatype Attempts = Attempts(connectedAt: Option<nat>, sleeps: seq<nat>)

  /** Attempts `i` onwards; `succeeds(i)` is whether attempt `i` connects. */
  function ConnectFrom(succeeds: nat -> bool, i: nat): (a: Attempts)
    requires i <= MaxAttempts
    ensures a.connectedAt.Some? ==>
      && i <= a.connectedAt.value < MaxAttempts && succeeds(a.connectedAt.value)
      && (forall j :: i <= j < a.connectedAt.value ==> !succeeds(j))
      && |a.sleeps| == a.connectedAt.value - i
    ensures a.connectedAt.None? ==>
      (forall j :: i <= j < MaxAttempts ==> !succeeds(j)) && |a.sleeps| == MaxAttempts - i
    ensures forall k :: 0 <= k < |a.sleeps| ==> a.sleeps[k] == Pow2(i + k)
    decreases MaxAttempts - i
  {
    if i == MaxAttempts then Attempts(None, [])
    else if succeeds(i) then Attempts(Some(i), [])
    else
      var rest := ConnectFrom(succeeds, i + 1);
      Attempts(rest.connectedAt, [Pow2(i)] + rest.sleeps)
  }

  /** `connect_to_daemon`: the first attempt that connects, after sleeping
      1, 2, 4, ... seconds behind each failure; `None` after five failures. */
  function ConnectToDaemon(succeeds: nat -> bool): (a: Attempts)
    ensures a.connectedAt.Some? ==>
      && a.connectedAt.value < MaxAttempts && succeeds(a.connectedAt.value)
      && (forall j :: 0 <= j < a.connectedAt.value ==> !succeeds(j))
    ensures a.connectedAt.None? <==> forall j :: 0 <= j < MaxAttempts ==> !succeeds(j)
    ensures |a.sleeps| == if a.connectedAt.Some? then a.connectedAt.value else MaxAttempts
    ensures forall k :: 0 <= k < |a.sleeps| ==> a.sleeps[k] == Pow2(k)
  {
    ConnectFrom(succeeds, 0)
  }

  /** Total of a list of sleeps. */
  function Total(s: seq<nat>): nat {
    if |s| == 0 then 0 else Total(s[..|s| - 1]) + s[|s| - 1]
  }

  /** Sleeping `2^k` after failure `k` adds up to `2^n - 1` over `n` failures. */
  lemma {:induction false} GeometricBackoff(s: seq<nat>)
    requires forall k :: 0 <= k < |s| ==> s[k] == Pow2(k)
    ensures Total(s) == Pow2(|s|) - 1
  {
    if |s| > 0 {
      var init := s[..|s| - 1];
      assert forall k :: 0 <= k < |init| ==> init[k] == s[k];
      GeometricBackoff(init);
    }
  }

  /** When the daemon never answers, the proxy gives up after 31 seconds
      of sleeping, having slept once behind every attempt. */
  lemma GiveUpAfter31Seconds(succeeds: nat -> bool)
    requires forall j :: 0 <= j < MaxAttempts ==> !succeeds(j)
    ensures ConnectToDaemon(succeeds).connectedAt == None
    ensures |ConnectToDaemon(succeeds).sleeps| == MaxAttempts
    ensures Total(ConnectToDaemon(succeeds).sleeps) == 31
  {
    GeometricBackoff(ConnectToDaemon(succeeds).sleeps);
  }

  // ---------------------------------------------------------------------
  // Recognising the handshake
  // ---------------------------------------------------------------------

  /** The stdin reader's test: the line decodes and `message.get("method")`
      is `"initialize"`. A non-dict has no `.get`; that error, like a
      decoding error, is swallowed and the line does not count. */
  predicate IsInitializeRequest(rt: Runtime, line: string) {
    match rt.loads(line)
    case Some(JObj(m)) => Get(m, "method", JNull) == JStr("initialize")
    case _ => false
  }

  /** The socket reader's test: a dict holding `jsonrpc` and `result`, and
      `"serverInfo" in response.get("result", {})` under Python's `in` (a
      key of a dict, an element of a list, a substring of a string). An
      operand `in` rejects raises, and the error is swallowed. */
  predicate IsInitializeResponse(rt: Runtime, line: string) {
    match rt.loads(line)
    case Some(JObj(m)) =>
      "jsonrpc" in m && "result" in m && Contains(Get(m, "result", JObj(map[])), "serverInfo") == Ok(true)
    case _ => false
  }

  /** The daemon's reply to `initialize` carries its capabilities as the
      result; the proxy recognises it exactly when those hold `serverInfo`. */
  lemma RecognisesDaemonHandshake(rt: Runtime, id: Json, capabilities: map<string, Json>)
    requires Sound(rt)
    ensures var reply := JsonRpc.ToJson(JsonRpc.Response(id, JsonRpc.Result(JObj(capabilities))));
      IsInitializeResponse(rt, rt.dumps(reply)) <==> "serverInfo" in capabilities
  {
    var reply := JsonRpc.ToJson(JsonRpc.Response(id, JsonRpc.Result(JObj(capabilities))));
    assert rt.loads(rt.dumps(reply)) == Some(reply);
  }

  /** An error reply never counts as the handshake. */
  lemma ErrorReplyNotHandshake(rt: Runtime, id: Json, code: int, message: string)
    requires Sound(rt)
    ensures !IsInitializeResponse(rt, rt.dumps(JsonRpc.ToJson(JsonRpc.Response(id, JsonRpc.Error(code, message)))))
  {
    var reply := JsonRpc.ToJson(JsonRpc.Response(id, JsonRpc.Error(code, message)));
    assert rt.loads(rt.dumps(reply)) == Some(reply);
  }

  /** Some line among `lines` passes `test`. */
  predicate AnyLine(lines: seq<string>, test: string -> bool) {
    exists i :: 0 <= i < |lines| && test(lines[i])
  }

  lemma AnyLineAppend(a: seq<string>, b: seq<string>, test: string -> bool)
    ensures AnyLine(a + b, test) <==> AnyLine(a, test) || AnyLine(b, test)
  {
    if AnyLine(a + b, test) {
      var i :| 0 <= i < |a + b| && test((a + b)[i]);
      if i >= |a| {
        assert b[i - |a|] == (a + b)[i];
      }
    }
    if AnyLine(a, test) {
      var i :| 0 <= i < |a| && test(a[i]);
      assert (a + b)[i] == a[i];
    }
    if AnyLine(b, test) {
      var i :| 0 <= i < |b| && test(b[i]);
      assert (a + b)[|a| + i] == b[i];
    }
  }

  // ---------------------------------------------------------------------
  // stdin -> socket
  // ---------------------------------------------------------------------

  /** The lines sent to the socket, the flag afterwards, and whether the
      reader stopped (end of input before the handshake). */
  datatype Upstream = Upstream(sent: seq<string>, initialized: bool, stopped: bool)

  /** `forward_stdin_to_socket` over successive `readline()` results, `""`
      being end of input. Each line is sent verbatim, newline included,
      whether or not it is JSON. Socket errors are not modelled. */
  function ForwardStdin(rt: Runtime, initialized: bool, inputs: seq<string>): (u: Upstream)
    ensures initialized ==> u.initialized
    ensures u.stopped ==> !u.initialized
    ensures |u.sent| <= |inputs|
    decreases |inputs|
  {
    if |inputs| == 0 then Upstream([], initialized, false)
    else if inputs[0] == "" then
      // end of input: stay alive once initialized, stop otherwise
      if initialized then ForwardStdin(rt, initialized, inputs[1..])
      else Upstream([], initialized, true)
    else
      var now := initialized || IsInitializeRequest(rt, inputs[0]);
      var rest := ForwardStdin(rt, now, inputs[1..]);
      Upstream([inputs[0]] + rest.sent, rest.initialized, rest.stopped)
  }

  /** Unless the reader stopped, every line read is sent, in order, and the
      flag ends up set exactly when it was set already or one of the sent
      lines was an `initialize` request. */
  lemma {:induction false} StdinForwardsEveryLine(rt: Runtime, initialized: bool, inputs: seq<string>)
    requires !ForwardStdin(rt, initialized, inputs).stopped
    ensures ForwardStdin(rt, initialized, inputs).sent == Framing.NonEmpty(inputs)
    ensures ForwardStdin(rt, initialized, inputs).initialized <==>
      initialized || AnyLine(Framing.NonEmpty(inputs), (l: string) => IsInitializeRequest(rt, l))
    decreases |inputs|
  {
    var test := (l: string) => IsInitializeRequest(rt, l);
    if |inputs| > 0 {
      if inputs[0] == "" {
        StdinForwardsEveryLine(rt, initialized, inputs[1..]);
      } else {
        var now := initialized || IsInitializeRequest(rt, inputs[0]);
        StdinForwardsEveryLine(rt, now, inputs[1..]);
        AnyLineAppend([inputs[0]], Framing.NonEmpty(inputs[1..]), test);
        assert AnyLine([inputs[0]], test) <==> IsInitializeRequest(rt, inputs[0]) by {
          assert [inputs[0]][0] == inputs[0];
        }
      }
    }
  }

  /** End of input: ignored once initialized, the end of the reader before. */
  lemma StdinEofRule(rt: Runtime, initialized: bool, rest: seq<string>)
    ensures initialized ==> ForwardStdin(rt, initialized, [""] + rest) == ForwardStdin(rt, initialized, rest)
    ensures !initialized ==> ForwardStdin(rt, initialized, [""] + rest) == Upstream([], false, true)
  {
    assert ([""] + rest)[1..] == rest;
  }

  // ---------------------------------------------------------------------
  // socket -> stdout
  // ---------------------------------------------------------------------

  /** The lines printed, the flag afterwards, the carried partial line, and
      whether the reader stopped (socket closed before the handshake). */
  datatype Downstream = Downstream(printed: seq<string>, initialized: bool, buffer: string, stopped: bool)

  /** The inner `while b'\n' in buffer` loop over the lines framed from one
      read: empty lines are skipped, every other line is printed whether or
      not it decodes, and a handshake reply among them sets the flag. */
  function PrintLines(rt: Runtime, initialized: bool, lines: seq<string>): (r: (seq<string>, bool))
    ensures r.0 == Framing.NonEmpty(lines)
    ensures initialized ==> r.1
    decreases |lines|
  {
    if |lines| == 0 then ([], initialized)
    else if lines[0] == "" then PrintLines(rt, initialized, lines[1..])
    else
      var rest := PrintLines(rt, initialized || IsInitializeResponse(rt, lines[0]), lines[1..]);
      ([lines[0]] + rest.0, rest.1)
  }

  /** The flag after a batch is set exactly when it was set before or a
      printed line was the handshake reply. */
  lemma {:induction false} PrintLinesFlag(rt: Runtime, initialized: bool, lines: seq<string>)
    ensures var r := PrintLines(rt, initialized, lines);
      r.1 <==> initialized || AnyLine(r.0, (l: string) => IsInitializeResponse(rt, l))
    decreases |lines|
  {
    var test := (l: string) => IsInitializeResponse(rt, l);
    if |lines| > 0 {
      if lines[0] == "" {
        PrintLinesFlag(rt, initialized, lines[1..]);
      } else {
        var now := initialized || IsInitializeResponse(rt, lines[0]);
        var rest := PrintLines(rt, now, lines[1..]);
        PrintLinesFlag(rt, now, lines[1..]);
        AnyLineAppend([lines[0]], rest.0, test);
        assert AnyLine([lines[0]], test) <==> IsInitializeResponse(rt, lines[0]) by {
          assert [lines[0]][0] == lines[0];
        }
      }
    }
  }

  /** `forward_socket_to_stdout` over successive `recv` results, `b""` being
      the server closing the socket. After the handshake a close leads to a
      reconnection, or a pause and another read, and in both cases the
      partial line in the buffer is kept. Timeouts, which only repeat the
      read, are not listed. */
  function ForwardSocket(rt: Runtime, initialized: bool, buffer: string, chunks: seq<string>): (d: Downstream)
    ensures initialized ==> d.initialized
    ensures d.stopped ==> !d.initialized
    decreases |chunks|
  {
    if |chunks| == 0 then Downstream([], initialized, buffer, false)
    else if chunks[0] == "" then
      if initialized then ForwardSocket(rt, initialized, buffer, chunks[1..])
      else Downstream([], initialized, buffer, true)
    else
      var f := Framing.Frame(buffer + chunks[0]);
      var now := PrintLines(rt, initialized, f.lines);
      var rest := ForwardSocket(rt, now.1, f.rest, chunks[1..]);
      Downstream(now.0 + rest.printed, rest.initialized, rest.buffer, rest.stopped)
  }

  /** What the reader prints, chunk by chunk, is the framing of the chunks
      one read at a time. */
  lemma {:induction false} ForwardSocketFeeds(rt: Runtime, initialized: bool, buffer: string, chunks: seq<string>)
    requires Framing.IsLine(buffer)
    requires !ForwardSocket(rt, initialized, buffer, chunks).stopped
    ensures ForwardSocket(rt, initialized, buffer, chunks).printed == Framing.NonEmpty(Framing.FeedLines(buffer, chunks))
    decreases |chunks|
  {
    if |chunks| > 0 {
      var f := Framing.Frame(buffer + chunks[0]);
      Framing.FrameSplits(buffer + chunks[0]);
      if chunks[0] == "" {
        assert buffer + chunks[0] == Framing.Join([]) + buffer;
        Framing.FrameCharacterised(buffer + chunks[0], [], buffer);
        ForwardSocketFeeds(rt, initialized, buffer, chunks[1..]);
        assert Framing.FeedLines(buffer, chunks) == Framing.FeedLines(buffer, chunks[1..]) by {
          assert [] + Framing.FeedLines(buffer, chunks[1..]) == Framing.FeedLines(buffer, chunks[1..]);
        }
      } else {
        var now := PrintLines(rt, initialized, f.lines);
        ForwardSocketFeeds(rt, now.1, f.rest, chunks[1..]);
        Framing.NonEmptyAppend(f.lines, Framing.FeedLines(f.rest, chunks[1..]));
      }
    }
  }

  /** Unless the reader stopped, it prints exactly the non-empty lines of
      everything received, framed as one stream, in order, and whether or
      not they are JSON: neither how the daemon's bytes arrive nor a
      reconnection after the handshake changes what is printed. */
  lemma ForwardSocketPrintsStream(rt: Runtime, initialized: bool, buffer: string, chunks: seq<string>)
    requires Framing.IsLine(buffer)
    requires !ForwardSocket(rt, initialized, buffer, chunks).stopped
    ensures ForwardSocket(rt, initialized, buffer, chunks).printed ==
      Framing.NonEmpty(Framing.Frame(buffer + Framing.Concat(chunks)).lines)
  {
    ForwardSocketFeeds(rt, initialized, buffer, chunks);
    Framing.FeedLinesWhole(buffer, chunks);
  }

  /** The socket reader sets the flag exactly when it was set or a printed
      line was the handshake reply. */
  lemma {:induction false} ForwardSocketFlag(rt: Runtime, initialized: bool, buffer: string, chunks: seq<string>)
    ensures var d := ForwardSocket(rt, initialized, buffer, chunks);
      d.initialized <==> initialized || AnyLine(d.printed, (l: string) => IsInitializeResponse(rt, l))
    decreases |chunks|
  {
    var test := (l: string) => IsInitializeResponse(rt, l);
    if |chunks| > 0 {
      if chunks[0] == "" {
        ForwardSocketFlag(rt, initialized, buffer, chunks[1..]);
      } else {
        var f := Framing.Frame(buffer + chunks[0]);
        var now := PrintLines(rt, initialized, f.lines);
        var rest := ForwardSocket(rt, now.1, f.rest, chunks[1..]);
        PrintLinesFlag(rt, initialized, f.lines);
        ForwardSocketFlag(rt, now.1, f.rest, chunks[1..]);
        AnyLineAppend(now.0, rest.printed, test);
      }
    }
  }

  // ---------------------------------------------------------------------
  // Signals and shutdown
  // ---------------------------------------------------------------------

  /** `signal_handler`: the exit flag after a SIGTERM or SIGINT. */
  function OnSignal(initialized: bool, exitFlag: bool): (exit: bool)
    ensures initialized ==> exit == exitFlag
    ensures !initialized ==> exit
  {
    if initialized then exitFlag else true
  }

  /** Once an `initialize` request has gone upstream, a termination signal
      changes nothing, however the rest of the input goes. */
  lemma SignalIgnoredAfterInitializeRequest(rt: Runtime, initialized: bool, inputs: seq<string>, i: nat, exitFlag: bool)
    requires i < |inputs| && inputs[i] != "" && IsInitializeRequest(rt, inputs[i])
    requires !ForwardStdin(rt, initialized, inputs).stopped
    ensures OnSignal(ForwardStdin(rt, initialized, inputs).initialized, exitFlag) == exitFlag
  {
    StdinForwardsEveryLine(rt, initialized, inputs);
    NonEmptyKeeps(inputs, i);
  }

  /** A non-empty line is among the non-empty lines. */
  lemma {:induction false} NonEmptyKeeps(lines: seq<string>, i: nat)
    requires i < |lines| && lines[i] != ""
    ensures lines[i] in Framing.NonEmpty(lines)
  {
    if i > 0 {
      NonEmptyKeeps(lines[1..], i - 1);
      assert lines[1..][i - 1] == lines[i];
    }
  }

  /** How `main` ends: the exit code it returns (`None` when it stays in
      its reconnection loop for ever) and whether it removes its PID file. */
  datatype Exit = Exit(code: Option<int>, pidRemoved: bool)

  /** `main` given whether the daemon could be started, whether the first
      connection succeeded, and the flag when the forwarding ends. Failing
      early returns 1 before any handshake; the PID file is removed only
      when not initialized. */
  function MainExit(daemonStarted: bool, connected: bool, initialized: bool): (e: Exit)
    ensures e.code == Some(1) <==> !daemonStarted || !connected
    ensures e.code.None? <==> daemonStarted && connected && initialized
    ensures e.pidRemoved <==> e.code.Some?
  {
    if !daemonStarted || !connected then Exit(Some(1), true)
    else if initialized then Exit(None, false)
    else Exit(Some(0), true)
  }
}
