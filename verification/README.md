# A verified model of the Rhino MCP bridge drafts

The repository holds several Python drafts of one bridge between an AI
assistant and the Rhino modelling host, plus log and diagnostic tools:

- Three stdio JSON-RPC endpoints:
  - `standalone-mcp-server.py`
  - `src/standalone-mcp-server.py`
  - the socket daemon `src/daemon_mcp_server.py`
- The stdio-to-daemon proxy `src/socket_proxy.py`.
- The FastMCP server with its `RhinoConnection` in `combined_mcp_server.py`.
- The connection diagnostic `diagnose_rhino_connection.py`.
- The in-Rhino server `rhinomcp_server.py`.
- The log tool `log_manager.py`.
- The JSON-line filter `logs/json_filter.py`.

This project models the deterministic core of each of them as pure Dafny
functions, and proves what each draft promises. Each draft has one module:

| module | draft |
|---|---|
| `Standalone` | `standalone-mcp-server.py` |
| `SrcStandalone` | `src/standalone-mcp-server.py` |
| `Daemon` | `src/daemon_mcp_server.py` |
| `SocketProxy` | `src/socket_proxy.py` |
| `Combined` | `combined_mcp_server.py` |
| `Diagnose` | `diagnose_rhino_connection.py` |
| `RhinoMcp` | `rhinomcp_server.py` |
| `LogManager` | `log_manager.py` |
| `JsonFilter` | `logs/json_filter.py` |

Shared modules:

| module | what it holds |
|---|---|
| `JsonValue` | The JSON value type, and the `Runtime` of `json.loads`, `json.dumps` and `str` on values. It also holds the Python lookups `d[k]`, `in` and `.get`, and the faults they raise. |
| `JsonRpc` | Response dicts, `request.get("id", 0)` and `request.get("method", "")`, and the error codes -32601 and -32603 of section 5.1 of the JSON-RPC 2.0 Specification. |
| `Catalogue` | The six-tool capabilities literal that the three stdio drafts share. |
| `Framing` | The `buffer.split(b'\n', 1)` line framing of the daemon and the proxy. |
| `Text` | Python's `str.strip`, `int(s, base)`, `str(n)`, `split`, `replace`, ASCII case mapping and the POSIX `os.path.basename`. |
| `Seqs` | Sequence lemmas. |
| `Wrappers` | `Option` and `Result`. |

Several inputs are parameters of the model rather than part of it:

- JSON text:
  - `Runtime.loads`, `dumps`, `str` and `decodeError` are function values.
  - Only lemmas that need it assume the runtime is `Sound`. That means `loads(dumps(v)) == Some(v)`, `dumps` writes no newline, and `str` of a string is the string.
- Each read of stdin or of a socket is one element of an input sequence:
  - `readline()` and `input()` results;
  - `recv()` and `sendall()` results, including the 10-second timeout, connection errors and other socket errors.
- The host's reply is an abstract text (`relay`).
- The clock and `datetime` conversions are the fields of `LogManager.Clock`.
- The file system is listings and read results.
- `rhinoscriptsyntax` calls are their results.

Where the drafts disagree, each module follows its own draft:

- Request ids:
  - The first stdio draft answers `initialize` and every internal fault with id 0.
  - The other drafts mirror `request.get("id", 0)`.
- A line that is not JSON:
  - The first stdio draft answers -32603.
  - The second draft and the daemon send nothing.
- A missing or unknown `method`:
  - Every draft treats a missing method as the unknown method `""`.
  - The first stdio draft and the daemon answer -32601. None of them answers -32603.
  - The second draft only logs it and sends nothing (src/standalone-mcp-server.py:200-202).
- Connections: `combined_mcp_server.py` keeps one socket open across calls and numbers its commands. It does not open a connection per call.

## Model

| member | source | states |
|---|---|---|
| Catalogue.ToolsToJson | standalone-mcp-server.py:116-172 | one schema entry per tool, in catalogue order |
| Catalogue.CapabilitiesListsTools | standalone-mcp-server.py:110-175 | the initialize result names the server and lists exactly the catalogue's tools under `capabilities.tools` |
| Catalogue.CapabilitiesAnnounceSixTools | src/daemon_mcp_server.py:46-111 | the shared capabilities literal names the server and lists six tools with distinct, namespaced names, required parameters first |
| Catalogue.ToolNamesDistinct | src/daemon_mcp_server.py:46-111 | the catalogue holds six tools with pairwise distinct names |
| Catalogue.ToolNamesNamespaced | standalone-mcp-server.py:118-166 | every tool name is `geometry_tools.<op>` or `scene_tools.<op>` with a non-empty op |
| Catalogue.ToolsRequiredFirst | standalone-mcp-server.py:120-171 | in every tool, the required parameters come before the optional ones |
| JsonRpc.ToJson | standalone-mcp-server.py:249-268 | a response dict has `jsonrpc: "2.0"` and the given id, and holds exactly one of `result` and `error` |
| JsonRpc.FromToJson | standalone-mcp-server.py:249-268 | reading a response dict back gives the response; this is the partner of `ToJson` |
| JsonRpc.InternalErrorResponse | standalone-mcp-server.py:259-268 | a fault becomes code -32603 with the given id |
| JsonRpc.ToolArguments | standalone-mcp-server.py:182-183 | `params.name` and `params.parameters` are read exactly when both exist; a missing `params` raises `KeyError('params')` |
| Standalone.CommandType | standalone-mcp-server.py:188-193 | the command type is no longer than the tool name, and is `""` for a name in neither namespace |
| Standalone.CommandTypeOfNamespaced | standalone-mcp-server.py:188-193 | a namespace followed by a rest that does not repeat it yields exactly the rest |
| Standalone.CommandTypeRemovesRepeats | standalone-mcp-server.py:188-193 | `str.replace` removes every occurrence, so a doubled namespace also yields only the rest |
| Standalone.ToolCommand | standalone-mcp-server.py:180-199 | a command is built iff `params`, its string `name` and its `parameters` exist; it is exactly `{"Type", "Params"}` with the parameters unchanged; a missing `params` is `KeyError` |
| Standalone.ReplyObject | standalone-mcp-server.py:204-208 | the decoded host reply, or `{"result": raw text}` when the reply is not JSON |
| Standalone.Process | standalone-mcp-server.py:237-268 | undecodable text gives -32603 with id 0; the exit flag is set iff the message is a `shutdown` dict; every error is -32603 or -32601, and -32603 always carries id 0 |
| Standalone.InitializeAnswersIdZero | standalone-mcp-server.py:102-178 | `initialize` answers with id 0 whatever the request's id, with the catalogue, and does not exit |
| Standalone.InitializeAnnouncesSixTools | standalone-mcp-server.py:102-178 | with the draft's own capabilities, `initialize` announces the six catalogue tools under id 0 |
| Standalone.ToolCallRelaysCommand | standalone-mcp-server.py:195-217 | a well-formed tool call relays exactly the command dict and answers with the mirrored id and the reply under `result.result` |
| Standalone.ToolCallReturnsReplyValue | standalone-mcp-server.py:204-206 | a host reply that is the text of a value is handed back as that value |
| Standalone.ToolCallWithoutParams | standalone-mcp-server.py:180-184 | a tool call without `params` is -32603 `Internal error: 'params'` with id 0, even when the request had an id |
| Standalone.UnknownMethodMirrorsId | standalone-mcp-server.py:249-258 | any other method, including a missing one and `notifications/cancelled`, is -32601 with the id mirrored, and does not exit |
| Standalone.ShutdownMirrorsId | standalone-mcp-server.py:221-235 | `shutdown` mirrors the id, answers `{"success": true}` and sets the exit flag |
| Standalone.SendJsonResponse | standalone-mcp-server.py:40-56 | a text is written iff it decodes and is followed by one newline; a dict is dumped and followed by one newline |
| Standalone.SendJsonResponseOneLine | standalone-mcp-server.py:48-51 | a written dict is one line ending in a single newline, and reads back as the dict |
| Standalone.Receive | standalone-mcp-server.py:58-72 | end of input and blank lines give no message; any other line gives its non-empty stripped text |
| Standalone.Replies | standalone-mcp-server.py:286-290 | one reply per message, in order |
| Standalone.Handled | standalone-mcp-server.py:270-296 | the loop handles at most one message per line read |
| Standalone.Run | standalone-mcp-server.py:270-296 | the loop writes at most one line per line read |
| Standalone.Messages | standalone-mcp-server.py:58-72 | the messages the lines carry are non-empty, at most one per line |
| Standalone.HandledAllMessages | standalone-mcp-server.py:274-290 | until a shutdown, every message is handled, in order |
| Standalone.RunRepliesToEachMessage | standalone-mcp-server.py:274-290 | until a shutdown, the output is exactly one reply per non-blank line, in order; end of input and blanks write nothing |
| Standalone.HandledStopsAtShutdown | standalone-mcp-server.py:221-227 | nothing after the `shutdown` message is read |
| Standalone.RunStopsAfterShutdown | standalone-mcp-server.py:270-296 | nothing after the reply to `shutdown` is written |
| SrcStandalone.ProcessMessage | src/standalone-mcp-server.py:179-206 | returns stop iff the message is a `shutdown` dict; every response mirrors the id and is a result; the state becomes initialized iff it was already or the message is `initialize` |
| SrcStandalone.AnsweredMethods | src/standalone-mcp-server.py:179-206 | exactly `initialize`, `shutdown` and a well-formed `tools/call` are answered; `notifications/cancelled` sends nothing and changes nothing |
| SrcStandalone.ToolCallNamesTool | src/standalone-mcp-server.py:143-161 | a tool call answers `{success: true, message}` with the mirrored id, and the message starts with `Executed <tool>` |
| SrcStandalone.SignalExits | src/standalone-mcp-server.py:217-230 | only SIGTERM can be ignored, and every signal stops a server that has not been initialized |
| SrcStandalone.InitializeAnnouncesSixTools | src/standalone-mcp-server.py:179-186 | with the draft's own capabilities, `initialize` mirrors the id, announces the six catalogue tools and marks the server initialized |
| SrcStandalone.SigTermIgnoredAfterInitialize | src/standalone-mcp-server.py:136-138 | after `initialize`, SIGTERM no longer stops the server, while SIGINT does |
| SrcStandalone.Loop | src/standalone-mcp-server.py:249-279 | an initialized server stays initialized, and at most one line is written per input |
| SrcStandalone.EofStaysAliveIffInitialized | src/standalone-mcp-server.py:266-275 | end of input is skipped by an initialized server and ends a waiting one |
| SrcStandalone.UnreadableLineSkipped | src/standalone-mcp-server.py:253-265 | a blank line or a line that is not JSON writes nothing and changes nothing |
| SrcStandalone.LoopStopsAtShutdown | src/standalone-mcp-server.py:192-195 | the loop ends at a `shutdown` request and reads nothing after it |
| Framing.FrameSplits | src/daemon_mcp_server.py:136-143 | the lines and the remainder hold no newline; the lines with their newlines, then the remainder, give the buffer back |
| Framing.PrependLine | src/daemon_mcp_server.py:136-143 | one framing step: a line, its newline and a framed tail make a framed whole |
| Framing.JoinAppend | src/daemon_mcp_server.py:136-143 | writing lines back distributes over concatenation |
| Framing.FirstNewline | src/daemon_mcp_server.py:136-143 | the first newline of `line + "\n" + tail` sits right after the line |
| Framing.NewlineAfterFirst | src/daemon_mcp_server.py:136-143 | in written-back lines, the first line is followed by a newline |
| Framing.DecompositionUnique | src/daemon_mcp_server.py:136-143 | newline-free lines and remainder are determined by their written-back text |
| Framing.Reassemble | src/socket_proxy.py:207-212 | two framed pieces, the second continuing the first's remainder, frame the whole |
| Framing.FrameCharacterised | src/daemon_mcp_server.py:136-143 | the framing is the only split of the buffer into newline-free lines and a newline-free remainder |
| Framing.FrameIncremental | src/socket_proxy.py:207-212 | receiving `a` then `b` yields the same lines and remainder as receiving `a + b` at once |
| Framing.NonEmpty | src/daemon_mcp_server.py:139-143 | the lines acted on are non-empty, at most one per framed line |
| Framing.NonEmptyAppend | src/daemon_mcp_server.py:139-143 | skipping empty lines distributes over concatenation |
| Framing.FeedNothing | src/daemon_mcp_server.py:136-143 | with no chunk received, no line is completed |
| Framing.FeedLinesWhole | src/daemon_mcp_server.py:124-143 | feeding chunk by chunk completes exactly the lines of the whole stream framed at once |
| Daemon.ProcessMessage | src/daemon_mcp_server.py:156-198 | undecodable text sends nothing; `initialize` and `shutdown` are recognised exactly; an answer to a dict mirrors its id; a decoded non-dict gets -32603 with id 0 |
| Daemon.UnknownMethodNamed | src/daemon_mcp_server.py:171-182 | an unknown method gets -32601 `Method '<m>' not found` with the id mirrored |
| Daemon.CancelledUnanswered | src/daemon_mcp_server.py:169-170 | `notifications/cancelled` gets no response and changes no state |
| Daemon.ToolFaultMirrorsId | src/daemon_mcp_server.py:183-196 | a malformed tool call is -32603 with the id mirrored |
| Daemon.SendResponseFramesBack | src/daemon_mcp_server.py:257-264 | a client framing the output reads exactly one line holding the response dict, with nothing left over |
| Daemon.Apply | src/daemon_mcp_server.py:156-168 | one line is processed; a closed connection stays closed; the buffer is untouched |
| Daemon.ProcessLines | src/daemon_mcp_server.py:139-143 | every non-empty complete line is processed, in order, even after a `shutdown` among them; initialized stays initialized |
| Daemon.Serve | src/daemon_mcp_server.py:117-154 | a connection is never reopened, and the server state is never reset |
| Daemon.ServeProcessesStream | src/daemon_mcp_server.py:124-143 | while the client stays connected, the lines processed are the non-empty lines of the whole stream, however `recv` splits it |
| Daemon.ServeFeeds | src/daemon_mcp_server.py:124-143 | the lines processed are those completed chunk by chunk |
| Daemon.ShutdownClosesOnlyThisConnection | src/daemon_mcp_server.py:242-255 | `shutdown` answers `{"success": true}` and closes only this connection; the server state is unchanged |
| Daemon.InitializeSetsBothStates | src/daemon_mcp_server.py:200-221 | `initialize` mirrors the id, answers with the catalogue and marks both the server and the connection initialized |
| Daemon.InitializeAnnouncesSixTools | src/daemon_mcp_server.py:200-221 | with the daemon's own capabilities, `initialize` sends one framed line that decodes to the six-tool announcement with the id mirrored |
| Daemon.ClosedConnectionIdle | src/daemon_mcp_server.py:125 | a closed connection reads and writes nothing more |
| Daemon.OnSignal | src/daemon_mcp_server.py:277-289 | a signal always sets the exit flag, after a delay exactly when the server is initialized |
| SocketProxy.Pow2 | src/socket_proxy.py:99 | the back-off factor is positive |
| SocketProxy.ConnectFrom | src/socket_proxy.py:89-102 | the first succeeding attempt from `i` is taken, after one sleep of `2^k` per earlier failure |
| SocketProxy.ConnectToDaemon | src/socket_proxy.py:89-102 | connects at the first succeeding of five attempts, sleeping 1, 2, 4, ... after each failure; `None` iff all five fail |
| SocketProxy.GeometricBackoff | src/socket_proxy.py:91-99 | sleeping `2^k` after failure `k` adds up to `2^n - 1` |
| SocketProxy.GiveUpAfter31Seconds | src/socket_proxy.py:89-102 | when nothing answers, the proxy gives up after five attempts and 31 seconds of sleeping |
| SocketProxy.RecognisesDaemonHandshake | src/socket_proxy.py:217-222 | the daemon's initialize reply counts as the handshake iff its result holds `serverInfo` |
| SocketProxy.ErrorReplyNotHandshake | src/socket_proxy.py:219-220 | an error reply never counts as the handshake |
| SocketProxy.ForwardStdin | src/socket_proxy.py:104-170 | the flag is never reset; the reader stops only while uninitialized; at most one line is sent per read |
| SocketProxy.StdinForwardsEveryLine | src/socket_proxy.py:110-135 | every line read is sent verbatim, in order; the flag is set iff it was set or a sent line is an `initialize` request |
| SocketProxy.StdinEofRule | src/socket_proxy.py:113-122 | end of input is skipped once initialized and stops the reader before |
| SocketProxy.PrintLines | src/socket_proxy.py:210-227 | every non-empty framed line is printed, JSON or not; the flag is never reset |
| SocketProxy.PrintLinesFlag | src/socket_proxy.py:216-224 | after a batch, the flag is set iff it was set or a printed line is the handshake reply |
| SocketProxy.ForwardSocket | src/socket_proxy.py:172-253 | the flag is never reset, and the reader stops only while uninitialized |
| SocketProxy.ForwardSocketFeeds | src/socket_proxy.py:177-212 | the lines printed are those completed chunk by chunk |
| SocketProxy.ForwardSocketPrintsStream | src/socket_proxy.py:177-227 | the reader prints exactly the non-empty lines of the whole stream, in order, however the bytes arrive and across reconnections |
| SocketProxy.ForwardSocketFlag | src/socket_proxy.py:216-224 | the socket reader's flag is set iff it was set or a printed line is the handshake reply |
| SocketProxy.OnSignal | src/socket_proxy.py:269-282 | once initialized a termination signal changes nothing; before, it sets the exit flag |
| SocketProxy.SignalIgnoredAfterInitializeRequest | src/socket_proxy.py:125-129 | once an `initialize` request has gone upstream, a signal changes nothing |
| SocketProxy.MainExit | src/socket_proxy.py:352-366 | `main` returns 1 iff the daemon or the first connection failed, never returns while initialized, and removes the PID file exactly when it returns |
| Combined.Connect | combined_mcp_server.py:99-113 | an existing socket is kept without a new attempt; otherwise the attempt decides; the id counter is untouched |
| Combined.Disconnect | combined_mcp_server.py:115-123 | the socket is always dropped; the id counter is untouched |
| Combined.Command | combined_mcp_server.py:134-138 | the envelope is `{"id", "type", "params"}`, with falsy params replaced by `{}` |
| Combined.Receive | combined_mcp_server.py:154-170 | received data extends what was held, and stops as parsed only when it decodes |
| Combined.ReceiveStopsAtFirstParse | combined_mcp_server.py:157-170 | receiving stops at the first accumulated prefix that decodes, and reads nothing after it |
| Combined.Classify | combined_mcp_server.py:180-201 | a reply succeeds only as a dict without `error`, and then gives its `result` or, without one, the whole reply |
| Combined.ErrorKeyWins | combined_mcp_server.py:183-186 | an `error` key makes the reply a failure whatever else it holds |
| Combined.StatusErrorCarriesMessage | combined_mcp_server.py:188-191 | without `error`, `status: "error"` fails with the reply's `message`, or a default text |
| Combined.SuccessIff | combined_mcp_server.py:183-201 | a dict reply succeeds iff it has no `error` key and its status is not `"error"` |
| Combined.Interpret | combined_mcp_server.py:157-221 | a timeout, a lost connection and any other socket error are failures with their own texts (`Timeout waiting`, `Connection to Rhino lost`, `Communication error with Rhino`); no data is `Connection to Rhino lost` wrapping `No data received`; undecodable data is `Invalid JSON response`; a decoded reply succeeds iff it passes the checks, and otherwise fails as `Communication error with Rhino`; every failure starts with the request tag |
| Combined.SendCommand | combined_mcp_server.py:125-221 | a command is sent iff a socket exists or can be opened; it carries the next id; the socket is kept iff the call succeeds; a `sendall` timeout, connection error or other socket error gets the text of the handler that catches it; a failure after sending is tagged `Request #<id>: ` |
| Combined.SendCommandRejectsBadReplies | combined_mcp_server.py:157-221 | once sent, an empty, undecodable or `error`-keyed reply fails the call and drops the socket |
| Combined.SendCommandReturnsResult | combined_mcp_server.py:196-201 | a reply that decodes at once and passes the checks is returned, and the socket is kept |
| Combined.SendAll | combined_mcp_server.py:130-132 | the ids sent on one connection are consecutive after the counter, one per sent command |
| Combined.FreshIdsFromOne | combined_mcp_server.py:97-132 | a fresh connection numbers its commands 1, 2, 3, ..., failures included |
| Combined.WrapperFor | combined_mcp_server.py:305-595 | each wrapper sends the command of its own name |
| Combined.OnlySphereUntagged | combined_mcp_server.py:413-420 | every wrapper's error envelope carries `toolId` except `create_sphere`'s |
| Combined.Fields | combined_mcp_server.py:335-340 | the keyword dict has exactly the listed keys |
| Combined.FieldsHold | combined_mcp_server.py:335-340 | a key not repeated later holds its own value |
| Combined.ToolParams | combined_mcp_server.py:335-345 | `color` is sent only when given and non-empty; the other keys are the wrapper's own |
| Combined.ErrorEnvelope | combined_mcp_server.py:352-358 | a failure is `{"success": false, "error": prefix + text}`, with `toolId` iff the wrapper tags it |
| Combined.ToolReplyReadsBack | combined_mcp_server.py:350-358 | what a wrapper returns reads back as the host result, or as a failure envelope with `toolId` for every tool but `create_sphere` |
| Diagnose.Envelope | diagnose_rhino_connection.py:46-50 | the envelope is `{"id": "diag_<secs>", "type", "params"}`, with falsy params replaced by `{}` |
| Diagnose.DiagIdEncodesSeconds | diagnose_rhino_connection.py:47 | the id reads back as the clock's seconds after `diag_` |
| Diagnose.Judge | diagnose_rhino_connection.py:82-115 | every judgement is a dict with a boolean `success` |
| Diagnose.JudgeAgreesWithServer | diagnose_rhino_connection.py:88-108 | the diagnostic succeeds on a dict reply exactly when `combined_mcp_server.py` would, with the same result; an `error` key gives `{success: false, error}` |
| Diagnose.SendCommand | diagnose_rhino_connection.py:37-125 | a command is sent iff the connection is accepted; a refused connection, a `sendall` error, a timeout, a lost connection or another socket error is a `Communication error`; undecodable data is `Error parsing response`; a decoded reply is judged; success only comes from a decoded reply that passes the checks |
| Diagnose.TruncatedReplyIsParseError | diagnose_rhino_connection.py:64-115 | a reply that ends before it decodes is a parse error, not a communication error |
| Diagnose.PlainResultSucceeds | diagnose_rhino_connection.py:104-108 | a reply `{"result": v}` gives `{success: true, result: v}` |
| Diagnose.Diagnose | diagnose_rhino_connection.py:127-221 | the exit code is 0 iff the diagnostic passes, and it passes iff the port is open and both commands succeed; a closed port sends nothing |
| Diagnose.PassesOnPlainResults | diagnose_rhino_connection.py:156-221 | with both commands answered by plain results, the diagnostic sends both envelopes and exits 0 |
| RhinoMcp.HexDigit | rhinomcp_server.py:110 | the digit written for `d` is lower-case hex and reads back as `d` |
| RhinoMcp.HexPair | rhinomcp_server.py:110 | a channel is written as two lower-case hex digits that spell it |
| RhinoMcp.FormatColour | rhinomcp_server.py:110 | a colour is `#` and six lower-case hex digits |
| RhinoMcp.Slice | rhinomcp_server.py:169 | Python slicing is clipped to the requested width |
| RhinoMcp.StripShort | rhinomcp_server.py:169 | stripping a piece never lengthens it |
| RhinoMcp.StripShortIsStrip | rhinomcp_server.py:169 | the short strip agrees with `str.strip` on every piece of at most two characters |
| RhinoMcp.StripOne | rhinomcp_server.py:169 | `str.strip` of one character |
| RhinoMcp.StripTwo | rhinomcp_server.py:169 | `str.strip` of two characters |
| RhinoMcp.ShortHex | rhinomcp_server.py:169 | `int(piece, 16)` of a two-character piece lies strictly between -16 and 256 |
| RhinoMcp.ShortDigits | rhinomcp_server.py:169 | the same bound for a stripped piece |
| RhinoMcp.ParseColour | rhinomcp_server.py:165-172 | a colour parses only when at least five characters follow the leading `#`s |
| RhinoMcp.ParseColourFields | rhinomcp_server.py:168-169 | the colour is the three fields read at offsets 0, 2 and 4 after every leading `#` is dropped |
| RhinoMcp.ParseIntOne | rhinomcp_server.py:169 | `int(q, 16)` of one character is its digit value, or an error |
| RhinoMcp.ParseIntSigned | rhinomcp_server.py:169 | `int(q, 16)` of a sign and a digit is the signed digit value, or an error |
| RhinoMcp.ParseIntTwo | rhinomcp_server.py:169 | `int(q, 16)` of two unsigned characters is the two-digit value, or an error |
| RhinoMcp.ShortHexIsInt | rhinomcp_server.py:169 | the short reading agrees with `int(piece, 16)` on every piece of at most two characters |
| RhinoMcp.ShortDigitsAreInt | rhinomcp_server.py:169 | the short reading agrees with `int(q, 16)` once whitespace is stripped |
| RhinoMcp.PairAt | rhinomcp_server.py:169 | two hex digits at an offset read back as their value |
| RhinoMcp.StripOneHash | rhinomcp_server.py:168 | a single leading `#` is dropped |
| RhinoMcp.ParseSixDigits | rhinomcp_server.py:168-169 | `#` and six hex digits parse to the channels the pairs spell, whatever follows |
| RhinoMcp.FormatColourChars | rhinomcp_server.py:110 | the formatted colour's seven characters are `#` and the three pairs |
| RhinoMcp.ParseFormatColour | rhinomcp_server.py:168-169 | parsing a formatted colour gives the same channels back, whatever follows it |
| RhinoMcp.LowerHexDigit | rhinomcp_server.py:110 | a hex digit is written back as its lower-case form |
| RhinoMcp.HexPairLower | rhinomcp_server.py:110 | two hex digits spell a channel that is written back as the same digits in lower case |
| RhinoMcp.FormatLowered | rhinomcp_server.py:110 | six hex digits spell channels in range that are formatted back in lower case |
| RhinoMcp.ColourReportedInLowerCase | rhinomcp_server.py:165-172 | a requested `#RRGGBB` parses, is in range, and is reported back in lower case |
| RhinoMcp.ObjectProperties | rhinomcp_server.py:102-144 | the id is always kept; a failed read gives type and layer `unknown`; the colour is present iff Rhino reports one, and it is `#` and six digits that parse back to the object's channels |
| RhinoMcp.AllObjects | rhinomcp_server.py:146-157 | one entry per document object, in order, with that object's properties; none when listing fails |
| RhinoMcp.SceneInfo | rhinomcp_server.py:193-213 | a scene is reported iff the view and the layers can be read; its count is the number of listed objects |
| RhinoMcp.SceneListsEveryObject | rhinomcp_server.py:199-208 | the count is the number of document objects, and each entry has its object's id |
| RhinoMcp.AppliedColour | rhinomcp_server.py:165-172 | a colour is applied only when one was requested |
| RhinoMcp.CreateSphere | rhinomcp_server.py:159-178 | the sphere is reported iff Rhino added it, under its own id |
| RhinoMcp.ColourFailureOnlyWarns | rhinomcp_server.py:171-172 | a colour that does not parse changes nothing but the log |
| RhinoMcp.SphereReportsRequestedColour | rhinomcp_server.py:165-174 | a sphere asked for in `#RRGGBB` reports that colour in lower case |
| RhinoMcp.RequestUserConsent | rhinomcp_server.py:262-286 | only a Yes approves; a refusal or a dialog error carries a reason |
| RhinoMcp.CreateSphereTool | rhinomcp_server.py:218-260 | `AddSphere` is called iff the parameters are valid and the answer is Yes; the result is DENIED iff the parameters are valid and the answer is not Yes; it is SUCCESS iff Rhino also added the sphere |
| RhinoMcp.NoSphereWithoutConsent | rhinomcp_server.py:229-239 | without a Yes the dialog is shown, nothing is added, and the result is the fixed DENIED result |
| LogManager.LayoutNested | log_manager.py:27 | the layout read from the right |
| LogManager.Cut | log_manager.py:27 | the two sides of a cut put back together give the text |
| LogManager.Match | log_manager.py:27 | a matched line is the layout of its groups, possibly with one final newline; no group holds a newline |
| LogManager.Body | log_manager.py:27 | the line without at most one final newline |
| LogManager.Fields | log_manager.py:27 | the fields cut out put back with their separators give the text |
| LogManager.LayoutFree | log_manager.py:27 | a layout without a newline has groups without one |
| LogManager.CutAt | log_manager.py:27 | a separator starting with `]` is found where it first occurs when no `]` comes before |
| LogManager.MatchLayout | log_manager.py:27 | a layout whose first three fields hold no `]` and no newline is matched, and the groups come back |
| LogManager.FieldsOf | log_manager.py:27 | the fields are cut back out of their layout |
| LogManager.LayoutShape | log_manager.py:27 | a layout is one line starting with `[` |
| LogManager.ReadTimestamp | log_manager.py:44-51 | the time is read with milliseconds, then without, then is the current time |
| LogManager.FromLine | log_manager.py:39-60 | a line gives an entry iff it matches; the level is upper-cased; the other groups are kept |
| LogManager.SourceInfo | log_manager.py:94-101 | ` (<basename>)` exactly when the source is shown |
| LogManager.ToString | log_manager.py:66-102 | without colours the text is the layout the pattern reads, plus the source; with colours an error line is coloured as a whole |
| LogManager.FromLineOfToString | log_manager.py:40-102 | formatting without colours and then parsing gives the entry back, level upper-cased, when no field holds `]` or a newline |
| LogManager.AtTime | log_manager.py:62-64 | the entries with one timestamp form a subsequence |
| LogManager.Insert | log_manager.py:62-64 | inserting adds exactly the one entry |
| LogManager.Sort | log_manager.py:185 | sorting permutes the entries |
| LogManager.InsertSorted | log_manager.py:62-64 | inserting into a sorted list keeps it sorted |
| LogManager.InsertNotAfter | log_manager.py:62-64 | inserting keeps a bound on the timestamps |
| LogManager.AtTimeInsert | log_manager.py:62-64 | an inserted entry goes behind the entries of the same time |
| LogManager.SortSorted | log_manager.py:185 | sorted by timestamp, non-decreasing |
| LogManager.SortStable | log_manager.py:185 | stable: entries of the same time keep their input order |
| LogManager.SortFacts | log_manager.py:185 | sorted, stable, and made of the input's entries |
| LogManager.LineEntry | log_manager.py:134-149 | a kept line passes the filters and names its file |
| LogManager.FileEntries | log_manager.py:131-151 | at most one entry per line |
| LogManager.FileEntriesAdmitted | log_manager.py:131-151 | every entry of a file passes the filters and names the file |
| LogManager.LineEntryOf | log_manager.py:134-149 | a stripped line that parses to an admitted entry gives it |
| LogManager.FileEntriesHas | log_manager.py:131-151 | a line's entry is among the file's entries |
| LogManager.FileEntriesComplete | log_manager.py:131-151 | every line that parses and passes the filters gives its entry |
| LogManager.StandardEntries | log_manager.py:131-151 | at most one error message per file |
| LogManager.StandardAdmitted | log_manager.py:141-149 | no standard entry is older than `since` or outside the level and component filters |
| LogManager.Preview | log_manager.py:165-167 | a short file is shown whole; a long one is its first 500 characters and `...` |
| LogManager.ClaudeEntry | log_manager.py:154-182 | a Claude log gives an INFO/claude preview iff it is readable, recent, and the component filter allows `claude` |
| LogManager.ClaudeEntries | log_manager.py:154-182 | at most one preview per file |
| LogManager.ClaudeAdmitted | log_manager.py:154-182 | every preview is INFO/claude, recent, and allowed by the component filter |
| LogManager.CollectLogs | log_manager.py:104-186 | the result is sorted and stable, a permutation of the standard entries followed by the previews; every entry is recent and of a selected component; only previews skip the level filter |
| LogManager.StandardLineCollected | log_manager.py:131-151 | a standard line that parses and passes the filters is collected |
| LogManager.StandardHas | log_manager.py:131-151 | a file's entries are among the standard entries |
| LogManager.ClaudeHas | log_manager.py:154-182 | a file's preview is among the previews |
| LogManager.ClaudePreviewCollected | log_manager.py:154-182 | a readable, recent Claude log is collected whatever the level filter says |
| LogManager.Clip | log_manager.py:200 | a slice bound is resolved as Python does, counting negative bounds from the end |
| LogManager.PySlice | log_manager.py:200 | Python slicing agrees with Dafny slicing on in-range bounds |
| LogManager.DisplayAsWritten | log_manager.py:188-204 | `display_logs` as written; without a notice every entry is shown |
| LogManager.DisplayZeroShowsAll | log_manager.py:198-201 | with `--max 0` the notice says every entry was skipped, yet every entry is shown |
| LogManager.DisplayLogs | log_manager.py:188-204 | the shown entries are the latest ones; with more than the maximum, exactly `max(0, maximum)` are shown and the notice counts the rest |
| LogManager.DisplayAgreesForPositiveMaximum | log_manager.py:198-201 | for a positive maximum the code as written shows exactly the latest `max_entries` |
| LogManager.DisplayLines | log_manager.py:201-204 | the notice, then one formatted line per shown entry |
| LogManager.ErrorIndices | log_manager.py:217 | exactly the positions of the ERROR and CRITICAL entries, increasing |
| LogManager.ErrorContexts | log_manager.py:206-228 | one window per error, in order |
| LogManager.WindowAroundError | log_manager.py:221-225 | a window is `[max(0,i-k), min(n,i+k+1))`, holds its error, and has at most `2k+1` entries |
| LogManager.ContextsCoverErrors | log_manager.py:217-228 | every error has its window |
| LogManager.Having | log_manager.py:245-249 | a group holds entries of its own key only |
| LogManager.Keys | log_manager.py:245-249 | the keys are distinct, and are exactly the keys of the entries |
| LogManager.GroupSizesSnoc | log_manager.py:245-249 | an entry adds one to its own group only |
| LogManager.HavingNone | log_manager.py:245-249 | a key no entry carries has an empty group |
| LogManager.GroupSizesCover | log_manager.py:245-249 | the groups together hold every entry exactly once |
| LogManager.Errors | log_manager.py:239 | exactly the ERROR and CRITICAL entries |
| LogManager.Pattern | log_manager.py:263-264 | a message pattern holds no digits |
| LogManager.HavingHas | log_manager.py:245-249 | every entry is in the group of its key |
| LogManager.KeyHasGroup | log_manager.py:245-249 | every key has a non-empty group |
| LogManager.ReportHeader | log_manager.py:252 | the header starts the report |
| LogManager.ErrorReport | log_manager.py:230-279 | the report is `No errors found in logs.` iff there are no errors; otherwise it starts with the header counting them |
| LogManager.ReportCountsAddUp | log_manager.py:252-256 | the per-component counts add up to the header's total |
| LogManager.ReportListsEveryError | log_manager.py:245-268 | every error is listed in the section of its component |
| LogManager.EveryDirectoryListed | log_manager.py:291-298 | the four directories are all listed |
| LogManager.DirectoriesToClean | log_manager.py:290-298 | all four directories without a component, only the named one with a known component, none otherwise |
| LogManager.AllDirectoriesWithoutComponent | log_manager.py:291-298 | without a component all four directories are cleaned, in order |
| LogManager.Expiring | log_manager.py:304-311 | exactly the files older than the limit |
| LogManager.FilesToDelete | log_manager.py:301-311 | exactly the expired files of the chosen directories |
| LogManager.Preview5 | log_manager.py:320-325 | the count, at most five names, and a line for the rest |
| LogManager.RemoveAll | log_manager.py:333-341 | exactly the files whose removal succeeds are deleted; every other file gets an error line |
| LogManager.ClearLogs | log_manager.py:281-341 | only selected files are deleted, and only after a `y`; once confirmed (or without confirmation) a path is deleted iff it is selected and its removal succeeds; no match prints the fixed message |
| LogManager.UnitSeconds | log_manager.py:440-445 | exactly `m`, `h` and `d` are units |
| LogManager.ParseSince | log_manager.py:433-451 | an empty value sets no limit; the count before the last character and the unit decide the limit or the error |
| LogManager.SinceExitCode | log_manager.py:446-451 | `main` returns 1 exactly when `--since` is rejected |
| LogManager.SinceOfCount | log_manager.py:437-445 | a count and a unit letter in either case read back as that many units before now |
| LogManager.SinceAccepted | log_manager.py:437-445 | a value whose count and unit are valid gives its limit |
| LogManager.SinceNeedsCount | log_manager.py:437-451 | one character alone is never a valid `--since` |
| LogManager.ListArgument | log_manager.py:453-460 | no filter for a missing or empty value; otherwise one stripped, case-mapped item per comma-separated piece |
| LogManager.LevelFilterIgnoresCase | log_manager.py:456 | a level named in any case selects the entries of that level |
| JsonFilter.Preview | logs/json_filter.py:22 | the first 100 characters of the line |
| JsonFilter.Clean | logs/json_filter.py:12 | every line stripped |
| JsonFilter.Step | logs/json_filter.py:13-27 | a blank line gives nothing; any other line gives one record, valid iff it decodes, and is printed iff it decodes |
| JsonFilter.Run | logs/json_filter.py:10-27 | at most one record per line, and at most one printed line per record |
| JsonFilter.Filter | logs/json_filter.py:6-27 | the same bound for the whole input |
| JsonFilter.RunRecords | logs/json_filter.py:11-27 | each record numbers a non-blank line, is valid iff that line decodes, and previews it |
| JsonFilter.RecordsDescribeLines | logs/json_filter.py:11-27 | in terms of the raw input: each record numbers a line that is non-blank once stripped, valid iff the stripped line decodes |
| JsonFilter.RunOrdered | logs/json_filter.py:10-11 | records come in line order |
| JsonFilter.RunOutputDecodes | logs/json_filter.py:13-20 | every printed line is non-blank and decodes |
| JsonFilter.OneRecordPerLine | logs/json_filter.py:13-27 | exactly one record per non-blank line |
| JsonFilter.EveryLineRecorded | logs/json_filter.py:11-27 | every non-blank line has a record numbered by its 1-based position, blank lines counted |
| JsonFilter.NonBlankLineRecorded | logs/json_filter.py:11-27 | every line that is non-blank once stripped has its record |
| JsonFilter.RunConcat | logs/json_filter.py:10-20 | lines are filtered independently: the output of `a + b` is the output of `a`, then of `b` |
| JsonFilter.FilterConcat | logs/json_filter.py:10-20 | the same for raw input |
| JsonFilter.CleanConcat | logs/json_filter.py:12 | stripping works line by line |
| JsonFilter.RunPrintsTheValidLines | logs/json_filter.py:13-20 | every non-blank line that decodes is printed, and nothing else is |
| JsonFilter.OutputIsTheValidLines | logs/json_filter.py:12-20 | in terms of the raw input: exactly the stripped non-blank lines that decode are printed |
| JsonFilter.OutputStripped | logs/json_filter.py:12-20 | every printed line is its own strip |
| JsonFilter.StripOfPrinted | logs/json_filter.py:12 | a stripped line is its own strip |
| JsonFilter.RunIdempotent | logs/json_filter.py:13-20 | non-blank lines that all decode pass through unchanged |
| JsonFilter.FilterIdempotent | logs/json_filter.py:10-20 | filtering the output again gives the same output |
| JsonFilter.Stdout | logs/json_filter.py:20 | at least one character (the newline) per printed line |

## Left out

- Sockets, threads and sleeps. Each `recv`, `sendall` and `connect` result is an input value. The 10-second timeout of `combined_mcp_server.py` is a `recv` or `sendall` outcome, told apart from connection errors and other socket errors as the exception handlers do. Sleeps are only recorded, as in `SocketProxy.ConnectToDaemon`.
- Signal delivery and its timing. Only each handler's decision is modelled.
- `RhinoConnection`'s module-level singleton `get_rhino_connection` (combined_mcp_server.py:223-264).
  - On every call with a live connection it first sends a `get_scene_info` probe, and the probe uses up a request id.
  - A failed probe disconnects and makes a new `RhinoConnection`, whose ids start again at 1, and that connection is probed too.
  - So a tool's commands do not get consecutive ids. `Combined.FreshIdsFromOne` holds per `RhinoConnection` object, and probes are among the numbered commands.
- `server_lifespan` and the FastMCP decorators and validation. Validation is a `Result` input.
- `log_claude_message`.
- `ensure_daemon_running` (src/socket_proxy.py:38-87). It spawns a process and probes a PID file. The model takes only whether the daemon started.
- The stdin reader's reconnection on a socket error (src/socket_proxy.py:137-158).
- The thread-restart loop in `main` (src/socket_proxy.py:325-395).
- PID files other than the one cleanup rule.
- Logging configuration and every log line written to standard error.
- `monitor_logs`, the `info` command, and the interactive `input()` confirmation. The confirmation's answer is a parameter of `LogManager.ClearLogs`.
- Real JSON text. `loads`, `dumps`, `str` and the exception texts belong to a `Runtime` record. JSON numbers are integers; floats are left out.
- Floating-point coordinates and radii. The consent message's number format is a parameter.
- `datetime`. Timestamps are whole seconds, and `strptime`, `strftime`, `str(datetime)` and `now()` are fields of `LogManager.Clock`. `timedelta` overflow is not modelled.
  - The log lines carry milliseconds (`,%f`, log_manager.py:44-51), which the model drops.
  - So entries from the same second keep their collection order here, where Python sorts them by milliseconds.
  - `--since` and `--older-than` compare whole seconds.
- Windows paths: `os.path.basename` is modelled as the POSIX one and splits on `/` only. On Windows, `ntpath.basename` also splits on `\` and after a drive's `:`. This changes the ` (<file>)` suffix of `LogManager.SourceInfo` (log_manager.py:94-101) and the names in the clear-logs preview (log_manager.py:322).
- File globbing, sizes and creation times are inputs. Non-UTF-8 file content is not modelled.
- LogManager.Pattern: the identifier-scrubbing regex of log_manager.py:263 is a parameter `scrubIds`. Only the digit-run replacement of line 264 is modelled, so the contract states only that a pattern holds no digits.
- LogManager.ToString: ANSI colour codes are modelled as texts, but the coloured branch's contract states only where the colour and the message sit.
- Case mapping: `upper` and `lower` are modelled on ASCII only. `strip` uses the whole `str.isspace` set.
- Unicode digits: the digit-run replacement (log_manager.py:264) and `int()` (log_manager.py:437, rhinomcp_server.py:169) accept only ASCII digits here. Python also accepts every other Unicode decimal digit.
- Universal-newline splitting of `readlines` is not modelled.
- UTF-8 bytes. Received data is modelled as decoded characters, so a failed `decode('utf-8')` is not modelled.
  - In combined_mcp_server.py:165 and diagnose_rhino_connection.py:72, a multi-byte character split across two `recv` calls raises `UnicodeDecodeError`. The `JSONDecodeError` handler does not catch it, so the call fails as a communication error and the socket is cleared.
  - In src/daemon_mcp_server.py:141 an invalid line is dropped by the read loop's general handler (lines 146-150), which sleeps and reads again. The lines still buffered wait for that read.
- `rhinoscriptsyntax` calls are their results: the object listing, the object attributes, the view and layer names, and `AddSphere`.
- JsonFilter.Stdout: states only the length bound of the text written to standard output. What is written is stated on the lines themselves.

## Findings

| source | as written | input that shows it | evidently intended | confidence | as-written member | corrected member |
|---|---|---|---|---|---|---|
| log_manager.py:198-201 | `display_logs` slices `entries[-max_entries:]`, and `-0` is `0`, so a maximum of 0 keeps the whole list | `--max 0` with a non-empty list prints `skipped N earlier entries` and then all N entries | show none of the entries, as the notice says | not executed | LogManager.DisplayZeroShowsAll | LogManager.DisplayLogs |
