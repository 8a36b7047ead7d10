/** A server running over the standard-input transport (`Server#run`): the
    transport's handler slot holds `handle_message`, so the output stream is
    the transport loop's output with that handler. The `initialized`
    notification is written by the handler itself, while the transport
    writes the returned response only after the handler returns, so in the
    stream the notification comes first. */
module Session {
  import opened Wrappers
  import opened JsonValue
  import opened Server
  import opened Transport

  /** One message handled, as the transport sees it. */
  function AsReply(h: Handled): (r: Reply<Message>)
    ensures r.Raised? <==> h.Crash?
    ensures r.Reply? ==> r.pushed == h.pushed && r.response == h.response
  {
    match h
    case Crash(e) => Raised(e)
    case Handled(response, pushed) => Reply(pushed, response)
  }

  /** The block `run` registers: parse the line, then `handle_message`. */
  function MessageHandler(s: Server, parse: string -> ParseResult, show: Json -> string): string -> Reply<Message> {
    line => AsReply(HandleMessage(s, parse(line), show))
  }

  /** The block raises, ending the loop, exactly for a line whose parse
      fails or whose request makes `handle_message` raise. */
  lemma HandlerRaisesExactly(s: Server, parse: string -> ParseResult, show: Json -> string, line: string)
    ensures MessageHandler(s, parse, show)(line).Raised? <==> RaisesInHandler(parse(line))
  {
  }

  /** `run(transport)`: registers the handler, then starts the loop. */
  function Run(s: Server, transport: Stdio<Message>, parse: string -> ParseResult, show: Json -> string, input: seq<string>): (r: RunResult<Message>)
    ensures Delivered(input) == [] ==> r == Closed([])
  {
    StartSeesOnlyDelivered(OnMessage(transport, MessageHandler(s, parse, show)), input);
    Start(OnMessage(transport, MessageHandler(s, parse, show)), input)
  }

  /** A message the server may write: the `initialized` notification, or a
      response. */
  predicate IsProtocolMessage(m: Message) {
    m == InitializedNotification || m.Response?
  }

  predicate AllProtocolMessages(out: seq<Message>) {
    forall i :: 0 <= i < |out| ==> IsProtocolMessage(out[i])
  }

  /** The number of delivered lines that are `initialize` calls. */
  function InitializeCount(parse: string -> ParseResult, lines: seq<string>): (n: nat)
    ensures n <= |lines|
  {
    if |lines| == 0 then 0
    else (if IsCall(parse(lines[0]), "initialize") then 1 else 0) + InitializeCount(parse, lines[1..])
  }

  /** Everything the server writes is a protocol message, and it writes at
      most one line per delivered line plus one per `initialize`, whether the
      run ends at end of input or with an exception. */
  lemma {:induction false} RunWritesProtocolMessages(s: Server, transport: Stdio<Message>, parse: string -> ParseResult, show: Json -> string, input: seq<string>)
    ensures AllProtocolMessages(Run(s, transport, parse, show, input).output)
    ensures |Run(s, transport, parse, show, input).output| <= |Delivered(input)| + InitializeCount(parse, Delivered(input))
    decreases |input|
  {
    var t := OnMessage(transport, MessageHandler(s, parse, show));
    if |input| > 0 {
      RunWritesProtocolMessages(s, transport, parse, show, input[1..]);
      var line := Strip(input[0]);
      var rest := Start(t, input[1..]);
      assert Start(t, input) == Step(t, line, rest);
      if line != [] {
        var d := Delivered(input);
        assert d[0] == line && d[1..] == Delivered(input[1..]);
        var h := HandleMessage(s, parse(line), show);
        assert Call(t, line) == AsReply(h);
        if h.Handled? {
          HandledWritesProtocolMessages(s, parse(line), show);
          var out := Emitted(AsReply(h));
          assert Start(t, input).output == out + rest.output;
        }
      }
    }
  }

  /** What one handled message writes: protocol messages only, at most one
      more than a response when the message is `initialize`. */
  lemma HandledWritesProtocolMessages(s: Server, input: ParseResult, show: Json -> string)
    requires HandleMessage(s, input, show).Handled?
    ensures AllProtocolMessages(Emitted(AsReply(HandleMessage(s, input, show))))
    ensures |Emitted(AsReply(HandleMessage(s, input, show)))| <= 1 + (if IsCall(input, "initialize") then 1 else 0)
  {
    var h := HandleMessage(s, input, show);
    if h.response.Some? {
      assert IsProtocolMessage(h.response.value);
    }
  }

  /** Calling the registered block is handling the parsed line. */
  lemma CallIsHandling(s: Server, transport: Stdio<Message>, parse: string -> ParseResult, show: Json -> string, line: string)
    ensures Call(OnMessage(transport, MessageHandler(s, parse, show)), line) == AsReply(HandleMessage(s, parse(line), show))
  {
  }

  /** `run` is the transport loop with the message handler registered. */
  lemma RunIsStart(s: Server, transport: Stdio<Message>, parse: string -> ParseResult, show: Json -> string, input: seq<string>)
    ensures Run(s, transport, parse, show, input) == Start(OnMessage(transport, MessageHandler(s, parse, show)), input)
  {
  }

  /** A run over one non-blank line that does not crash the handler writes
      what handling that line writes. */
  lemma RunOfOneMessage(s: Server, transport: Stdio<Message>, parse: string -> ParseResult, show: Json -> string, line: string, h: Handled)
    requires Strip(line) != [] && HandleMessage(s, parse(Strip(line)), show) == h && h.Handled?
    ensures Run(s, transport, parse, show, [line]) == Closed(h.pushed + if h.response.Some? then [h.response.value] else [])
  {
    CallIsHandling(s, transport, parse, show, Strip(line));
    RunIsStart(s, transport, parse, show, [line]);
    RunOfOneLine(OnMessage(transport, MessageHandler(s, parse, show)), line);
  }

  /** The same for two lines. */
  lemma RunOfTwoMessages(s: Server, transport: Stdio<Message>, parse: string -> ParseResult, show: Json -> string, a: string, b: string, ra: Message, rb: Message)
    requires Strip(a) != [] && HandleMessage(s, parse(Strip(a)), show) == Handled(Some(ra), [])
    requires Strip(b) != [] && HandleMessage(s, parse(Strip(b)), show) == Handled(Some(rb), [])
    ensures Run(s, transport, parse, show, [a, b]) == Closed([ra, rb])
  {
    CallIsHandling(s, transport, parse, show, Strip(a));
    CallIsHandling(s, transport, parse, show, Strip(b));
    RunIsStart(s, transport, parse, show, [a, b]);
    RunOfTwoAnswers(OnMessage(transport, MessageHandler(s, parse, show)), a, b, ra, rb);
  }

  /** An `initialize` line writes two lines: the `initialized` notification
      and then the response carrying the client's protocol version (or the
      default) and the request's id. */
  lemma InitializeWritesNotificationThenResponse(s: Server, transport: Stdio<Message>, parse: string -> ParseResult, show: Json -> string, line: string)
    requires Strip(line) != []
    requires IsCall(parse(Strip(line)), "initialize")
    requires Get(parse(Strip(line)).value.fields, "params").JObject?
    ensures
      var request := parse(Strip(line)).value.fields;
      var params := Get(request, "params").fields;
      Run(s, transport, parse, show, [line]) ==
        Closed([InitializedNotification,
                SuccessResponse(Get(request, "id"),
                  InitializeResult(s, OrElse(Get(params, "protocolVersion"), JString(DefaultProtocolVersion))))])
  {
    var input := parse(Strip(line));
    var request := input.value.fields;
    var response := SuccessResponse(Get(request, "id"),
      InitializeResult(s, OrElse(Get(Get(request, "params").fields, "protocolVersion"), JString(DefaultProtocolVersion))));
    InitializeAnswer(s, input, show);
    RunOfOneMessage(s, transport, parse, show, line, Handled(Some(response), [InitializedNotification]));
  }

  /** A line that is an `initialized` notification is consumed without any
      write, even when it carries an id. */
  lemma InitializedWritesNothing(s: Server, transport: Stdio<Message>, parse: string -> ParseResult, show: Json -> string, line: string)
    requires Strip(line) != []
    requires IsCall(parse(Strip(line)), "initialized")
    ensures Run(s, transport, parse, show, [line]) == Closed([])
  {
    assert HandleMessage(s, parse(Strip(line)), show) == Handled(None, []);
    RunOfOneMessage(s, transport, parse, show, line, Handled(None, []));
  }

  /** Handling a message leaves the registry as it was, so two `tools/list`
      requests with the same id, one after the other, get the same answer:
      the listing of the registered tools. */
  lemma ListingTwiceAnswersAlike(s: Server, transport: Stdio<Message>, parse: string -> ParseResult, show: Json -> string, a: string, b: string)
    requires Strip(a) != [] && Strip(b) != []
    requires IsCall(parse(Strip(a)), "tools/list") && IsCall(parse(Strip(b)), "tools/list")
    requires Get(parse(Strip(a)).value.fields, "id") == Get(parse(Strip(b)).value.fields, "id")
    ensures Run(s, transport, parse, show, [a, b]).Closed?
    ensures
      var out := Run(s, transport, parse, show, [a, b]).output;
      |out| == 2 && out[0] == out[1] && out[0] == HandleListTools(s, Get(parse(Strip(a)).value.fields, "id"))
  {
    var r := HandleListTools(s, Get(parse(Strip(a)).value.fields, "id"));
    ListIsAnsweredByHandleListTools(s, parse(Strip(a)), show);
    ListIsAnsweredByHandleListTools(s, parse(Strip(b)), show);
    RunOfTwoMessages(s, transport, parse, show, a, b, r, r);
  }
}
