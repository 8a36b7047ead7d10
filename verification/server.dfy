/** `MCP::Server`: the tool registry and the JSON-RPC 2.0 dispatcher that
    turns one parsed inbound line into at most one response plus the
    notifications it writes on its own. */
module Server {
  import opened Wrappers
  import opened JsonValue
  import opened Tool
  import opened Registry

  const DefaultServerVersion := "1.0.0"
  const DefaultProtocolVersion := "2024-11-05"

  const ParseErrorCode := -32700
  const InvalidRequestCode := -32600
  const MethodNotFoundCode := -32601
  const InternalErrorCode := -32603

  const InvalidRequestMessage := "Invalid Request: Expected jsonrpc 2.0"

  /** The server's identity and its `@tools` Hash. */
  datatype Server = Server(name: string, version: string, tools: Registry)

  /** What `JSON.parse` made of the line: a value, or a ParserError with its
      message. */
  datatype ParseResult = Parsed(value: Json) | ParseErr(message: string)

  /** What handling one message does: the value `handle_message` returns
      (`None` for `nil`) together with the notifications it wrote to the
      output itself, in order; or an exception that escapes it. */
  datatype Handled = Handled(response: Option<Message>, pushed: seq<Message>) | Crash(message: string)

  /** `Server.new(name, version)`: no tools registered yet. */
  function NewServer(name: string, version: string): (s: Server)
    ensures s.name == name && s.version == version
    ensures Names(s.tools) == []
  {
    Server(name, version, Empty)
  }

  /** `Server.new(name)`: the version defaults to "1.0.0". */
  function NewServerWithDefaultVersion(name: string): (s: Server)
    ensures s.name == name && s.version == "1.0.0"
    ensures Names(s.tools) == []
  {
    NewServer(name, DefaultServerVersion)
  }

  /** `register_tool(tool)`: last write wins, other tools keep their entries,
      and a replaced name keeps its listing position. */
  function RegisterTool(s: Server, t: Tool): (s': Server)
    ensures s'.name == s.name && s'.version == s.version
    ensures Lookup(s'.tools, t.name) == Some(t)
    ensures forall n :: n != t.name ==> Lookup(s'.tools, n) == Lookup(s.tools, n)
    ensures Names(s'.tools) == if t.name in Names(s.tools) then Names(s.tools) else Names(s.tools) + [t.name]
    ensures UniqueNames(s.tools) ==> UniqueNames(s'.tools)
  {
    s.(tools := Register(s.tools, t))
  }

  // ---------------------------------------------------------------------------
  // Message shapes

  /** The two bodies a response can carry. */
  datatype Outcome = Result(value: Json) | Error(code: int, message: string)

  /** An outbound message: a response to a request id, or a notification.
      Its wire form is `ToJson`. */
  datatype Message = Response(id: Json, outcome: Outcome) | Notification(name: string, params: Json)

  /** The Hash handed to `JSON.generate` for a message: version "2.0", then
      the id with exactly one of `result` and `error`, or the method with its
      params. */
  function ToJson(m: Message): (j: Json)
    ensures j.JObject? && Get(j.fields, "jsonrpc") == JString("2.0")
    ensures m.Response? ==> j.fields.Keys == {"jsonrpc", "id", "result"} || j.fields.Keys == {"jsonrpc", "id", "error"}
    ensures m.Response? ==> Get(j.fields, "id") == m.id
    ensures m.Response? && m.outcome.Error? ==>
      Get(j.fields, "error") == JObject(map["code" := JInt(m.outcome.code), "message" := JString(m.outcome.message)])
    ensures m.Response? && m.outcome.Result? ==> Get(j.fields, "result") == m.outcome.value
    ensures m.Notification? ==> j.fields.Keys == {"jsonrpc", "method", "params"}
  {
    match m
    case Response(id, Result(v)) =>
      JObject(map["jsonrpc" := JString("2.0"), "id" := id, "result" := v])
    case Response(id, Error(code, message)) =>
      JObject(map["jsonrpc" := JString("2.0"), "id" := id,
                  "error" := JObject(map["code" := JInt(code), "message" := JString(message)])])
    case Notification(name, params) =>
      JObject(map["jsonrpc" := JString("2.0"), "method" := JString(name), "params" := params])
  }

  /** Reads a message back from its wire form: `None` for a value that is
      not the Hash of a response or a notification. */
  function FromJson(j: Json): (m: Option<Message>)
    ensures m.Some? ==> j.JObject? && Get(j.fields, "jsonrpc") == JString("2.0")
  {
    if !j.JObject? || Get(j.fields, "jsonrpc") != JString("2.0") then None
    else if j.fields.Keys == {"jsonrpc", "id", "result"} then
      Some(Response(j.fields["id"], Result(j.fields["result"])))
    else if j.fields.Keys == {"jsonrpc", "id", "error"} then
      var e := j.fields["error"];
      if e.JObject? && e.fields.Keys == {"code", "message"} && e.fields["code"].JInt? && e.fields["message"].JString?
      then Some(Response(j.fields["id"], Error(e.fields["code"].n, e.fields["message"].s)))
      else None
    else if j.fields.Keys == {"jsonrpc", "method", "params"} && j.fields["method"].JString? then
      Some(Notification(j.fields["method"].s, j.fields["params"]))
    else None
  }

  /** The wire form loses nothing: every message reads back as itself, so
      two different messages are never written as the same Hash. */
  lemma ToJsonRoundTrip(m: Message)
    ensures FromJson(ToJson(m)) == Some(m)
  {
    var j := ToJson(m);
    match m
    case Response(id, Result(v)) =>
      assert j.fields.Keys == {"jsonrpc", "id", "result"};
    case Response(id, Error(code, message)) =>
      assert j.fields.Keys == {"jsonrpc", "id", "error"};
      assert j.fields.Keys != {"jsonrpc", "id", "result"} by {
        assert "result" !in j.fields.Keys;
      }
    case Notification(name, params) =>
      assert j.fields.Keys == {"jsonrpc", "method", "params"};
      assert "id" !in j.fields.Keys;
  }

  predicate IsResponse(r: Message, id: Json) {
    r.Response? && r.id == id
  }

  /** `error_response(id, code, message)`. */
  function ErrorResponse(id: Json, code: int, message: string): Message {
    Response(id, Error(code, message))
  }

  function SuccessResponse(id: Json, result: Json): Message {
    Response(id, Result(result))
  }

  /** The notification `send_initialized_notification` writes. */
  const InitializedNotification: Message := Notification("initialized", EmptyObject)

  // ---------------------------------------------------------------------------
  // initialize

  function InitializeResult(s: Server, protocolVersion: Json): Json {
    JObject(map[
      "serverInfo" := JObject(map["name" := JString(s.name), "version" := JString(s.version)]),
      "capabilities" := JObject(map["tools" := EmptyObject]),
      "protocolVersion" := protocolVersion])
  }

  /** `handle_initialize`: echoes the client's `protocolVersion` when it is
      truthy and otherwise answers with the default version; `params` that
      cannot be indexed with a String make it raise. */
  function HandleInitialize(s: Server, id: Json, params: Json): (r: Eval<Message>)
    ensures r.Value? <==> Indexable(params)
    ensures r.Value? ==> IsResponse(r.value, id) && r.value.outcome.Result?
    ensures params.JObject? ==>
      r == Value(SuccessResponse(id, InitializeResult(s, OrElse(Get(params.fields, "protocolVersion"), JString(DefaultProtocolVersion)))))
    ensures params.JString? ==>
      var echoed := if IsInfix("protocolVersion", params.s) then "protocolVersion" else DefaultProtocolVersion;
      r == Value(SuccessResponse(id, InitializeResult(s, JString(echoed))))
  {
    match Index(params, "protocolVersion")
    case Raise(e) => Raise(e)
    case Value(clientVersion) =>
      Value(SuccessResponse(id, InitializeResult(s, OrElse(clientVersion, JString(DefaultProtocolVersion)))))
  }

  // ---------------------------------------------------------------------------
  // tools/list

  /** One `{name, description, inputSchema}` entry of a listing. */
  function ToolEntry(t: Tool): Json {
    JObject(map["name" := JString(t.name), "description" := JString(t.description), "inputSchema" := t.inputSchema])
  }

  /** True when `listing` holds one entry per registered tool, in registry
      order, each with exactly the keys name, description and inputSchema. */
  predicate ListsTools(listing: Json, reg: Registry) {
    && listing.JArray?
    && |listing.items| == |reg|
    && forall i :: 0 <= i < |reg| ==>
         && listing.items[i].JObject?
         && listing.items[i].fields.Keys == {"name", "description", "inputSchema"}
         && listing.items[i].fields["name"] == JString(reg[i].name)
         && listing.items[i].fields["description"] == JString(reg[i].description)
         && listing.items[i].fields["inputSchema"] == reg[i].inputSchema
  }

  /** The `tools` array of a listing: `@tools.values.map { ... }`, one entry
      per registered tool in registry order. */
  function Listing(reg: Registry): (listing: Json)
    ensures listing.JArray? && |listing.items| == |reg|
    ensures forall i :: 0 <= i < |reg| ==> listing.items[i] == ToolEntry(reg[i])
  {
    JArray(seq(|reg|, i requires 0 <= i < |reg| => ToolEntry(reg[i])))
  }

  /** `handle_list_tools`. */
  function HandleListTools(s: Server, id: Json): (r: Message)
    ensures IsResponse(r, id) && r.outcome.Result?
    ensures r.outcome.value.JObject? && r.outcome.value.fields.Keys == {"tools"}
    ensures ListsTools(r.outcome.value.fields["tools"], s.tools)
  {
    SuccessResponse(id, JObject(map["tools" := Listing(s.tools)]))
  }

  // ---------------------------------------------------------------------------
  // tools/call

  /** `@tools[tool_name]` when `@tools.key?(tool_name)`: only a String can be
      a key. */
  function ToolNamed(s: Server, name: Json): (r: Option<Tool>)
    ensures r.Some? <==> name.JString? && name.s in Names(s.tools)
    ensures r.Some? ==> r.value.name == name.s
    ensures r.Some? ==> r.value == s.tools[Find(s.tools, name.s).value]
    ensures name.JString? ==> r == Lookup(s.tools, name.s)
  {
    if name.JString? then Lookup(s.tools, name.s) else None
  }

  /** `request['params']['arguments'] || {}`. */
  function CallArguments(params: Json): Json
    requires Indexable(params)
  {
    OrElse(Index(params, "arguments").value, EmptyObject)
  }

  /** The `result` of a successful call: one text item. */
  function TextContent(text: string): Json {
    JObject(map["content" := JArray([JObject(map["type" := JString("text"), "text" := JString(text)])])])
  }

  /** `handle_call_tool`: an unknown name is -32601, a raising block is
      -32603 carrying the exception message, and a returned value becomes
      one text item holding its `to_s`. Reading `params` itself may raise,
      and that escapes. */
  function HandleCallTool(s: Server, id: Json, params: Json, show: Json -> string): (r: Eval<Message>)
    ensures r.Value? <==> Indexable(params)
    ensures r.Value? ==> IsResponse(r.value, id)
    ensures Indexable(params) ==>
      var name := Index(params, "name").value;
      match ToolNamed(s, name)
      case None => r.value == ErrorResponse(id, MethodNotFoundCode, "Tool not found: " + ToS(name, show))
      case Some(t) =>
        match Execute(t, CallArguments(params))
        case Raised(msg) => r.value == ErrorResponse(id, InternalErrorCode, "Tool execution error: " + msg)
        case Returned(v) => r.value == SuccessResponse(id, TextContent(ToS(v, show)))
  {
    match Index(params, "name")
    case Raise(e) => Raise(e)
    case Value(name) =>
      match ToolNamed(s, name)
      case None => Value(ErrorResponse(id, MethodNotFoundCode, "Tool not found: " + ToS(name, show)))
      case Some(t) =>
        match Execute(t, CallArguments(params))
        case Raised(msg) => Value(ErrorResponse(id, InternalErrorCode, "Tool execution error: " + msg))
        case Returned(v) => Value(SuccessResponse(id, TextContent(ToS(v, show))))
  }

  // ---------------------------------------------------------------------------
  // handle_message

  /** The id a response to `input` has to echo: `parsed['id']`, and `nil`
      when the line did not parse. */
  function RequestId(input: ParseResult): (id: Json)
    ensures input.Parsed? && input.value.JObject? ==> id == Get(input.value.fields, "id")
    ensures input.ParseErr? || !Indexable(input.value) ==> id == JNull
    ensures input.Parsed? && input.value.JString? ==> id == (if IsInfix("id", input.value.s) then JString("id") else JNull)
  {
    match input
    case ParseErr(_) => JNull
    case Parsed(v) => if Indexable(v) then Index(v, "id").value else JNull
  }

  /** The line is a well-versioned request whose `method` is `name`. */
  predicate IsCall(input: ParseResult, name: string) {
    && input.Parsed?
    && input.value.JObject?
    && Get(input.value.fields, "jsonrpc") == JString("2.0")
    && Get(input.value.fields, "method") == JString(name)
  }

  /** The line parsed, but `parsed['jsonrpc']` is not "2.0". */
  predicate HasBadVersion(input: ParseResult) {
    input.Parsed? && Indexable(input.value) && Index(input.value, "jsonrpc").value != JString("2.0")
  }

  /** The line is well versioned and names none of the four methods. */
  predicate IsUnknownMethod(input: ParseResult) {
    && input.Parsed?
    && input.value.JObject?
    && Get(input.value.fields, "jsonrpc") == JString("2.0")
    && !IsCall(input, "initialize") && !IsCall(input, "initialized")
    && !IsCall(input, "tools/list") && !IsCall(input, "tools/call")
  }

  /** The inputs on which Ruby raises out of `handle_message`: a parsed value
      that is neither a Hash nor a String, or `params` that cannot be indexed
      on the two methods that read it. */
  predicate RaisesInHandler(input: ParseResult) {
    && input.Parsed?
    && (|| !Indexable(input.value)
        || ((IsCall(input, "initialize") || IsCall(input, "tools/call"))
            && !Indexable(Get(input.value.fields, "params"))))
  }

  /** The dispatch table, for a request whose version has been checked. */
  function Dispatch(s: Server, request: map<string, Json>, show: Json -> string): (h: Handled)
    ensures h.Crash? <==>
      && (Get(request, "method") == JString("initialize") || Get(request, "method") == JString("tools/call"))
      && !Indexable(Get(request, "params"))
    ensures h.Handled? ==> (h.response.None? <==> Get(request, "method") == JString("initialized"))
    ensures h.Handled? ==> h.pushed == if Get(request, "method") == JString("initialize") then [InitializedNotification] else []
    ensures h.Handled? && h.response.Some? ==> IsResponse(h.response.value, Get(request, "id"))
  {
    var id := Get(request, "id");
    var requested := Get(request, "method");
    if requested == JString("initialize") then
      match HandleInitialize(s, id, Get(request, "params"))
      case Raise(e) => Crash(e)
      case Value(response) => Handled(Some(response), [InitializedNotification])
    else if requested == JString("initialized") then
      Handled(None, [])
    else if requested == JString("tools/list") then
      Handled(Some(HandleListTools(s, id)), [])
    else if requested == JString("tools/call") then
      match HandleCallTool(s, id, Get(request, "params"), show)
      case Raise(e) => Crash(e)
      case Value(response) => Handled(Some(response), [])
    else
      Handled(Some(ErrorResponse(id, MethodNotFoundCode, "Method not found: " + ToS(requested, show))), [])
  }

  /** `handle_message`, applied to the result of parsing the line. */
  function HandleMessage(s: Server, input: ParseResult, show: Json -> string): (h: Handled)
    ensures h.Crash? <==> RaisesInHandler(input)
    ensures h.Handled? && h.response.Some? ==> IsResponse(h.response.value, RequestId(input))
    ensures h.Handled? ==> (h.response.None? <==> IsCall(input, "initialized"))
    ensures h.Handled? ==> h.pushed == if IsCall(input, "initialize") then [InitializedNotification] else []
    ensures input.ParseErr? ==>
      h.Handled? && h.response.Some? && h.response.value == ErrorResponse(JNull, ParseErrorCode, "Parse error: " + input.message)
    ensures HasBadVersion(input) ==>
      h.Handled? && h.response.Some? && h.response.value == ErrorResponse(RequestId(input), InvalidRequestCode, InvalidRequestMessage)
    ensures IsUnknownMethod(input) ==>
      var requested := Get(input.value.fields, "method");
      h.Handled? && h.response.Some? &&
      h.response.value == ErrorResponse(RequestId(input), MethodNotFoundCode, "Method not found: " + ToS(requested, show))
  {
    match input
    case ParseErr(msg) => Handled(Some(ErrorResponse(JNull, ParseErrorCode, "Parse error: " + msg)), [])
    case Parsed(request) =>
      match Index(request, "jsonrpc")
      case Raise(e) => Crash(e)
      case Value(version) =>
        if version != JString("2.0") then
          Handled(Some(ErrorResponse(Index(request, "id").value, InvalidRequestCode, InvalidRequestMessage)), [])
        else
          Dispatch(s, request.fields, show)
  }

  // ---------------------------------------------------------------------------
  // Registration seen through the dispatcher

  /** After `register_tool(t)`, a call naming `t` runs `t`'s block, whatever
      was registered under that name before. */
  lemma CallRunsLastRegistered(s: Server, t: Tool, id: Json, params: Json, show: Json -> string)
    requires params.JObject? && Get(params.fields, "name") == JString(t.name)
    ensures
      var r := HandleCallTool(RegisterTool(s, t), id, params, show);
      match Execute(t, CallArguments(params))
      case Raised(msg) => r.value == ErrorResponse(id, InternalErrorCode, "Tool execution error: " + msg)
      case Returned(v) => r.value == SuccessResponse(id, TextContent(ToS(v, show)))
  {
  }

  /** After `register_tool(t)`, the listing shows `t` where its name was
      already listed, or last when the name is new, and every entry under
      another name as before. */
  lemma ListingFollowsRegistration(s: Server, t: Tool, id: Json)
    ensures
      var items := HandleListTools(RegisterTool(s, t), id).outcome.value.fields["tools"].items;
      t.name in Names(s.tools) ==> |items| == |s.tools| && items[Find(s.tools, t.name).value] == ToolEntry(t)
    ensures
      var items := HandleListTools(RegisterTool(s, t), id).outcome.value.fields["tools"].items;
      t.name !in Names(s.tools) ==> |items| == |s.tools| + 1 && items[|s.tools|] == ToolEntry(t)
    ensures
      var items := HandleListTools(RegisterTool(s, t), id).outcome.value.fields["tools"].items;
      forall i :: 0 <= i < |s.tools| && s.tools[i].name != t.name ==> items[i] == ToolEntry(s.tools[i])
  {
    assert HandleListTools(RegisterTool(s, t), id).outcome.value.fields["tools"] == Listing(Register(s.tools, t));
    ListingAfterRegister(s.tools, t);
  }

  /** The listing after `Register`, entry by entry. */
  lemma ListingAfterRegister(reg: Registry, t: Tool)
    ensures t.name in Names(reg) ==>
      |Listing(Register(reg, t)).items| == |reg| && Listing(Register(reg, t)).items[Find(reg, t.name).value] == ToolEntry(t)
    ensures t.name !in Names(reg) ==>
      |Listing(Register(reg, t)).items| == |reg| + 1 && Listing(Register(reg, t)).items[|reg|] == ToolEntry(t)
    ensures forall i :: 0 <= i < |reg| && reg[i].name != t.name ==> Listing(Register(reg, t)).items[i] == ToolEntry(reg[i])
  {
    var r := Register(reg, t);
    assert |Listing(r).items| == |Names(r)|;
    if t.name in Names(reg) {
      assert |Names(r)| == |Names(reg)|;
    } else {
      assert |Names(r)| == |Names(reg)| + 1;
    }
  }

  /** A call with no `arguments` (or with nil or false there) hands the
      block an empty Hash. */
  lemma MissingArgumentsAreEmpty(params: Json)
    requires params.JObject? && !Truthy(Get(params.fields, "arguments"))
    ensures CallArguments(params) == EmptyObject
  {
  }

  /** A well-versioned `tools/call` whose params can be indexed is answered by
      `handle_call_tool` and pushes nothing. */
  lemma CallIsAnsweredByHandleCallTool(s: Server, input: ParseResult, show: Json -> string)
    requires IsCall(input, "tools/call") && Indexable(Get(input.value.fields, "params"))
    ensures
      var r := HandleCallTool(s, RequestId(input), Get(input.value.fields, "params"), show);
      r.Value? && HandleMessage(s, input, show) == Handled(Some(r.value), [])
  {
  }

  /** A well-versioned `initialize` whose params can be indexed is answered
      by `handle_initialize`, after the `initialized` notification. */
  lemma InitializeIsAnsweredByHandleInitialize(s: Server, input: ParseResult, show: Json -> string)
    requires IsCall(input, "initialize") && Indexable(Get(input.value.fields, "params"))
    ensures
      var r := HandleInitialize(s, RequestId(input), Get(input.value.fields, "params"));
      r.Value? && HandleMessage(s, input, show) == Handled(Some(r.value), [InitializedNotification])
  {
  }

  /** A well-versioned `tools/list` is answered by `handle_list_tools`. */
  lemma ListIsAnsweredByHandleListTools(s: Server, input: ParseResult, show: Json -> string)
    requires IsCall(input, "tools/list")
    ensures HandleMessage(s, input, show) == Handled(Some(HandleListTools(s, RequestId(input))), [])
  {
  }

  /** A well-versioned `initialize` with Hash params is answered with the
      server's identity and the client's protocol version (or the default),
      after the `initialized` notification. */
  lemma InitializeAnswer(s: Server, input: ParseResult, show: Json -> string)
    requires IsCall(input, "initialize") && Get(input.value.fields, "params").JObject?
    ensures
      var params := Get(input.value.fields, "params").fields;
      var version := OrElse(Get(params, "protocolVersion"), JString(DefaultProtocolVersion));
      HandleMessage(s, input, show) ==
        Handled(Some(SuccessResponse(Get(input.value.fields, "id"), InitializeResult(s, version))), [InitializedNotification])
  {
    InitializeIsAnsweredByHandleInitialize(s, input, show);
  }
}
