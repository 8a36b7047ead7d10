/** `RandomNumberServer`: a server named "random-number-server" with one
    tool, "get-random-number", whose block reads an optional `max`, falls
    back to 100 when it is missing or not positive, and draws from 1..max. */
module RandomNumberServer {
  import opened Wrappers
  import opened JsonValue
  import opened Tool
  import opened Registry
  import opened Server
  import Decimal

  const ServerName := "random-number-server"
  const ServerVersion := "1.0.0"
  const ToolName := "get-random-number"
  const ToolDescription := "Generate a random number between 1 and the specified maximum value"
  const DefaultMax := 100

  const MaxSchema: Json := JObject(map[
    "type" := JString("object"),
    "properties" := JObject(map[
      "max" := JObject(map[
        "type" := JString("integer"),
        "description" := JString("Maximum value for the random number (defaults to 100 if not specified)")])])])

  /** The schema is an object schema whose `max` property is an integer. */
  predicate DeclaresIntegerMax(schema: Json) {
    && schema.JObject?
    && Get(schema.fields, "type") == JString("object")
    && Get(schema.fields, "properties").JObject?
    && Get(Get(schema.fields, "properties").fields, "max").JObject?
    && Get(Get(Get(schema.fields, "properties").fields, "max").fields, "type") == JString("integer")
  }

  /** Ruby's `to_i` on the value of `args["max"] || 100`: an Integer is
      itself, nil is 0, a String converts through `String#to_i` (given as
      `strToI`), and true, false, Arrays and Hashes have no `to_i`. */
  function ToI(v: Json, strToI: string -> int): (r: Eval<int>)
    ensures v.JInt? ==> r == Value(v.n)
    ensures r.Raise? <==> v.JBool? || v.JArray? || v.JObject?
  {
    match v
    case JNull => Value(0)
    case JInt(n) => Value(n)
    case JString(s) => Value(strToI(s))
    case JBool(b) => Raise("undefined method `to_i' for " + (if b then "true" else "false"))
    case JArray(_) => Raise("undefined method `to_i' for an instance of Array")
    case JObject(_) => Raise("undefined method `to_i' for an instance of Hash")
  }

  /** The requested `max`, when the arguments are a Hash. */
  function RequestedMax(args: Json): Json
    requires args.JObject?
  {
    Get(args.fields, "max")
  }

  /** The bound the block draws under (lib/random_number_server.rb:33-34):
      100 when `max` is missing, nil or false, 100 when it converts to a
      number that is not positive, and the number itself otherwise. */
  function EffectiveMax(args: Json, strToI: string -> int): (r: Eval<int>)
    ensures r.Value? ==> r.value >= 1
    ensures args.JObject? && !Truthy(RequestedMax(args)) ==> r == Value(DefaultMax)
    ensures args.JObject? && RequestedMax(args).JInt? && RequestedMax(args).n <= 0 ==> r == Value(DefaultMax)
    ensures args.JObject? && RequestedMax(args).JInt? && RequestedMax(args).n > 0 ==> r == Value(RequestedMax(args).n)
    ensures r.Raise? <==>
      || !Indexable(args)
      || (args.JObject? && (RequestedMax(args) == JBool(true) || RequestedMax(args).JArray? || RequestedMax(args).JObject?))
  {
    match Index(args, "max")
    case Raise(e) => Raise(e)
    case Value(requested) =>
      match ToI(OrElse(requested, JInt(DefaultMax)), strToI)
      case Raise(e) => Raise(e)
      case Value(n) => Value(if n <= 0 then DefaultMax else n)
  }

  /** The block: `rand(1..max)` picks some number in range; `draw` stands
      for the generator, and `1 + draw(max) % max` reaches every number in
      1..max as `draw` varies (see EveryNumberCanBeDrawn). */
  function DrawNumber(strToI: string -> int, draw: int -> nat, args: Json): (r: ExecResult)
    ensures r.Raised? <==> EffectiveMax(args, strToI).Raise?
    ensures r.Returned? ==> r.value.JInt? && 1 <= r.value.n <= EffectiveMax(args, strToI).value
  {
    match EffectiveMax(args, strToI)
    case Raise(e) => Raised(e)
    case Value(max) => Returned(JInt(Pick(draw, max)))
  }

  /** `rand(1..max)`, with `draw` standing for the generator. */
  function Pick(draw: int -> nat, max: int): (k: int)
    requires max >= 1
    ensures 1 <= k <= max
  {
    1 + draw(max) % max
  }

  /** Nothing in 1..max is out of reach of the draw. */
  lemma EveryNumberCanBeDrawn(max: int, k: int)
    requires 1 <= k <= max
    ensures exists draw: int -> nat :: Pick(draw, max) == k
  {
    var draw: int -> nat := _ => (k - 1) as nat;
    assert Pick(draw, max) == k;
  }

  /** The tool `setup_tools` builds. */
  function RandomNumberTool(strToI: string -> int, draw: int -> nat): (t: Tool)
    ensures t.name == ToolName && t.description == ToolDescription && t.inputSchema == MaxSchema
    ensures DeclaresIntegerMax(t.inputSchema)
    ensures forall args :: Execute(t, args) == DrawNumber(strToI, draw, args)
  {
    NewTool(ToolName, ToolDescription, MaxSchema, args => DrawNumber(strToI, draw, args))
  }

  /** `RandomNumberServer.new`: exactly one tool, "get-random-number". */
  function NewRandomNumberServer(strToI: string -> int, draw: int -> nat): (s: Server)
    ensures s.name == ServerName && s.version == ServerVersion
    ensures Names(s.tools) == [ToolName]
    ensures Lookup(s.tools, ToolName).Some?
    ensures DeclaresIntegerMax(Lookup(s.tools, ToolName).value.inputSchema)
    ensures Lookup(s.tools, ToolName) == Some(RandomNumberTool(strToI, draw))
  {
    RegisterTool(NewServer(ServerName, ServerVersion), RandomNumberTool(strToI, draw))
  }

  /** The text of the first content item of a response's result. */
  function ResultText(r: Message): Option<string> {
    if r.Response? && r.outcome.Result? && r.outcome.value.JObject? then
      var content := Get(r.outcome.value.fields, "content");
      if content.JArray? && |content.items| > 0 && content.items[0].JObject?
         && Get(content.items[0].fields, "text").JString?
      then Some(Get(content.items[0].fields, "text").s)
      else None
    else None
  }

  /** `params` of a `tools/call` naming "get-random-number" whose
      `arguments` (or `{}`) is a Hash with an integer or absent `max`. */
  predicate IsRandomNumberCall(params: Json) {
    && params.JObject?
    && Get(params.fields, "name") == JString(ToolName)
    && CallArguments(params).JObject?
    && (RequestedMax(CallArguments(params)).JInt? || RequestedMax(CallArguments(params)).JNull?)
  }

  /** `handle_call_tool` for such params: a success response whose text is
      the decimal form of a number between 1 and the effective maximum. */
  lemma CallDrawsInRange(strToI: string -> int, draw: int -> nat, show: Json -> string, id: Json, params: Json)
    requires IsRandomNumberCall(params)
    ensures
      var r := HandleCallTool(NewRandomNumberServer(strToI, draw), id, params, show);
      && r.Value?
      && exists k ::
           && 1 <= k <= EffectiveMax(CallArguments(params), strToI).value
           && r.value == SuccessResponse(id, TextContent(Decimal.IntToString(k)))
  {
    var s := NewRandomNumberServer(strToI, draw);
    var args := CallArguments(params);
    var t := ToolNamed(s, JString(ToolName)).value;
    assert t == RandomNumberTool(strToI, draw);
    var out := Execute(t, args);
    assert out == DrawNumber(strToI, draw, args);
    var k := out.value.n;
    assert HandleCallTool(s, id, params, show).value == SuccessResponse(id, TextContent(Decimal.IntToString(k)));
  }

  /** A `tools/call` request for "get-random-number" whose `max` is an
      integer or absent is answered, under the request id, with text that
      reads back as a number between 1 and the effective maximum. */
  lemma CallAnswersInRange(strToI: string -> int, draw: int -> nat, show: Json -> string, input: ParseResult)
    requires IsCall(input, "tools/call") && IsRandomNumberCall(Get(input.value.fields, "params"))
    ensures
      var h := HandleMessage(NewRandomNumberServer(strToI, draw), input, show);
      var args := CallArguments(Get(input.value.fields, "params"));
      && h.Handled? && h.response.Some?
      && IsResponse(h.response.value, RequestId(input))
      && ResultText(h.response.value).Some?
      && var k := Decimal.ParseInt(ResultText(h.response.value).value);
         k.Some? && 1 <= k.value <= EffectiveMax(args, strToI).value
  {
    var s := NewRandomNumberServer(strToI, draw);
    var id := RequestId(input);
    var params := Get(input.value.fields, "params");
    CallIsAnsweredByHandleCallTool(s, input, show);
    CallDrawsInRange(strToI, draw, show, id, params);
    var k :| 1 <= k <= EffectiveMax(CallArguments(params), strToI).value
          && HandleCallTool(s, id, params, show).value == SuccessResponse(id, TextContent(Decimal.IntToString(k)));
    var r := SuccessResponse(id, TextContent(Decimal.IntToString(k)));
    assert HandleMessage(s, input, show) == Handled(Some(r), []);
    TextContentReadsBack(id, Decimal.IntToString(k));
    Decimal.IntToStringRoundTrip(k);
  }

  /** The text of a one-item text result is the text it was built from. */
  lemma TextContentReadsBack(id: Json, text: string)
    ensures ResultText(SuccessResponse(id, TextContent(text))) == Some(text)
  {
  }
}
