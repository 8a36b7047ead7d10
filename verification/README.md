# MCP server protocol engine, modelled in Dafny

This project models the protocol engine of a small Model Context Protocol
server written in Ruby. It covers four parts:

- **Tool** (`MCP::Tool`). An immutable record of a name, a description, an
  input schema and the block that runs the tool.
- **Registry and dispatcher** (`MCP::Server`). The `@tools` Hash is modelled
  as an insertion-ordered sequence. `handle_message` takes one parsed line
  and dispatches the JSON-RPC 2.0 methods `initialize`, `initialized`,
  `tools/list` and `tools/call`. It answers with fixed error codes: -32700,
  -32600, -32601 and -32603.
- **Transport** (`MCP::Transport::Stdio`). It has a single handler slot. The
  `start` loop strips each line, skips blank ones, calls the handler and
  writes every truthy value it returns (neither nil nor false).
- **Example server** (`RandomNumberServer`). It registers the one tool
  `get-random-number`. That tool defaults and clamps `max`, then draws from
  `1..max`.

Everything is a pure function over an immutable `Json` datatype. What the
server writes is a `Message`: a `Response(id, outcome)` whose outcome is
`Result(value)` or `Error(code, message)`, or a `Notification(method,
params)`. `Server.ToJson` gives the Hash that `JSON.generate` turns into the
line, and `Server.FromJson` reads it back.

- `HandleMessage` returns `Handled(response, pushed)` or `Crash(message)`.
  `response` is the value `handle_message` returns, or `None` for `nil`.
  `pushed` holds the notifications it wrote to the output itself.
  `Crash` is a Ruby exception escaping `handle_message`.
- `Transport.Start` folds over the lines `STDIN.gets` returns before end of
  input. It yields `Closed(output)`, or `Failed(output, message)` when the
  handler raised.
- `Session.Run` plugs the dispatcher into the transport, as `Server#run`
  does.

Some inputs are modelled as function parameters:

- `JSON.parse` is a parameter `parse: string -> ParseResult`, whose results
  are `Parsed(json)` or `ParseErr(message)`.
- `Array#inspect`/`Hash#inspect` is a parameter `show`. So is `String#to_i`
  (`strToI`).
- The random generator is a parameter `draw`.

### Ruby semantics kept

- `parsed['key']` is Ruby's `[]` with a String key:
  - a Hash gives its value, or `nil` when the key is absent;
  - a String gives the key when the key occurs inside it (`String#[]`), and `nil` otherwise;
  - an Array or an Integer raises TypeError;
  - `nil`, `true` and `false` raise NoMethodError.

  A line that parses to a JSON string therefore gets a -32600 answer, with
  id `"id"` or `nil`. A line that parses to a number, an array, `true`,
  `false` or `null` makes `handle_message` raise. The exception escapes the
  transport loop.
- `x || default` treats both `nil` and `false` as missing. This applies to
  `protocolVersion`, `arguments` and `max`.
- Interpolation and `result.to_s` follow `to_s`: `nil` gives `""`, Strings
  stay as they are, and Integers give decimal text. `Decimal.IntToString`
  models that decimal text, and `Decimal.ParseInt` reads it back.

### Behaviour worth noting

- The `initialized` notification comes *before* the `initialize` response
  in the output. `send_initialized_notification` writes to STDOUT inside the
  handler (lib/mcp/server.rb:51-53, 103). The transport writes the returned
  response only after the handler returns (lib/mcp/transport.rb:30-33).
- The transport writes any truthy value it gets back (neither nil nor
  false), including `""`, which is truthy in Ruby.
- The invalid-version message is exactly
  `"Invalid Request: Expected jsonrpc 2.0"`. Parse errors are
  `"Parse error: " + <parser message>`.
- A falsy `protocolVersion` (`false` as well as absent or `null`) falls back
  to `"2024-11-05"`.
- A parsed value that is not a Hash is not always answered with a `null`
  id. A value that is neither a String nor a Hash makes `handle_message`
  raise. A String value is answered with id `"id"` or `nil`, following
  `String#[]`.

## Model

| member | source | states |
|---|---|---|
| `JsonValue.Index` | lib/mcp/server.rb:42-44 | `parsed['key']` succeeds exactly on a Hash or a String: a Hash gives the value or nil, a String gives the key exactly when the key occurs in it and nil otherwise; every other receiver raises |
| `JsonValue.ToS` | lib/mcp/server.rb:64 | interpolation and `to_s` give `""` for nil, a String itself, and for an Integer text that reads back as that Integer |
| `Tool.NewTool` | lib/mcp/tool.rb:5-10 | the record's name, description and input schema are the constructor arguments, and its block behaves as the given one on every argument |
| `Tool.Execute` | lib/mcp/tool.rb:12-14 | execute raises exactly when the block raises, with the same message, and otherwise returns the block's value; nothing is caught |
| `Registry.Find` | lib/mcp/server.rb:131 | the position found holds the name and no earlier entry does; nothing is found exactly when the name is not among the keys |
| `Registry.Lookup` | lib/mcp/server.rb:131-136 | `key?` holds exactly for listed names, and `@tools[name]` is the tool stored at that name's position |
| `Registry.Register` | lib/mcp/server.rb:16-17 | the name maps to the new tool (last write wins); every other name keeps its tool; a new name is listed last; a present name keeps its position and the key list is unchanged; untouched entries stay at their index; unique keys stay unique |
| `Server.NewServer` | lib/mcp/server.rb:8-11 | a new server has the given name and version and no tools |
| `Server.NewServerWithDefaultVersion` | lib/mcp/server.rb:8-11 | a server created with only a name has version "1.0.0" and no tools |
| `Server.RegisterTool` | lib/mcp/server.rb:16-19 | registering keeps the server identity; the tool becomes the one under its name; other names keep their tools; listing order changes only by appending a new name; unique names stay unique |
| `Server.ToJson` | lib/mcp/server.rb:157-168 | the Hash written for a message has version "2.0"; a response has the id and exactly one of `result` and `error`, an error being exactly `{code, message}`; a notification has exactly `method` and `params` |
| `Server.ToJsonRoundTrip` | lib/mcp/server.rb:157-168 | every message reads back from the Hash written for it, so different messages are never written alike |
| `Server.RequestId` | lib/mcp/server.rb:39-44 | the id echoed is `parsed['id']` for a Hash, `"id"` or nil for a String as `String#[]` decides, and nil when the line did not parse or cannot be indexed |
| `Server.HandleInitialize` | lib/mcp/server.rb:68-91 | a success response to the id with serverInfo `{name, version}`, capabilities `{tools: {}}`, and the client's protocolVersion when truthy, else "2024-11-05" (String params give "protocolVersion" exactly when it occurs in them); params that are not a Hash or a String raise |
| `Server.Listing` | lib/mcp/server.rb:108-114 | the listing has one entry per registered tool, in registry order, and the i-th entry is the i-th tool's `{name, description, inputSchema}` |
| `Server.HandleListTools` | lib/mcp/server.rb:107-125 | a success response to the id whose `result` has only `tools`, listing one `{name, description, inputSchema}` entry per registered tool, in registry order |
| `Server.ToolNamed` | lib/mcp/server.rb:131-136 | a tool is found exactly when the requested name is a String registered as a key, and it is the tool stored under that name |
| `Server.HandleCallTool` | lib/mcp/server.rb:127-155 | an unknown name gives -32601 "Tool not found: <name>"; a raising block gives -32603 "Tool execution error: <message>"; a returned value gives one `{type: "text", text: to_s}` item; the id is echoed; only params that are not a Hash or String raise |
| `Server.Dispatch` | lib/mcp/server.rb:47-65 | on a well-versioned request it raises exactly for initialize or tools/call with params that cannot be indexed; only `initialized` gets no response; only `initialize` pushes, exactly the `initialized` notification; every response echoes `parsed['id']` |
| `Server.HandleMessage` | lib/mcp/server.rb:33-66 | parse failure gives -32700 with id null and "Parse error: " + message; a version other than "2.0" gives -32600 before any dispatch; an unknown method gives -32601 "Method not found: <method>"; every response echoes the request id; only `initialized` gets no response; only `initialize` pushes, and pushes exactly one `initialized` notification; it raises exactly on non-Hash, non-String values or unindexable params of initialize/tools/call |
| `Server.CallRunsLastRegistered` | lib/mcp/server.rb:127-155 | after registering a tool, a call naming it runs that tool's block, whatever was registered under the name before |
| `Server.ListingFollowsRegistration` | lib/mcp/server.rb:107-114 | after registering, the listing shows the new tool in the old slot of its name or last when new, and every other entry as before |
| `Server.MissingArgumentsAreEmpty` | lib/mcp/server.rb:129 | missing, null or false `arguments` reach the block as an empty Hash |
| `Server.InitializeIsAnsweredByHandleInitialize` | lib/mcp/server.rb:47-54 | a well-versioned initialize with indexable params returns what `handle_initialize` returns and pushes exactly the initialized notification |
| `Server.InitializeAnswer` | lib/mcp/server.rb:47-54 | with Hash params, that answer is the success response to the id carrying the client's truthy protocolVersion or the default |
| `Server.ListIsAnsweredByHandleListTools` | lib/mcp/server.rb:59-60 | a well-versioned tools/list returns what `handle_list_tools` returns and pushes nothing |
| `Server.CallIsAnsweredByHandleCallTool` | lib/mcp/server.rb:61-62 | a well-versioned tools/call with indexable params returns what `handle_call_tool` returns and pushes nothing |
| `Transport.NewStdio` | lib/mcp/transport.rb:6-7 | a new transport has no handler |
| `Transport.OnMessage` | lib/mcp/transport.rb:12-14 | the slot holds exactly the handler just registered |
| `Transport.RunOfOneLine` | lib/mcp/transport.rb:19-37 | one non-blank line that the handler answers writes exactly that reply, and the loop ends normally |
| `Transport.RunOfTwoLines` | lib/mcp/transport.rb:19-37 | two such lines write the two replies in order |
| `Transport.LastHandlerWins` | lib/mcp/transport.rb:12-14 | registering twice runs exactly as registering only the last handler |
| `Transport.Strip` | lib/mcp/transport.rb:26 | the stripped line is empty exactly when the line is all whitespace, and it is no longer than the line |
| `Transport.StripTrimsBothEnds` | lib/mcp/transport.rb:26 | a non-empty stripped line starts and ends with non-whitespace |
| `Transport.StripKeepsASlice` | lib/mcp/transport.rb:26 | the stripped line is a contiguous part of the line with only whitespace before and after it |
| `Transport.StripIsIdempotent` | lib/mcp/transport.rb:26 | stripping a stripped line changes nothing |
| `Transport.Delivered` | lib/mcp/transport.rb:26-27 | the lines handed to the handler are non-empty and no more numerous than the input lines |
| `Transport.Call` | lib/mcp/transport.rb:30 | with no handler the value is nil and nothing is written |
| `Transport.Step` | lib/mcp/transport.rb:26-37 | a blank line is skipped; a raise ends the loop at once with that message and nothing more written; a reply is written before whatever the rest of the loop writes, and the loop ends as the rest does |
| `Transport.Emitted` | lib/mcp/transport.rb:30-37 | one reply writes the handler's own writes plus one line exactly when there is a returned value |
| `Transport.Start` | lib/mcp/transport.rb:16-44 | with no handler nothing is written; with a handler that writes nothing itself, at most one line is written per non-blank input line |
| `Transport.StartSplits` | lib/mcp/transport.rb:19-24 | the loop over `xs + ys` is the loop over `xs` followed, only if that reached end of input, by the loop over `ys` |
| `Transport.StartSeesOnlyDelivered` | lib/mcp/transport.rb:26-30 | the run depends only on the stripped, non-blank lines: blank lines are skipped and the handler receives stripped lines |
| `Transport.StartEmitsInOrder` | lib/mcp/transport.rb:30-37 | when the handler never raises, the loop ends normally having written each delivered line's replies, in input order |
| `Transport.StartStopsAtRaise` | lib/mcp/transport.rb:39-42 | when the handler first raises on the k-th delivered line, the run fails with that message after the replies to the earlier lines, and nothing later is written |
| `Decimal.IntToString` | lib/mcp/server.rb:145 | `Integer#to_s` is non-empty, starts with a minus sign exactly for negative values, and is otherwise decimal digits |
| `Decimal.IntToStringRoundTrip` | lib/mcp/server.rb:145 | the decimal text `to_s` gives an Integer reads back as that Integer |
| `RandomNumberServer.ToI` | lib/random_number_server.rb:33 | `to_i` keeps an Integer and raises exactly for true/false, Arrays and Hashes |
| `RandomNumberServer.EffectiveMax` | lib/random_number_server.rb:33-34 | missing/null/false max gives 100; a max of 0 or less gives 100; a positive max is kept; the bound is always at least 1; it raises exactly when args cannot be indexed or max has no `to_i` |
| `RandomNumberServer.DrawNumber` | lib/random_number_server.rb:32-37 | the block returns an integer r with 1 <= r <= effective max, and raises exactly when computing max raises |
| `RandomNumberServer.Pick` | lib/random_number_server.rb:36 | `rand(1..max)` lies between 1 and max |
| `RandomNumberServer.EveryNumberCanBeDrawn` | lib/random_number_server.rb:36 | every number in 1..max is a possible draw |
| `RandomNumberServer.CallDrawsInRange` | lib/mcp/server.rb:127-155 | calling get-random-number with any Hash params whose `arguments` (or `{}`) has an integer or absent max answers the id with one text item holding the decimal form of a number between 1 and the effective max |
| `RandomNumberServer.TextContentReadsBack` | lib/mcp/server.rb:138-149 | the text of a one-item text result is the text it was built from |
| `RandomNumberServer.RandomNumberTool` | lib/random_number_server.rb:20-37 | the tool is "get-random-number" with its description and an object schema declaring an integer `max`; executing it is the drawing block |
| `RandomNumberServer.NewRandomNumberServer` | lib/random_number_server.rb:6-11 | the server is "random-number-server" 1.0.0 with exactly one tool, "get-random-number", whose schema declares an integer `max` and whose block is the drawing block |
| `RandomNumberServer.CallAnswersInRange` | lib/random_number_server.rb:32-37 | a tools/call of get-random-number, with any other params keys, whose arguments have an integer or absent max answers the request id with text that reads as an integer between 1 and the effective max |
| `Session.HandlerRaisesExactly` | lib/mcp/server.rb:24-26 | the block `run` registers (`Session.MessageHandler`) raises on a line exactly when `handle_message` raises on what the line parses to |
| `Session.Run` | lib/mcp/server.rb:21-29 | `run` registers the handler and starts the loop; with no non-blank line nothing is written and the run ends normally |
| `Session.AsReply` | lib/mcp/server.rb:24-26 | an escaping exception becomes a raise in the transport; otherwise the handler's own writes and returned value pass through unchanged |
| `Session.HandledWritesProtocolMessages` | lib/mcp/server.rb:33-66 | one handled message writes only protocol messages, and at most two lines, two only for initialize |
| `Session.RunWritesProtocolMessages` | lib/mcp/server.rb:21-29 | a server run writes only the initialized notification and well-formed responses; it writes at most one line per delivered line plus one per initialize, whether it ends at end of input or with an exception |
| `Session.RunOfOneMessage` | lib/mcp/server.rb:21-29 | a run over one non-blank line that does not make the handler raise writes what handling that line writes |
| `Session.RunOfTwoMessages` | lib/mcp/server.rb:21-29 | the same for two lines, in order |
| `Session.InitializeWritesNotificationThenResponse` | lib/mcp/server.rb:48-54 | an initialize line writes the initialized notification first and then the initialize response |
| `Session.InitializedWritesNothing` | lib/mcp/server.rb:55-58 | an initialized line, even with an id, writes nothing |
| `Session.ListingTwiceAnswersAlike` | lib/mcp/server.rb:107-125 | two tools/list requests with the same id in a row get identical answers: the listing of the registered tools |

## Left out

- JSON text: the grammar of `JSON.parse` and the output of `JSON.generate` are not modelled. Parsing is the `parse` parameter. Each written value stands for the one line `JSON.generate` makes of it. Exceptions that `JSON.generate` or `to_s` could raise inside the `begin`/`rescue` of `handle_call_tool` are not modelled.
- JSON numbers with a fraction or exponent (Ruby Floats) are not modelled. Numbers are integers, so `Float#to_i` is not modelled either.
- JSON objects are maps. Key order and duplicate keys are left to the parser and the generator.
- I/O: reading STDIN and writing and flushing STDOUT become the input and output sequences. Logging and the log-level tweak in `RandomNumberServer#initialize` have no protocol meaning and are omitted.
- `Array#inspect`, `Hash#inspect` and `String#to_i` are Ruby library behaviour outside this code. They are given as the parameters `show` and `strToI`.
- Exception messages for `[]` and `to_i` on the wrong receiver use Ruby 3.3 wording. Other Ruby versions word them differently.
- Logging and re-raising in the transport's `rescue` (lib/mcp/transport.rb:39-42) appear only as the `Failed` outcome.
- `RandomNumberServer#run` and the process entry point are left out. `Server#run` is `Session.Run`.
- `attr_reader :tools` hands out the mutable Hash. Changing the registry from outside the server is not modelled.
- Tool names are Strings. Ruby would accept any object as a name.
- DrawNumber: `rand` is modelled as `1 + draw(max) % max` for a generator `draw` fixed per server. So in the model, two calls with the same effective max draw the same number. Only the range and the reachability of every value in it are stated.
- Transport.Start: the line-count bound is stated for handlers that write nothing themselves. For the real server, `Session.RunWritesProtocolMessages` states the bound, adding one line per `initialize`.
- Lines are modelled as decoded text. In Ruby, `line.strip` on a line holding an invalid byte sequence raises ArgumentError inside the loop's `begin` (lib/mcp/transport.rb:26, 39-42), so such a line ends the loop with an exception; the model cannot express such a line.
- Tool blocks are assumed to raise only StandardError. `rescue => e` (lib/mcp/server.rb:152) does not catch other exceptions, such as NotImplementedError, SystemExit or Interrupt; in Ruby these escape `handle_message` and the transport loop, while the model answers every raise with -32603.
- `run`'s default transport argument (lib/mcp/server.rb:21) is not modelled; `Session.Run` takes the transport explicitly.
- Transport.StartStopsAtRaise: Ruby's `loop do` (lib/mcp/transport.rb:19) rescues StopIteration, so a handler raising StopIteration ends `start` normally instead of failing. The model treats every raise alike. The server's own handler never lets StopIteration out, because it is a StandardError that `rescue => e` (lib/mcp/server.rb:152) catches; only the generic transport lemmas are affected.
- Transport.Step: a handler returning `false` writes nothing in Ruby (`if response`, lib/mcp/transport.rb:31). A reply in the model is a value or absent, so a `false` return cannot be written down; the server's handler returns Strings or nil.
