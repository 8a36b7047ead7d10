/** `MCP::Tool`: an immutable record of a name, a description, an input
    schema and the block that executes the tool. */
module Tool {
  import opened JsonValue

  /** What calling a tool's block does: it returns a value, or it raises a
      StandardError with a message. */
  datatype ExecResult = Returned(value: Json) | Raised(message: string)

  /** The record has readers and no writers, so a datatype value (which
      cannot be updated in place) carries the same guarantee. */
  datatype Tool = Tool(name: string, description: string, inputSchema: Json, executor: Json -> ExecResult)

  /** `Tool.new(name, description, input_schema) { |args| ... }`. */
  function NewTool(name: string, description: string, inputSchema: Json, executor: Json -> ExecResult): (t: Tool)
    ensures t.name == name && t.description == description && t.inputSchema == inputSchema
    ensures forall args :: t.executor(args) == executor(args)
  {
    Tool(name, description, inputSchema, executor)
  }

  /** `execute(arguments)`: hands the arguments to the block and passes back
      whatever it does, a raise included; nothing is caught here. */
  function Execute(t: Tool, arguments: Json): (r: ExecResult)
    ensures r.Raised? <==> t.executor(arguments).Raised?
    ensures r.Returned? ==> r.value == t.executor(arguments).value
    ensures r.Raised? ==> r.message == t.executor(arguments).message
  {
    t.executor(arguments)
  }
}
