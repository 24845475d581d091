/**
 * The exec tool of the agent tool set: its descriptor and its `execute`
 * callback. The callback is a stub that spawns nothing; it rejects a request
 * without a command and otherwise echoes the request back as its result.
 */
module ExecTool {
  import opened Wrappers

  /** The tool's registered name. */
  const ExecToolName: string := "exec"
  const ExecToolLabel: string := "Exec"
  const ExecToolDescription: string := "Execute shell commands (minimal implementation)"

  /** The `type` tag of every content item the tool returns. */
  const TextType: string := "text"

  /** `details.error` of the rejection result. */
  const MissingCommandError: string := "command parameter is required"
  /** The content text of the rejection result. */
  const MissingCommandText: string := "Error: command parameter is required"
  /** The content text of an accepted request is this prefix followed by the command. */
  const EchoPrefix: string := "Exec tool called with command: "

  /** The keys of `details` in each branch. */
  const ErrorKey: string := "error"
  const CommandKey: string := "command"
  const ArgsKey: string := "args"
  const CwdKey: string := "cwd"
  const TimeoutKey: string := "timeoutSec"

  /**
   * The parameters of one call, as the tool's schema types them. The
   * timeout is a JavaScript number the tool only passes through, so its
   * type `T` is left opaque.
   */
  datatype ExecParams<T> = ExecParams(
    command: Option<string>,
    args: Option<seq<string>>,
    cwd: Option<string>,
    timeoutSec: Option<T>)

  /** A value stored under a key of `details`: the values the tool can put there. */
  datatype JsValue<T> = Undefined | Str(s: string) | StrArray(items: seq<string>) | Number(n: T)

  /** One element of `content`; `kind` is the source's `type` property. */
  datatype ContentItem = ContentItem(kind: string, text: string)

  /** What `execute` resolves to: display content and structured details. */
  datatype ToolResult<T> = ToolResult(content: seq<ContentItem>, details: map<string, JsValue<T>>)

  /** The descriptor `createExecTool` returns, without its schema and callback; `displayLabel` is its `label`. */
  datatype ToolInfo = ToolInfo(displayLabel: string, name: string, description: string)

  /** `createExecTool`: the descriptor, whose name is the exported constant. */
  function CreateExecTool(): (tool: ToolInfo)
    ensures tool.name == ExecToolName == "exec"
    ensures tool.displayLabel == "Exec"
  {
    ToolInfo(ExecToolLabel, ExecToolName, ExecToolDescription)
  }

  /** JavaScript's `!command` for a string that may be undefined. */
  predicate IsFalsy(command: Option<string>) {
    match command
    case None => true
    case Some(s) => s == ""
  }

  /** An optional property read into an object literal: absent becomes `undefined`. */
  function StringValue<T>(o: Option<string>): JsValue<T> {
    match o
    case None => Undefined
    case Some(s) => Str(s)
  }

  function StringsValue<T>(o: Option<seq<string>>): JsValue<T> {
    match o
    case None => Undefined
    case Some(a) => StrArray(a)
  }

  function NumberValue<T>(o: Option<T>): JsValue<T> {
    match o
    case None => Undefined
    case Some(n) => Number(n)
  }

  /** The fixed result for a request without a command. */
  function MissingCommandResult<T>(): ToolResult<T> {
    ToolResult([ContentItem(TextType, MissingCommandText)], map[ErrorKey := Str(MissingCommandError)])
  }

  /** The result for an accepted request: the command in text, the request in details. */
  function EchoResult<T>(command: string, params: ExecParams<T>): ToolResult<T> {
    ToolResult(
      [ContentItem(TextType, EchoPrefix + command)],
      map[CommandKey := Str(command),
          ArgsKey := StringsValue(params.args),
          CwdKey := StringValue(params.cwd),
          TimeoutKey := NumberValue(params.timeoutSec)])
  }

  /**
   * The `execute` callback. The call id and the abort signal are accepted
   * and ignored.
   */
  function Execute<T, S>(toolCallId: string, params: ExecParams<T>, signal: S): (r: ToolResult<T>)
    ensures |r.content| == 1 && r.content[0].kind == TextType
    ensures IsFalsy(params.command) <==> ErrorKey in r.details
    ensures IsFalsy(params.command) <==> CommandKey !in r.details
  {
    if IsFalsy(params.command) then
      MissingCommandResult()
    else
      EchoResult(params.command.value, params)
  }
}
