# Exec tool: a Dafny model

This project models the exec tool of the agent's tool set
(`src/agents/tools/exec-tool.ts`). It covers the tool's descriptor and its
`execute` callback. The callback is a stub. It spawns no process and checks
no policy. It does two things:

- It rejects a request whose `command` is missing or empty. The result is a
  fixed error text, and `details` holds only `error`.
- It accepts any other request. The text repeats the command, and `details`
  copies `command`, `args`, `cwd` and `timeoutSec` as supplied.

`ExecTool` (exec_tool.dfy) defines the request, the result and `Execute`.
The parameters are a datatype, since the tool's schema has already typed
them. A missing optional field is `None`. `details` is a map from property
name to value. An optional field that was not supplied keeps its key, with
the value `Undefined`, as the JavaScript object literal does. The timeout
is a JavaScript number that the tool only passes through, so its type is
a type parameter. The call id and the abort signal are parameters that the
body does not use.

`ExecToolProperties` (exec_tool_properties.dfy) states what the callback
promises. It does this against two readers of a result. `ReadRequest`
recovers the request from `details`. It is strict: a field must hold
`undefined` or a value of its own kind. `ReadCommandFromText` recovers the
command from the display text. The lemmas prove round trips through both
readers. They also prove that the two branches can be told apart and that
an accepted result determines its request.

The file's header comment (`src/agents/tools/exec-tool.ts:5-10`) calls this
a minimal implementation. Its TODO says that error handling, timeout support
and security validations are still missing. The model covers only what the
code does.

## Model

| member | source | states |
|---|---|---|
| ExecTool.CreateExecTool | src/agents/tools/exec-tool.ts:13-27 | the descriptor's name is the exported constant `execToolName`, which is "exec", and its label is "Exec" |
| ExecTool.Execute | src/agents/tools/exec-tool.ts:28-55 | in both branches the content has exactly one item, of type "text"; `details` has an `error` key exactly when the command is falsy, and a `command` key exactly when it is not |
| ExecToolProperties.MissingCommandRejected | src/agents/tools/exec-tool.ts:32-42 | an undefined command gives the content text "Error: command parameter is required" and `details` equal to `{ error: "command parameter is required" }` |
| ExecToolProperties.EmptyCommandLikeMissing | src/agents/tools/exec-tool.ts:32-33 | an empty-string command gives the same result as an undefined one (JavaScript falsiness), and that result reads back as the missing-command error |
| ExecToolProperties.RejectionEchoesNothing | src/agents/tools/exec-tool.ts:34-42 | for any falsy command, `details` holds the `error` key alone; no request can be read back from the result, and its text is not of the echo form |
| ExecToolProperties.EchoTextNamesCommand | src/agents/tools/exec-tool.ts:45-51 | for a non-empty command, the text is exactly "Exec tool called with command: " followed by the command, and reading the command back from that text gives the command |
| ExecToolProperties.EchoDetailsRoundTrip | src/agents/tools/exec-tool.ts:53 | for a non-empty command, `details` has exactly the keys command, args, cwd and timeoutSec, and the strict reader gives the request back unchanged; an absent field reads back as absent only when its value is `undefined`; it carries no error |
| ExecToolProperties.ReadRequestDeterminesDetails | src/agents/tools/exec-tool.ts:53 | any result from which the reader recovers a request has exactly the `details` that `execute` builds for that request, so each absent field is stored as `undefined` and each present one as itself |
| ExecToolProperties.BranchReadable | src/agents/tools/exec-tool.ts:33-54 | an error can be read from the result if and only if the command is falsy, and a request can be read from it if and only if the command is not falsy |
| ExecToolProperties.EchoInjective | src/agents/tools/exec-tool.ts:46-54 | two accepted requests that give equal results are equal |
| ExecToolProperties.EchoTextInjective | src/agents/tools/exec-tool.ts:46-51 | two accepted requests whose results have the same display text have the same command |
| ExecToolProperties.ExecuteIgnoresCallContext | src/agents/tools/exec-tool.ts:28-54 | the result depends only on the parameters, not on the tool call id or the abort signal, so the same parameters always give the same result |

## Left out

- The `logWarn` call (src/agents/tools/exec-tool.ts:30) is left out. It is a logging side effect and does not affect the result.
- The TypeBox schema `ExecToolSchema` and the `AnyAgentTool` interface are left out. They are framework type plumbing. The model takes the parameters as already typed. A `command` of another JavaScript type, which the unchecked cast would let through, is not modelled.
- The descriptor's `parameters` and `execute` properties are not fields of `ToolInfo`. The callback is modelled as `Execute`.
- The `async` Promise wrapper and the abort signal are left out. No cancellation logic exists; the signal is an unused parameter.
- `timeoutSec` is opaque. It is a floating-point number that is only passed through, so no arithmetic on it is modelled.
- Process execution, timeouts, approval, command policy, working-directory checks and output truncation are left out. The source does not implement them.
