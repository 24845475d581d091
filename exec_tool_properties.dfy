/**
 * What the `execute` callback promises, stated against two readers of its
 * result: one that recovers the request from `details`, and one that
 * recovers the command from the display text.
 */
module ExecToolProperties {
  import opened Wrappers
  import opened ExecTool

  /** The keys of `details` for an accepted request. */
  function EchoKeys(): set<string> {
    {CommandKey, ArgsKey, CwdKey, TimeoutKey}
  }

  /**
   * Reads back an optional string property: `Some(None)` for `undefined`,
   * `Some(Some(s))` for a string, and `None` for a value of any other kind.
   */
  function ReadString<T>(v: JsValue<T>): (r: Option<Option<string>>)
    ensures r.Some? <==> v.Undefined? || v.Str?
    ensures r.Some? ==> StringValue(r.value) == v
  {
    match v
    case Undefined => Some(None)
    case Str(s) => Some(Some(s))
    case _ => None
  }

  /** Reads back an optional string-array property, strictly as `ReadString` does. */
  function ReadStrings<T>(v: JsValue<T>): (r: Option<Option<seq<string>>>)
    ensures r.Some? <==> v.Undefined? || v.StrArray?
    ensures r.Some? ==> StringsValue(r.value) == v
  {
    match v
    case Undefined => Some(None)
    case StrArray(a) => Some(Some(a))
    case _ => None
  }

  /** Reads back an optional number property, strictly as `ReadString` does. */
  function ReadNumber<T>(v: JsValue<T>): (r: Option<Option<T>>)
    ensures r.Some? <==> v.Undefined? || v.Number?
    ensures r.Some? ==> NumberValue(r.value) == v
  {
    match v
    case Undefined => Some(None)
    case Number(n) => Some(Some(n))
    case _ => None
  }

  /**
   * The request an echo result reports, or `None` when the details are not
   * those of an accepted request: other keys, no command or an empty one,
   * or an optional field holding a value of the wrong kind.
   */
  function ReadRequest<T>(r: ToolResult<T>): (p: Option<ExecParams<T>>)
    ensures p.Some? ==> !IsFalsy(p.value.command)
  {
    if r.details.Keys == EchoKeys() && r.details[CommandKey].Str? && r.details[CommandKey].s != "" then
      var args := ReadStrings(r.details[ArgsKey]);
      var cwd := ReadString(r.details[CwdKey]);
      var timeout := ReadNumber(r.details[TimeoutKey]);
      if args.Some? && cwd.Some? && timeout.Some? then
        Some(ExecParams(Some(r.details[CommandKey].s), args.value, cwd.value, timeout.value))
      else
        None
    else
      None
  }

  /** The command named by a display text of the echo form, if it has that form. */
  function ReadCommandFromText(text: string): (c: Option<string>)
    ensures c.Some? ==> EchoPrefix + c.value == text
  {
    if EchoPrefix <= text then Some(text[|EchoPrefix|..]) else None
  }

  /** The message of a rejection result, if it is one. */
  function ReadError<T>(r: ToolResult<T>): Option<string> {
    if r.details.Keys == {ErrorKey} && r.details[ErrorKey].Str? then Some(r.details[ErrorKey].s) else None
  }

  // ---------------------------------------------------------------------
  // The rejection branch

  /** A missing command gives the fixed error text and `details.error`, and nothing else. */
  lemma MissingCommandRejected<T, S>(id: string, params: ExecParams<T>, signal: S)
    requires params.command.None?
    ensures Execute(id, params, signal).content == [ContentItem("text", "Error: command parameter is required")]
    ensures Execute(id, params, signal).details == map["error" := Str("command parameter is required")]
  {
  }

  /** An empty command is rejected exactly like a missing one, whatever the other fields. */
  lemma EmptyCommandLikeMissing<T, S>(id: string, params: ExecParams<T>, signal: S)
    requires params.command == Some("")
    ensures Execute(id, params, signal) == Execute(id, params.(command := None), signal)
    ensures ReadError(Execute(id, params, signal)) == Some(MissingCommandError)
  {
  }

  /** The rejection echoes no request field: its details hold the error key alone. */
  lemma RejectionEchoesNothing<T, S>(id: string, params: ExecParams<T>, signal: S)
    requires IsFalsy(params.command)
    ensures Execute(id, params, signal).details.Keys == {"error"}
    ensures ReadRequest(Execute(id, params, signal)) == None
    ensures ReadCommandFromText(Execute(id, params, signal).content[0].text) == None
  {
    // "Error: ..." and "Exec tool ..." part at their second character.
    assert MissingCommandText[1] != EchoPrefix[1];
  }

  // ---------------------------------------------------------------------
  // The echo branch

  /** An accepted command's text is the prefix followed by exactly that command. */
  lemma EchoTextNamesCommand<T, S>(id: string, params: ExecParams<T>, signal: S)
    requires !IsFalsy(params.command)
    ensures Execute(id, params, signal).content[0].text == "Exec tool called with command: " + params.command.value
    ensures ReadCommandFromText(Execute(id, params, signal).content[0].text) == params.command
  {
  }

  /** The details of an accepted request give back the request exactly, absent fields absent. */
  lemma EchoDetailsRoundTrip<T, S>(id: string, params: ExecParams<T>, signal: S)
    requires !IsFalsy(params.command)
    ensures Execute(id, params, signal).details.Keys == {"command", "args", "cwd", "timeoutSec"}
    ensures ReadRequest(Execute(id, params, signal)) == Some(params)
    ensures ReadError(Execute(id, params, signal)) == None
  {
  }

  /** Which branch was taken can be read off the result, in both directions. */
  lemma BranchReadable<T, S>(id: string, params: ExecParams<T>, signal: S)
    ensures ReadError(Execute(id, params, signal)).Some? <==> IsFalsy(params.command)
    ensures ReadRequest(Execute(id, params, signal)).Some? <==> !IsFalsy(params.command)
  {
  }

  /** Two accepted requests with the same result are the same request. */
  lemma EchoInjective<T, S>(id1: string, p1: ExecParams<T>, s1: S, id2: string, p2: ExecParams<T>, s2: S)
    requires !IsFalsy(p1.command) && !IsFalsy(p2.command)
    requires Execute(id1, p1, s1) == Execute(id2, p2, s2)
    ensures p1 == p2
  {
    EchoDetailsRoundTrip(id1, p1, s1);
    EchoDetailsRoundTrip(id2, p2, s2);
  }

  /** Two accepted requests with the same display text name the same command. */
  lemma EchoTextInjective<T, S>(id1: string, p1: ExecParams<T>, s1: S, id2: string, p2: ExecParams<T>, s2: S)
    requires !IsFalsy(p1.command) && !IsFalsy(p2.command)
    requires Execute(id1, p1, s1).content[0].text == Execute(id2, p2, s2).content[0].text
    ensures p1.command == p2.command
  {
    var c1, c2 := p1.command.value, p2.command.value;
    assert c1 == (EchoPrefix + c1)[|EchoPrefix|..];
    assert c2 == (EchoPrefix + c2)[|EchoPrefix|..];
  }

  /**
   * Whatever result the details reader accepts as reporting a request has
   * exactly the details `execute` builds for that request: every absent
   * field is stored as `undefined`, every present one as itself.
   */
  lemma ReadRequestDeterminesDetails<T, S>(id: string, r: ToolResult<T>, signal: S)
    requires ReadRequest(r).Some?
    ensures r.details == Execute(id, ReadRequest(r).value, signal).details
  {
  }

  // ---------------------------------------------------------------------
  // Both branches

  /** The result depends on the parameters only, not on the call id or the signal. */
  lemma ExecuteIgnoresCallContext<T, S>(id1: string, s1: S, id2: string, s2: S, params: ExecParams<T>)
    ensures Execute(id1, params, s1) == Execute(id2, params, s2)
  {
  }
}
