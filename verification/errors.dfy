/**
  The three error classes of the library. Each is a separate constructor,
  so no kind is a special case of another; the message each one carries is
  given by `Message`.
*/
module Errors {
  import opened Wrappers

  datatype Error =
    | MissingParamError(param: string)
    | InvalidParamError(param: string)
      /** Built from the `stderr` of a failed child process, `undefined` when there is none. */
    | CommandError(stderr: Option<string>)

  /** What the outcome of a check-only step is: nothing, or the error it throws. */
  datatype Outcome = Pass | Fail(error: Error)

  /** A value, or the error thrown instead of it. */
  datatype Result<+T> = Ok(value: T) | Err(error: Error)

  const MISSING_PREFIX: string := "missing param - "
  const INVALID_PREFIX: string := "invalid param - "

  /** The `message` of the error object. */
  function Message(e: Error): string {
    match e
    case MissingParamError(name) => MISSING_PREFIX + name
    case InvalidParamError(name) => INVALID_PREFIX + name
    case CommandError(stderr) =>
      match stderr
      case Some(text) => text
      case None => "undefined"   // `${undefined}`
  }

  /**
    Reads a parameter error back from its message: the inverse of `Message`
    on the two parameter kinds.
  */
  function ParseParamMessage(m: string): (r: Option<Error>)
    ensures r.Some? ==> !r.value.CommandError? && Message(r.value) == m
  {
    if |m| >= |MISSING_PREFIX| && m[..|MISSING_PREFIX|] == MISSING_PREFIX then
      Some(MissingParamError(m[|MISSING_PREFIX|..]))
    else if |m| >= |INVALID_PREFIX| && m[..|INVALID_PREFIX|] == INVALID_PREFIX then
      Some(InvalidParamError(m[|INVALID_PREFIX|..]))
    else
      None
  }

  /** A parameter error's message names its kind and its parameter exactly. */
  lemma ParamMessageRoundTrip(e: Error)
    requires !e.CommandError?
    ensures ParseParamMessage(Message(e)) == Some(e)
  {
    var m := Message(e);
    if e.InvalidParamError? {
      assert m[0] == 'i';
      assert MISSING_PREFIX[0] == 'm';
    }
  }

  /** The two parameter kinds never produce the same message. */
  lemma ParamMessagesDiffer(missing: string, invalid: string)
    ensures Message(MissingParamError(missing)) != Message(InvalidParamError(invalid))
  {
    assert Message(MissingParamError(missing))[0] == 'm';
    assert Message(InvalidParamError(invalid))[0] == 'i';
  }

  /** A command error's message is its stderr verbatim, or "undefined" without one. */
  lemma CommandMessage(stderr: Option<string>)
    ensures stderr.None? ==> Message(CommandError(stderr)) == "undefined"
    ensures stderr.Some? ==> Message(CommandError(stderr)) == stderr.value
  {
  }
}
