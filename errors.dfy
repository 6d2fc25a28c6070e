// The error kinds of src/lib.rs that the modelled core can raise.

module Errors {

  /** The text of a `ParseError`, kept as its parts instead of the formatted message. */
  datatype ParseMsg =
      // lexer: "Syntax error at line {row} column {col}"
    | LexSyntaxError(row: nat, col: nat)
      // lexer: "Unterminated {what} at line {row}, column {col}"
    | Unterminated(what: string, row: nat, col: nat)
      // parser: "Unexpected EOF at line {row}"
    | UnexpectedEof(row: nat)
      // parser: "Expected `{expected}` but found `{found}` at line {row} column {col}"
    | ExpectedButFound(expected: string, found: string, row: nat, col: nat)
      // parser: "Syntax error, unexpected `{found}` at line {row} column {col}"
    | SyntaxErrorUnexpected(found: string, row: nat, col: nat)
      // call arguments: "Unexpected `{found}` at line {row} column {col}"
    | UnexpectedToken(found: string, row: nat, col: nat)
      // cron specs: "Invalid cron spec: ..." (the parser library's report is not modelled)
    | InvalidCronSpec

  /** What `report_unknown_kwargs` and `notify` put in an `EffectError`. */
  datatype EffectMsg =
    | UnknownKeywords(context: string, unknown: set<string>, known: seq<string>)
    | NotificationFailed(reason: string)
    | NotificationFailedAndUnknownKeywords(reason: string, keywords: EffectMsg)

  datatype Error =
    | IOError(reason: string)
    | ScriptNotFoundError(name: string)
    | FetchError(reason: string)
    | RegexError(pattern: string)
    | ParseError(msg: ParseMsg)
    | ParseIntError
    | VariableNotFoundError(name: string)
    | JobNotFoundError
    | EffectError(effect: EffectMsg)
    | ValueOutOfRangeError
    | InvalidRangeError
    | HTTPDriverError(reason: string)
      // `String::replace_range` panics when the range ends past the string; the model
      // turns that panic into a failed run.
    | ReplaceRangePanic(start: nat, end: nat, len: nat)
      // The nesting of `run` instructions went deeper than the fuel of the model.
    | RecursionLimit
}
