/**
 * Error values (types/error/SkError.java and its named subclasses) and the
 * host exceptions of the implementation, which the model reports as an explicit
 * outcome instead of letting them escape.
 */
module Errors {
  import opened Wrappers
  import opened Positions
  import opened Tokens

  /** An error value: its kind name, its span (null for nodes without one) and its message. */
  datatype SkError = SkError(name: string, start: Option<Position>, end: Option<Position>, details: string)

  /** The kind names of the three error classes of the pipeline's stages. SkLexingError is not part of this model; its name is taken to follow the other two. */
  const LexingError: string := "LexingError"
  const ParsingError: string := "ParsingError"
  const RuntimeError: string := "RuntimeError"

  /** The constructor from two positions. */
  function Spanning(name: string, start: Position, end: Position, details: string): (e: SkError)
    ensures e.start == Some(start) && e.end == Some(end)
    ensures e.name == name && e.details == details
  {
    SkError(name, Some(start), Some(end), details)
  }

  /** The constructor from a token: the span is the token's own. */
  function OfToken(name: string, token: Token, details: string): (e: SkError)
    ensures e.start == Some(token.start) && e.end == Some(token.end)
    ensures e.name == name && e.details == details
  {
    SkError(name, Some(token.start), Some(token.end), details)
  }

  /** `toString`: "name: details". */
  function ToString(e: SkError): (r: string)
    ensures |r| == |e.name| + 2 + |e.details|
    ensures r[..|e.name|] == e.name && r[|e.name|..|e.name| + 2] == ": " && r[|e.name| + 2..] == e.details
  {
    e.name + ": " + e.details
  }

  /** The Java exceptions the implementation can throw on the paths modelled here. */
  datatype Fault =
    | NullPointer
    | ClassCast
    | IndexOutOfBounds
    | NumberFormat(text: string)
    | IllegalArgument
    | Arithmetic
    | Unsupported(message: string)
    | StackOverflow
    | OutOfMemory

  /**
   * What running a piece of the implementation comes to: it completes with a
   * value, it throws, or it takes a path whose outcome this model does not
   * compute (floating point, or a class that is not part of the model), named
   * by `what`.
   */
  datatype Exec<T> = Normal(value: T) | Abrupt(fault: Fault) | Unmodelled(what: string)
}
