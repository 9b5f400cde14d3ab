/**
 * The result carrier of the parser (struct/result/ParseResult.java): the node
 * built, the error, and how many tokens this result has consumed.
 */
module ParseResults {
  import opened Wrappers
  import opened Errors
  import opened Ast

  import opened Tokens

  /**
   * Why a parse failed: a parsing error raised on a token, or an exception of
   * the implementation (a null dereference), which the model carries like an
   * error. A parsing error is kept as the token and what the parser complained
   * about; `Report` renders it as the error value the parser builds.
   */
  datatype ParseError = Syntax(at: Token, complaint: Complaint) | Thrown(fault: Fault)

  /** The complaints of the parser, one per message shape it builds. */
  datatype Complaint =
    | EndOfStatements          // a statement was expected, EOF was found
    | EndOfExpression          // an expression was expected, EOF was found
    | Missing(what: Wanted)    // a particular token was expected
    | VariableNameMissing      // `var` not followed by an identifier
    | ParameterNameMissing     // a parameter without a name
    | FactorMissing            // no atom starts here

  /** The tokens the parser insists on by name. */
  datatype Wanted = SemicolonMark | OpeningBracket | ClosingBracket | ClosingParen | OpeningBrace | ClosingBrace | FnKeyword | AnIdentifier

  /** How a wanted token is named in a message. */
  function WantedText(w: Wanted): (s: string)
    ensures |s| > 0
  {
    match w
    case SemicolonMark => "';'"
    case OpeningBracket => "'['"
    case ClosingBracket => "']'"
    case ClosingParen => "')'"
    case OpeningBrace => "'{'"
    case ClosingBrace => "'}'"
    case FnKeyword => "'fn'"
    case AnIdentifier => "identifier"
  }

  /** A token's rendering between single quotes, as the messages show it. */
  function Quoted(t: Token): (s: string)
    ensures |s| == |Tokens.ToString(t)| + 2 && s[0] == '\'' && s[|s| - 1] == '\''
    ensures s[1..|s| - 1] == Tokens.ToString(t)
  {
    "'" + Tokens.ToString(t) + "'"
  }

  /** `prefix + tail`, with where each part lands. */
  function Append(prefix: string, tail: string): (s: string)
    ensures |s| == |prefix| + |tail| && s[..|prefix|] == prefix && s[|prefix|..] == tail
  {
    prefix + tail
  }

  /**
   * The message text for a complaint about token `found`. Every message ends
   * with the token it was raised on, quoted, except the one of `var`, which
   * names only the kind of that token.
   */
  function Message(c: Complaint, found: Token): (s: string)
    ensures c != VariableNameMissing ==> |s| > |Quoted(found)| && s[|s| - |Quoted(found)|..] == Quoted(found)
    ensures c == VariableNameMissing ==> |s| > |found.kind.Name()| && s[|s| - |found.kind.Name()|..] == found.kind.Name()
  {
    match c
    case EndOfStatements => Append("Unexpected end of input: expected expression, found ", Quoted(found))
    case EndOfExpression => Append("Unexpected end of input: found ", Quoted(found))
    case Missing(w) => Append("Expected " + WantedText(w) + " but instead found ", Quoted(found))
    case VariableNameMissing => Append("Expected identifier but instead found ", found.kind.Name())
    case ParameterNameMissing => Append("Expected identifier, instead found ", Quoted(found))
    case FactorMissing => Append("Expected factor? but instead found ", Quoted(found))
  }

  /** The messages about a missing token name it after "Expected ". */
  lemma MissingNamesWanted(w: Wanted, found: Token)
    ensures var s := Message(Missing(w), found);
      |s| > 9 + |WantedText(w)| && s[..9] == "Expected " && s[9..9 + |WantedText(w)|] == WantedText(w)
  {
    var p := "Expected " + WantedText(w) + " but instead found ";
    assert p[..9] == "Expected ";
    assert p[9..9 + |WantedText(w)|] == WantedText(w);
  }

  /** The error value of a parsing error: a ParsingError spanning the token it was raised on. */
  function Report(at: Token, c: Complaint): (e: SkError)
    ensures e.name == ParsingError && e.start == Some(at.start) && e.end == Some(at.end)
    ensures e.details == Message(c, at)
  {
    Errors.OfToken(ParsingError, at, Message(c, at))
  }

  /**
   * A ParseResult object. The parser creates one per rule invocation, updates
   * it while the rule runs and hands it to the caller, which only reads it, so
   * no result is ever shared while it changes; it is modelled as a value that
   * each update replaces.
   */
  datatype ParseResult = ParseResult(result: Option<Node>, error: Option<ParseError>, advancements: int)
  {
    /** `success()`: no error has been recorded. */
    predicate Success()
    {
      error.None?
    }

    /**
     * `register(child)`: adds the child's advancements to this one's and takes
     * over the child's error when the child failed; the caller then reads the
     * child's node.
     */
    function Register(child: ParseResult): (r: ParseResult)
      ensures r.advancements == advancements + child.advancements
      ensures !child.Success() ==> r.error == child.error
      ensures child.Success() ==> r.error == error
      ensures r.result == result
    {
      ParseResult(result, if child.Success() then error else child.error, advancements + child.advancements)
    }

    /** `registerAdvancement()`: counts one consumed token. */
    function RegisterAdvancement(): (r: ParseResult)
      ensures r.advancements == advancements + 1
      ensures r.result == result && r.error == error
    {
      this.(advancements := advancements + 1)
    }

    /** `success(node)`: records the node; an error already present stays. */
    function SetSuccess(node: Option<Node>): (r: ParseResult)
      ensures r.result == node
      ensures r.error == error && r.advancements == advancements
    {
      this.(result := node)
    }

    /**
     * `failure(e)`: installs `e` unless an error is already present and this
     * result has consumed tokens, in which case the earlier error survives.
     */
    function Failure(e: ParseError): (r: ParseResult)
      ensures error.None? || advancements == 0 ==> r.error == Some(e)
      ensures error.Some? && advancements != 0 ==> r.error == error
      ensures r.result == result && r.advancements == advancements
    {
      if error.None? || advancements == 0 then this.(error := Some(e)) else this
    }
  }

  /** `new ParseResult()`: no node, no error, nothing consumed. */
  const Initial: ParseResult := ParseResult(None, None, 0)

  /**
   * Once a result has failed, nothing clears its error: registering a child,
   * counting a token, recording a node and a further failure all leave it failed.
   * A later failure replaces the error only while nothing has been consumed.
   */
  lemma FailureIsSticky(r: ParseResult, child: ParseResult, node: Option<Node>, e: ParseError)
    requires !r.Success()
    ensures !r.Register(child).Success() && !r.RegisterAdvancement().Success()
    ensures !r.SetSuccess(node).Success() && !r.Failure(e).Success()
    ensures r.Failure(e).error == (if r.advancements == 0 then Some(e) else r.error)
  {
  }

  /** Counting through a child: the advancements of the children registered add up, whatever their outcomes. */
  lemma RegisterCounts(r: ParseResult, a: ParseResult, b: ParseResult)
    ensures r.Register(a).Register(b).advancements == r.advancements + a.advancements + b.advancements
    ensures !b.Success() ==> r.Register(a).Register(b).error == b.error
    ensures b.Success() ==> r.Register(a).Register(b).error == r.Register(a).error
  {
  }
}
