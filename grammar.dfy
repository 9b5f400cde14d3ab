/**
 * What the recursive-descent parser (parse/Parser.java) computes, as
 * functions over the token list and a cursor index. Each function returns the
 * outcome of the corresponding parser method and where the cursor stands after
 * it; the Parser class in parser.dfy is proved to compute exactly these.
 *
 * The cursor may move one place past the last token (the loops over argument
 * and parameter lists advance before they look); the current token then stays
 * the last one, EOF.
 */
module Grammar {
  import opened Wrappers
  import opened Positions
  import opened Tokens
  import opened Errors
  import opened Ast
  import opened ParseResults

  /**
   * The token lists the parser is given: non-empty and ending with EOF. The lexer's
   * output also has no other EOF (`LexingProperties.LexEndsWithSingleEof`).
   */
  predicate WellFormed(ts: seq<Token>)
  {
    |ts| > 0 && ts[|ts| - 1].kind == EOF
  }

  /** `currentToken` once the index is `i`: the token there, or the last one past the end. */
  function Cur(ts: seq<Token>, i: nat): (t: Token)
    requires |ts| > 0
    ensures i < |ts| ==> t == ts[i]
    ensures i >= |ts| ==> t == ts[|ts| - 1]
  {
    if i < |ts| then ts[i] else ts[|ts| - 1]
  }

  /** `isCurrentTokenType`. */
  predicate Is(ts: seq<Token>, i: nat, kind: TokenType)
    requires |ts| > 0
  {
    Cur(ts, i).kind == kind
  }

  /** Only the last token is EOF, so a current token that is not EOF has a successor. */
  lemma BeforeEnd(ts: seq<Token>, i: nat)
    requires WellFormed(ts) && !Is(ts, i, EOF)
    ensures i < |ts| - 1
  {
  }

  /** `isCurrentTokenKeyword` when it does not throw: a keyword token with that text. */
  predicate IsKeyword(ts: seq<Token>, i: nat, word: string)
    requires |ts| > 0
  {
    Cur(ts, i).kind == Keyword && Cur(ts, i).value == Some(word)
  }

  /** `isCurrentTokenKeyword` dereferences the value of a keyword token; a keyword without one throws. */
  predicate KeywordWithoutText(ts: seq<Token>, i: nat)
    requires |ts| > 0
  {
    Cur(ts, i).kind == Keyword && Cur(ts, i).value.None?
  }

  /** `isCurrentTokenIn`: never at EOF. */
  predicate IsIn(ts: seq<Token>, i: nat, kinds: seq<TokenType>)
    requires |ts| > 0
  {
    Cur(ts, i).kind != EOF && Cur(ts, i).kind in kinds
  }

  datatype Outcome<T> = Ok(value: T) | Fail(error: ParseError)

  /** An outcome and where the cursor stands afterwards. */
  datatype Parsed<T> = Parsed(outcome: Outcome<T>, next: nat)

  /**
   * The parser never moves the cursor backwards nor more than one place past
   * the end, and a successful parse consumes at least one token and stops on
   * a real token.
   */
  predicate Consumes<T>(ts: seq<Token>, i: nat, r: Parsed<T>)
  {
    i <= r.next <= |ts| && (r.outcome.Ok? ==> i < r.next < |ts|)
  }

  /** At EOF the expression rules fail without consuming anything. */
  predicate StopsAtEnd<T>(ts: seq<Token>, i: nat, r: Parsed<T>)
    requires |ts| > 0
  {
    Is(ts, i, EOF) ==> r.outcome.Fail? && r.next == i
  }

  /** The grammar levels that `binaryOperationNode` is handed as suppliers. */
  datatype Level = AtomLevel | FactorLevel | TermLevel | ArithmeticLevel | ComparisonLevel

  /** Termination rank of a level's rule, for calls that do not advance the cursor. */
  function LevelRank(l: Level): (n: nat)
    ensures n >= 4
  {
    match l
    case AtomLevel => 4
    case FactorLevel => 8
    case TermLevel => 11
    case ArithmeticLevel => 14
    case ComparisonLevel => 17
  }

  /** The comparison operators of `compExpr`. */
  const Comparisons: seq<TokenType> := [Eq, Neq, Gtr, Geq, Lss, Leq]

  /** The operators of `arithmetic`. */
  const Additions: seq<TokenType> := [Plus, Minus]

  /** The operators of `expression`. */
  const Connectives: seq<TokenType> := [And, Or]

  /** `parse`: an empty program gives a null node; otherwise the statements up to EOF. */
  function Parse(ts: seq<Token>): (r: Parsed<Option<Node>>)
    requires WellFormed(ts)
    ensures Is(ts, 0, EOF) ==> r == Parsed(Ok(None), 0)
    ensures r.outcome.Ok? && !Is(ts, 0, EOF) ==> r.outcome.value.Some? && Is(ts, r.next, EOF)
  {
    if Is(ts, 0, EOF) then Parsed(Ok(None), 0) else Statements(ts, 0)
  }

  /** The do-while loop of `parse`: the first failure, else the last statement's result. */
  function Statements(ts: seq<Token>, i: nat): (r: Parsed<Option<Node>>)
    requires WellFormed(ts) && i <= |ts|
    ensures i <= r.next <= |ts|
    ensures r.outcome.Ok? ==> r.outcome.value.Some? && Is(ts, r.next, EOF)
    decreases |ts| - i
  {
    var s := Primary(ts, i);
    match s.outcome
    case Fail(e) => Parsed(Fail(e), s.next)
    case Ok(n) => if Is(ts, s.next, EOF) then Parsed(Ok(Some(n)), s.next) else Statements(ts, s.next)
  }

  /** `primaryExpression`: a function, variable, scope or expression statement, then ';'. */
  function Primary(ts: seq<Token>, i: nat): (r: Parsed<Node>)
    requires WellFormed(ts) && i <= |ts|
    ensures Consumes(ts, i, r) && StopsAtEnd(ts, i, r)
    ensures r.outcome.Ok? ==> ts[r.next - 1].kind == Semicolon
    decreases |ts| + 1 - i, 24
  {
    if Is(ts, i, EOF) then
      Parsed(Fail(Syntax(Cur(ts, i), EndOfStatements)), i)
    else if KeywordWithoutText(ts, i) then
      Parsed(Fail(Thrown(NullPointer)), i)
    else
      var body := Statement(ts, i);
      match body.outcome
      case Fail(e) => Parsed(Fail(e), body.next)
      case Ok(node) =>
        if !Is(ts, body.next, Semicolon) then
          Parsed(Fail(Syntax(Cur(ts, body.next), Missing(SemicolonMark))), body.next)
        else
          BeforeEnd(ts, body.next);
          Parsed(Ok(node), body.next + 1)
  }

  /** The statement forms of `primaryExpression`, chosen on the current token. */
  function Statement(ts: seq<Token>, i: nat): (r: Parsed<Node>)
    requires WellFormed(ts) && i <= |ts| && !Is(ts, i, EOF) && !KeywordWithoutText(ts, i)
    ensures Consumes(ts, i, r)
    decreases |ts| + 1 - i, 23
  {
    if IsKeyword(ts, i, "fn") then DefineFunction(ts, i)
    else if IsKeyword(ts, i, "var") then DefineVariable(ts, i)
    else if Is(ts, i, LBrace) then Scope(ts, i)
    else Expression(ts, i)
  }

  /** `defineVariable`, entered on the `var` keyword. */
  function DefineVariable(ts: seq<Token>, i: nat): (r: Parsed<Node>)
    requires WellFormed(ts) && i <= |ts| && !Is(ts, i, EOF)
    ensures Consumes(ts, i, r)
    decreases |ts| + 1 - i, 19
  {
    BeforeEnd(ts, i);
    if !Is(ts, i + 1, Identifier) then
      Parsed(Fail(Syntax(Cur(ts, i + 1), VariableNameMissing)), i + 1)
    else
      var name := Cur(ts, i + 1);
      BeforeEnd(ts, i + 1);
      if Is(ts, i + 2, Equals) then
        BeforeEnd(ts, i + 2);
        var value := Expression(ts, i + 3);
        match value.outcome
        case Fail(e) => Parsed(Fail(e), value.next)
        case Ok(v) => Parsed(Ok(TokenNode(name, VarAssignNode(name, Some(v)))), value.next)
      else Parsed(Ok(TokenNode(name, VarAssignNode(name, None))), i + 2)
  }

  /** `defineFunction`: `fn NAME`, an optional parameter list, then ';' or a braced scope. */
  function DefineFunction(ts: seq<Token>, i: nat): (r: Parsed<Node>)
    requires WellFormed(ts) && i <= |ts| && !Is(ts, i, EOF)
    ensures Consumes(ts, i, r)
    decreases |ts| + 1 - i, 21
  {
    BeforeEnd(ts, i);
    if KeywordWithoutText(ts, i) then Parsed(Fail(Thrown(NullPointer)), i)
    else if !IsKeyword(ts, i, "fn") then
      Parsed(Fail(Syntax(Cur(ts, i), Missing(FnKeyword))), i)
    else if !Is(ts, i + 1, Identifier) then
      Parsed(Fail(Syntax(Cur(ts, i + 1), Missing(AnIdentifier))), i + 1)
    else
      var name := Cur(ts, i + 1);
      BeforeEnd(ts, i + 1);
      var params := ParameterList(ts, i + 2);
      match params.outcome
      case Fail(e) => Parsed(Fail(e), params.next)
      case Ok(p) => FunctionBody(ts, params.next, name, p)
  }

  /** The end of `defineFunction`: ';' for an empty body, else a braced scope. */
  function FunctionBody(ts: seq<Token>, i: nat, name: Token, params: seq<Node>): (r: Parsed<Node>)
    requires WellFormed(ts) && i < |ts|
    ensures Consumes(ts, i, r)
    decreases |ts| + 1 - i, 21
  {
    if Is(ts, i, Semicolon) then
      BeforeEnd(ts, i);
      Parsed(Ok(FunctionDefine(name, params, Ast.Scope([]))), i + 1)
    else
      var body := StrictScope(ts, i);
      match body.outcome
      case Fail(e) => Parsed(Fail(e), body.next)
      case Ok(b) => Parsed(Ok(FunctionDefine(name, params, b)), body.next)
  }

  /** The optional parenthesised parameter list of `defineFunction`. */
  function ParameterList(ts: seq<Token>, i: nat): (r: Parsed<seq<Node>>)
    requires WellFormed(ts) && i < |ts|
    ensures i <= r.next <= |ts| && (r.outcome.Ok? ==> r.next < |ts|)
    decreases |ts| + 1 - i, 1
  {
    if !Is(ts, i, LParen) then Parsed(Ok([]), i)
    else
      var ps := Parameters(ts, i, []);
      match ps.outcome
      case Fail(e) => ps
      case Ok(p) =>
        if !Is(ts, ps.next, RParen) then
          Parsed(Fail(Syntax(Cur(ts, ps.next), Missing(ClosingParen))), ps.next)
        else Parsed(Ok(p), ps.next + 1)
  }

  /**
   * The parameter loop of `defineFunction`, standing on '(' or on the token
   * after a parameter: it advances first and stops on ')'.
   */
  function Parameters(ts: seq<Token>, i: nat, acc: seq<Node>): (r: Parsed<seq<Node>>)
    requires WellFormed(ts) && i < |ts|
    ensures i <= r.next <= |ts| && (r.outcome.Ok? ==> r.next < |ts|)
    decreases |ts| + 1 - i, 0
  {
    if Is(ts, i, RParen) then Parsed(Ok(acc), i)
    else if Is(ts, i + 1, RParen) then Parsed(Ok(acc), i + 1)
    else
      var p := Parameter(ts, i + 1);
      match p.outcome
      case Fail(e) => Parsed(Fail(e), p.next)
      case Ok(node) => Parameters(ts, p.next, acc + [node])
  }

  /** One turn of the parameter loop that parses a parameter. */
  lemma ParametersStep(ts: seq<Token>, i: nat, acc: seq<Node>)
    requires WellFormed(ts) && i < |ts| && !Is(ts, i, RParen) && !Is(ts, i + 1, RParen)
    ensures var p := Parameter(ts, i + 1);
      p.outcome.Ok? ==> Parameters(ts, i, acc) == Parameters(ts, p.next, acc + [p.outcome.value])
    ensures var p := Parameter(ts, i + 1);
      p.outcome.Fail? ==> Parameters(ts, i, acc) == Parsed(Fail(p.outcome.error), p.next)
  {
  }

  /** The parameter loop stops on ')' where it stands, or on ')' right after it. */
  lemma ParametersStop(ts: seq<Token>, i: nat, acc: seq<Node>)
    requires WellFormed(ts) && i < |ts|
    ensures Is(ts, i, RParen) ==> Parameters(ts, i, acc) == Parsed(Ok(acc), i)
    ensures !Is(ts, i, RParen) && Is(ts, i + 1, RParen) ==> Parameters(ts, i, acc) == Parsed(Ok(acc), i + 1)
  {
  }

  /** `functionParameter`: an optional '...', a name, and '=' with a default value. */
  function Parameter(ts: seq<Token>, i: nat): (r: Parsed<Node>)
    requires WellFormed(ts) && i <= |ts|
    ensures Consumes(ts, i, r)
    decreases |ts| + 1 - i, 1
  {
    if Is(ts, i, Spread) then NamedParameter(ts, i + 1, true) else NamedParameter(ts, i, false)
  }

  /** The rest of `functionParameter` after the optional '...': a name, then the default. */
  function NamedParameter(ts: seq<Token>, i: nat, spread: bool): (r: Parsed<Node>)
    requires WellFormed(ts) && i <= |ts|
    ensures Consumes(ts, i, r)
    decreases |ts| + 1 - i, 0
  {
    if !Is(ts, i, Identifier) then
      Parsed(Fail(Syntax(Cur(ts, i), ParameterNameMissing)), i)
    else ParameterDefault(ts, i + 1, Cur(ts, i), spread)
  }

  /** The rest of `functionParameter` after the name: '=' and a default value, or nothing. */
  function ParameterDefault(ts: seq<Token>, i: nat, name: Token, spread: bool): (r: Parsed<Node>)
    requires WellFormed(ts) && i <= |ts|
    ensures i <= r.next <= |ts| && (r.outcome.Ok? ==> r.next < |ts|)
    decreases |ts| + 1 - i, 0
  {
    if Is(ts, i, Equals) then
      var d := Expression(ts, i + 1);
      match d.outcome
      case Fail(e) => Parsed(Fail(e), d.next)
      case Ok(v) =>
        match FunctionParameter(name, Some(v), spread)
        case None => Parsed(Fail(Thrown(NullPointer)), d.next)
        case Some(n) => Parsed(Ok(n), d.next)
    else
      match FunctionParameter(name, None, spread)
      case None => Parsed(Fail(Thrown(NullPointer)), i)
      case Some(n) => Parsed(Ok(n), i)
  }

  /** `scope`: a braced scope, or else a single expression wrapped in a scope. */
  function Scope(ts: seq<Token>, i: nat): (r: Parsed<Node>)
    requires WellFormed(ts) && i <= |ts|
    ensures Consumes(ts, i, r)
    decreases |ts| + 1 - i, 22
  {
    if Is(ts, i, LBrace) then StrictScope(ts, i)
    else
      var e := Expression(ts, i);
      match e.outcome
      case Fail(_) => e
      case Ok(n) => Parsed(Ok(Ast.Scope([n])), e.next)
  }

  /** `strictScope`: '{', statements up to '}', '}'. */
  function StrictScope(ts: seq<Token>, i: nat): (r: Parsed<Node>)
    requires WellFormed(ts) && i <= |ts|
    ensures Consumes(ts, i, r)
    decreases |ts| + 1 - i, 19
  {
    if !Is(ts, i, LBrace) then
      Parsed(Fail(Syntax(Cur(ts, i), Missing(OpeningBrace))), i)
    else ScopeRest(ts, i + 1)
  }

  /** The rest of `strictScope` after '{': the statements, then '}'. */
  function ScopeRest(ts: seq<Token>, i: nat): (r: Parsed<Node>)
    requires WellFormed(ts) && i <= |ts|
    ensures i <= r.next <= |ts| && (r.outcome.Ok? ==> r.next < |ts|)
    decreases |ts| + 1 - i, 26
  {
    var body := ScopeBody(ts, i, []);
    match body.outcome
    case Fail(e) => Parsed(Fail(e), body.next)
    case Ok(stmts) =>
      if !Is(ts, body.next, RBrace) then
        Parsed(Fail(Syntax(Cur(ts, body.next), Missing(ClosingBrace))), body.next)
      else Parsed(Ok(Ast.Scope(stmts)), body.next + 1)
  }

  /** The statement loop of `strictScope`. */
  function ScopeBody(ts: seq<Token>, i: nat, acc: seq<Node>): (r: Parsed<seq<Node>>)
    requires WellFormed(ts) && i <= |ts|
    ensures i <= r.next <= |ts| && (r.outcome.Ok? ==> r.next < |ts|)
    decreases |ts| + 1 - i, 25
  {
    if Is(ts, i, RBrace) then Parsed(Ok(acc), i)
    else
      var s := Primary(ts, i);
      match s.outcome
      case Fail(e) => Parsed(Fail(e), s.next)
      case Ok(n) => ScopeBody(ts, s.next, acc + [n])
  }

  /** One turn of the statement loop of `strictScope`. */
  lemma ScopeBodyStep(ts: seq<Token>, i: nat, acc: seq<Node>)
    requires WellFormed(ts) && i <= |ts| && !Is(ts, i, RBrace)
    ensures var s := Primary(ts, i);
      s.outcome.Ok? ==> ScopeBody(ts, i, acc) == ScopeBody(ts, s.next, acc + [s.outcome.value])
    ensures var s := Primary(ts, i);
      s.outcome.Fail? ==> ScopeBody(ts, i, acc) == Parsed(Fail(s.outcome.error), s.next)
  {
  }

  /** `expression`: fails at EOF, else AND/OR over comparisons. */
  function Expression(ts: seq<Token>, i: nat): (r: Parsed<Node>)
    requires WellFormed(ts) && i <= |ts|
    ensures Consumes(ts, i, r) && StopsAtEnd(ts, i, r)
    decreases |ts| + 1 - i, 19
  {
    if Is(ts, i, EOF) then
      Parsed(Fail(Syntax(Cur(ts, i), EndOfExpression)), i)
    else Binary(ComparisonLevel, ComparisonLevel, Connectives, ts, i)
  }

  /** `compExpr`: a prefix NOT applied to a comparison expression, or comparisons over arithmetic. */
  function CompExpr(ts: seq<Token>, i: nat): (r: Parsed<Node>)
    requires WellFormed(ts) && i <= |ts|
    ensures Consumes(ts, i, r) && StopsAtEnd(ts, i, r)
    decreases |ts| + 1 - i, 16
  {
    if Is(ts, i, Not) then
      var token := Cur(ts, i);
      var operand := CompExpr(ts, i + 1);
      match operand.outcome
      case Fail(e) => Parsed(Fail(e), operand.next)
      case Ok(n) => Parsed(Ok(FromTokenTo(token, n, UnaryOperationNode(token, n))), operand.next)
    else Binary(ArithmeticLevel, ArithmeticLevel, Comparisons, ts, i)
  }

  /** `arithmetic`: PLUS/MINUS over terms. */
  function Arithmetic(ts: seq<Token>, i: nat): (r: Parsed<Node>)
    requires WellFormed(ts) && i <= |ts|
    ensures Consumes(ts, i, r) && StopsAtEnd(ts, i, r)
    decreases |ts| + 1 - i, 13
  {
    Binary(TermLevel, TermLevel, Additions, ts, i)
  }

  /** `term`: MULTIPLY/DIVIDE/MODULO over factors. */
  function Term(ts: seq<Token>, i: nat): (r: Parsed<Node>)
    requires WellFormed(ts) && i <= |ts|
    ensures Consumes(ts, i, r) && StopsAtEnd(ts, i, r)
    decreases |ts| + 1 - i, 10
  {
    Binary(FactorLevel, FactorLevel, BinaryOperators, ts, i)
  }

  /** `factor`: a unary PLUS/MINUS/NOT applied to a factor, or a power. */
  function Factor(ts: seq<Token>, i: nat): (r: Parsed<Node>)
    requires WellFormed(ts) && i <= |ts|
    ensures Consumes(ts, i, r) && StopsAtEnd(ts, i, r)
    decreases |ts| + 1 - i, 7
  {
    var token := Cur(ts, i);
    if token.kind in UnaryOperators then
      var operand := Factor(ts, i + 1);
      match operand.outcome
      case Fail(e) => Parsed(Fail(e), operand.next)
      case Ok(n) => Parsed(Ok(FromTokenTo(token, n, UnaryOperationNode(token, n))), operand.next)
    else Power(ts, i)
  }

  /** `power`: an atom, then POWER with a factor (not an atom) as right operand. */
  function Power(ts: seq<Token>, i: nat): (r: Parsed<Node>)
    requires WellFormed(ts) && i <= |ts|
    ensures Consumes(ts, i, r) && StopsAtEnd(ts, i, r)
    decreases |ts| + 1 - i, 6
  {
    Binary(AtomLevel, FactorLevel, PowerOperator, ts, i)
  }

  /** The rule a supplier stands for. */
  function Operand(level: Level, ts: seq<Token>, i: nat): (r: Parsed<Node>)
    requires WellFormed(ts) && i <= |ts|
    ensures Consumes(ts, i, r) && StopsAtEnd(ts, i, r)
    decreases |ts| + 1 - i, LevelRank(level)
  {
    match level
    case AtomLevel => Atom(ts, i)
    case FactorLevel => Factor(ts, i)
    case TermLevel => Term(ts, i)
    case ArithmeticLevel => Arithmetic(ts, i)
    case ComparisonLevel => CompExpr(ts, i)
  }

  /** `binaryOperationNode(first, second, ops)`: a left operand, then a left fold over `op operand` pairs. */
  function Binary(first: Level, second: Level, ops: seq<TokenType>, ts: seq<Token>, i: nat): (r: Parsed<Node>)
    requires WellFormed(ts) && i <= |ts|
    ensures Consumes(ts, i, r) && StopsAtEnd(ts, i, r)
    decreases |ts| + 1 - i, LevelRank(first) + 1
  {
    var left := Operand(first, ts, i);
    match left.outcome
    case Fail(e) => Parsed(Fail(e), left.next)
    case Ok(l) => BinaryRest(second, ops, ts, left.next, l)
  }

  /** The while loop of `binaryOperationNode`, with the tree built so far. */
  function BinaryRest(second: Level, ops: seq<TokenType>, ts: seq<Token>, i: nat, left: Node): (r: Parsed<Node>)
    requires WellFormed(ts) && i < |ts|
    ensures i <= r.next <= |ts| && (r.outcome.Ok? ==> r.next < |ts|)
    decreases |ts| + 1 - i, 0
  {
    if IsIn(ts, i, ops) then
      var op := Cur(ts, i);
      var right := Operand(second, ts, i + 1);
      match right.outcome
      case Fail(e) => Parsed(Fail(e), right.next)
      case Ok(n) => BinaryRest(second, ops, ts, right.next, BinaryOperation(left, op, n))
    else Parsed(Ok(left), i)
  }

  /** One turn of the while loop of `binaryOperationNode`. */
  lemma BinaryRestStep(second: Level, ops: seq<TokenType>, ts: seq<Token>, i: nat, left: Node)
    requires WellFormed(ts) && i < |ts| && IsIn(ts, i, ops)
    ensures var right := Operand(second, ts, i + 1);
      right.outcome.Ok? ==> BinaryRest(second, ops, ts, i, left) == BinaryRest(second, ops, ts, right.next, BinaryOperation(left, Cur(ts, i), right.outcome.value))
    ensures var right := Operand(second, ts, i + 1);
      right.outcome.Fail? ==> BinaryRest(second, ops, ts, i, left) == Parsed(Fail(right.outcome.error), right.next)
  {
  }

  /** The while loop of `binaryOperationNode` stops on a token that is not one of its operators. */
  lemma BinaryRestStop(second: Level, ops: seq<TokenType>, ts: seq<Token>, i: nat, left: Node)
    requires WellFormed(ts) && i < |ts| && !IsIn(ts, i, ops)
    ensures BinaryRest(second, ops, ts, i, left) == Parsed(Ok(left), i)
  {
  }

  /** `atom`: literals, identifier forms, a parenthesised expression or an array literal. */
  function Atom(ts: seq<Token>, i: nat): (r: Parsed<Node>)
    requires WellFormed(ts) && i <= |ts|
    ensures Consumes(ts, i, r) && StopsAtEnd(ts, i, r)
    decreases |ts| + 1 - i, 3
  {
    var token := Cur(ts, i);
    if token.kind in Numbers then Parsed(Ok(TokenNode(token, NumberNode(token))), i + 1)
    else if token.kind == Char then Parsed(Ok(TokenNode(token, CharNode(token))), i + 1)
    else if token.kind == String then Parsed(Ok(TokenNode(token, StringNode(token))), i + 1)
    else if token.kind == Identifier then IdentifierForms(ts, i)
    else if token.kind == LParen then Parenthesized(ts, i)
    else if token.kind == LBracket then ArrayLiteral(ts, i)
    else Parsed(Fail(Syntax(token, FactorMissing)), i)
  }

  /** The parenthesised expression of `atom`, entered on '('. */
  function Parenthesized(ts: seq<Token>, i: nat): (r: Parsed<Node>)
    requires WellFormed(ts) && i <= |ts| && Is(ts, i, LParen)
    ensures Consumes(ts, i, r)
    decreases |ts| + 1 - i, 1
  {
    var inner := Expression(ts, i + 1);
    match inner.outcome
    case Fail(e) => Parsed(Fail(e), inner.next)
    case Ok(n) =>
      if Is(ts, inner.next, RParen) then Parsed(Ok(n), inner.next + 1)
      else Parsed(Fail(Syntax(Cur(ts, inner.next), Missing(ClosingParen))), inner.next)
  }

  /** The identifier branch of `atom`: reassignment, element access, call, or plain access. */
  function IdentifierForms(ts: seq<Token>, i: nat): (r: Parsed<Node>)
    requires WellFormed(ts) && i <= |ts| && Is(ts, i, Identifier)
    ensures Consumes(ts, i, r)
    decreases |ts| + 1 - i, 1
  {
    var token := Cur(ts, i);
    if Is(ts, i + 1, Equals) then Reassignment(ts, i + 1, token)
    else if Is(ts, i + 1, LBracket) then ElementAccess(ts, i + 1, token)
    else if Is(ts, i + 1, LParen) then Call(ts, i + 1, token)
    else Parsed(Ok(TokenNode(token, VarAccessNode(token))), i + 1)
  }

  /** `NAME = value`, standing on '='. */
  function Reassignment(ts: seq<Token>, i: nat, name: Token): (r: Parsed<Node>)
    requires WellFormed(ts) && i <= |ts| && Is(ts, i, Equals)
    ensures Consumes(ts, i, r)
    decreases |ts| + 1 - i, 0
  {
    var value := Expression(ts, i + 1);
    match value.outcome
    case Fail(e) => Parsed(Fail(e), value.next)
    case Ok(v) => Parsed(Ok(FromTokenTo(name, v, VarReassignNode(name, v))), value.next)
  }

  /**
   * `NAME[element]`, standing on '['. The element is parsed as an expression
   * from the '[' on, so it is an array literal, and a ']' must follow it.
   */
  function ElementAccess(ts: seq<Token>, i: nat, name: Token): (r: Parsed<Node>)
    requires WellFormed(ts) && i <= |ts|
    ensures Consumes(ts, i, r)
    decreases |ts| + 1 - i, 20
  {
    var element := Expression(ts, i);
    match element.outcome
    case Fail(e) => Parsed(Fail(e), element.next)
    case Ok(el) =>
      if !Is(ts, element.next, RBracket) then
        Parsed(Fail(Syntax(Cur(ts, element.next), Missing(ClosingBracket))), element.next)
      else Parsed(Ok(FromTokenTo(name, el, ElementAccessNode(name, el))), element.next + 1)
  }

  /** `NAME(arguments)`, standing on '('. */
  function Call(ts: seq<Token>, i: nat, name: Token): (r: Parsed<Node>)
    requires WellFormed(ts) && i <= |ts| && Is(ts, i, LParen)
    ensures Consumes(ts, i, r)
    decreases |ts| + 1 - i, 1
  {
    var args := Arguments(RParen, ts, i, []);
    match args.outcome
    case Fail(e) => Parsed(Fail(e), args.next)
    case Ok(a) =>
      if !Is(ts, args.next, RParen) then
        Parsed(Fail(Syntax(Cur(ts, args.next), Missing(ClosingParen))), args.next)
      else Parsed(Ok(TokenNode(name, FunctionCallNode(name, a))), args.next + 1)
  }

  /**
   * The element loops of function calls and array literals, standing on the
   * opening bracket or on the token after an element: each step advances
   * first, whatever that token is, and the loop stops on `close`.
   */
  function Arguments(close: TokenType, ts: seq<Token>, i: nat, acc: seq<Node>): (r: Parsed<seq<Node>>)
    requires WellFormed(ts) && i < |ts| && close != EOF
    ensures i <= r.next <= |ts| && (r.outcome.Ok? ==> r.next < |ts|)
    decreases |ts| + 1 - i, 0
  {
    if Is(ts, i, close) then Parsed(Ok(acc), i)
    else if Is(ts, i + 1, close) then Parsed(Ok(acc), i + 1)
    else
      var e := Expression(ts, i + 1);
      match e.outcome
      case Fail(err) => Parsed(Fail(err), e.next)
      case Ok(n) => Arguments(close, ts, e.next, acc + [n])
  }

  /** One turn of the element loop that parses an element. */
  lemma ArgumentsStep(close: TokenType, ts: seq<Token>, i: nat, acc: seq<Node>)
    requires WellFormed(ts) && i < |ts| && close != EOF && !Is(ts, i, close) && !Is(ts, i + 1, close)
    ensures var e := Expression(ts, i + 1);
      e.outcome.Ok? ==> Arguments(close, ts, i, acc) == Arguments(close, ts, e.next, acc + [e.outcome.value])
    ensures var e := Expression(ts, i + 1);
      e.outcome.Fail? ==> Arguments(close, ts, i, acc) == Parsed(Fail(e.outcome.error), e.next)
  {
  }

  /** `arrayLiteral`: '[', elements, ']', spanning from the '[' to the ']'. */
  function ArrayLiteral(ts: seq<Token>, i: nat): (r: Parsed<Node>)
    requires WellFormed(ts) && i <= |ts|
    ensures Consumes(ts, i, r) && StopsAtEnd(ts, i, r)
    decreases |ts| + 1 - i, 2
  {
    if !Is(ts, i, LBracket) then
      Parsed(Fail(Syntax(Cur(ts, i), Missing(OpeningBracket))), i)
    else ArrayElements(ts, i)
  }

  /** The rest of `arrayLiteral`, standing on '[': the elements, then ']'. */
  function ArrayElements(ts: seq<Token>, i: nat): (r: Parsed<Node>)
    requires WellFormed(ts) && i <= |ts| && Is(ts, i, LBracket)
    ensures Consumes(ts, i, r)
    decreases |ts| + 1 - i, 1
  {
    var start := Cur(ts, i).start;
    var elements := Arguments(RBracket, ts, i, []);
    match elements.outcome
    case Fail(e) => Parsed(Fail(e), elements.next)
    case Ok(nodes) =>
      if !Is(ts, elements.next, RBracket) then
        Parsed(Fail(Syntax(Cur(ts, elements.next), Missing(ClosingBracket))), elements.next)
      else Parsed(Ok(Between(start, Cur(ts, elements.next).end, ArrayNode(nodes))), elements.next + 1)
  }
}
