/**
 * The parser (parse/Parser.java): a token list, a cursor index and the
 * current token, with one method per grammar rule. Every method hands back
 * the ParseResult it built and is proved to compute the corresponding
 * function of grammar.dfy; on top of that, each result's advancement count is
 * exactly the number of places the cursor moved.
 */
module Parsing {
  import opened Wrappers
  import opened Tokens
  import opened Errors
  import opened Ast
  import opened ParseResults
  import opened Grammar

  /** Whether a result holds exactly the outcome `o`. */
  predicate Reports(r: ParseResult, o: Outcome<Node>)
  {
    match o
    case Ok(n) => r.result == Some(n) && r.error.None?
    case Fail(e) => r.result.None? && r.error == Some(e)
  }

  /** The same for the result of `parse`, whose node may be null. */
  predicate ReportsProgram(r: ParseResult, o: Outcome<Option<Node>>)
  {
    match o
    case Ok(n) => r.result == n && r.error.None?
    case Fail(e) => r.result.None? && r.error == Some(e)
  }

  /** Whether a loop that counts on `r` has left in it the outcome `o` of collecting `nodes`. */
  predicate Collected(r: ParseResult, o: Outcome<seq<Node>>, nodes: seq<Node>)
  {
    r.result.None? &&
    match o
    case Ok(ns) => r.error.None? && nodes == ns
    case Fail(e) => r.error == Some(e)
  }

  /** One turn of the loop of `binaryOperationNode`, seen from the result of its right operand. */
  lemma TurnOutcome(second: Level, ops: seq<TokenType>, ts: seq<Token>, i: nat, left: Node, right: ParseResult, after: int)
    requires WellFormed(ts) && i < |ts| && IsIn(ts, i, ops)
    requires MatchesAt(right, Grammar.Operand(second, ts, i + 1), i + 1, after)
    ensures right.Success() ==>
      right.result.Some? && after < |ts| &&
      BinaryRest(second, ops, ts, i, left) == BinaryRest(second, ops, ts, after, BinaryOperation(left, Cur(ts, i), right.result.value))
    ensures !right.Success() ==> right.result.None? && Reports(right, BinaryRest(second, ops, ts, i, left).outcome) && after == BinaryRest(second, ops, ts, i, left).next
  {
    BinaryRestStep(second, ops, ts, i, left);
  }

  /**
   * The invariant of a Parser, over the values of its fields: the current
   * token is the one at the index, or the last one once the index is past the end.
   */
  ghost predicate Sound(tokens: seq<Token>, index: int, current: Token)
  {
    WellFormed(tokens) && 0 <= index && current == Cur(tokens, index)
  }

  /** Whether a fresh result `r` reports `p` and counted exactly the tokens consumed from `start` to `index`. */
  ghost predicate MatchesAt(r: ParseResult, p: Parsed<Node>, start: int, index: int)
  {
    Reports(r, p.outcome) && index == p.next && r.advancements == index - start
  }

  /** The same for a result that went on counting from `r0`. */
  ghost predicate Continues(r0: ParseResult, r: ParseResult, p: Parsed<Node>, start: int, index: int)
  {
    Reports(r, p.outcome) && index == p.next && r.advancements == r0.advancements + index - start
  }

  class Parser {
    const tokens: seq<Token>
    var index: int
    var current: Token


    /** The constructor, including its initial `advance(null)`, which counts nothing. */
    constructor (tokens: seq<Token>)
      requires WellFormed(tokens)
      ensures Sound(tokens, index, current) && this.tokens == tokens && index == 0
    {
      this.tokens := tokens;
      index := 0;
      current := tokens[0];
    }

    /** `advance(result)`: one place on, counted on the result; past the end the current token stays. */
    method Advance(result: ParseResult) returns (counted: ParseResult)
      requires Sound(tokens, index, current)
      modifies this
      ensures Sound(tokens, index, current) && index == old(index) + 1
      ensures counted == result.RegisterAdvancement()
    {
      counted := result.RegisterAdvancement();
      index := index + 1;
      if index < |tokens| {
        current := tokens[index];
      }
    }

    /** `parse`. */
    method Parse() returns (r: ParseResult)
      requires Sound(tokens, index, current) && index == 0
      modifies this
      ensures Sound(tokens, index, current)
      ensures ReportsProgram(r, Grammar.Parse(tokens).outcome) && index == Grammar.Parse(tokens).next
    {
      if current.kind == EOF {
        r := Initial.SetSuccess(None);
        return;
      }
      ghost var last: nat := index;
      r := PrimaryExpression();
      while r.Success() && current.kind != EOF
        invariant Sound(tokens, index, current) && last <= index <= |tokens|
        invariant Statements(tokens, last) == Grammar.Parse(tokens)
        invariant Reports(r, Primary(tokens, last).outcome) && index == Primary(tokens, last).next
        decreases |tokens| - last
      {
        last := index;
        r := PrimaryExpression();
      }
    }

    /** `primaryExpression`. */
    method PrimaryExpression() returns (r: ParseResult)
      requires Sound(tokens, index, current) && index <= |tokens|
      modifies this
      ensures Sound(tokens, index, current) && MatchesAt(r, Primary(tokens, old(index)), old(index), index)
      decreases |tokens| + 1 - index, 24
    {
      if current.kind == EOF {
        r := Initial.Failure(Syntax(current, EndOfStatements));
        return;
      }
      r := Initial;
      if current.kind == Keyword && current.value.None? {
        // isCurrentTokenKeyword dereferences the missing text
        r := r.Failure(Thrown(NullPointer));
        return;
      }
      var res := Statement();
      r := r.Register(res);
      if !r.Success() {
        return;
      }
      if current.kind != Semicolon {
        r := r.Failure(Syntax(current, Missing(SemicolonMark)));
        return;
      }
      r := Advance(r);
      r := r.SetSuccess(res.result);
    }

    /** The statement forms of `primaryExpression`, chosen on the current token. */
    method Statement() returns (r: ParseResult)
      requires Sound(tokens, index, current) && index <= |tokens|
      requires current.kind != EOF && !(current.kind == Keyword && current.value.None?)
      modifies this
      ensures Sound(tokens, index, current) && MatchesAt(r, Grammar.Statement(tokens, old(index)), old(index), index)
      decreases |tokens| + 1 - index, 23
    {
      if current.kind == Keyword && current.value == Some("fn") {
        r := DefineFunction();
      } else if current.kind == Keyword && current.value == Some("var") {
        r := DefineVariable();
      } else if current.kind == LBrace {
        r := Scope();
      } else {
        r := Expression();
      }
    }

    /** `expression`. */
    method Expression() returns (r: ParseResult)
      requires Sound(tokens, index, current) && index <= |tokens|
      modifies this
      ensures Sound(tokens, index, current) && MatchesAt(r, Grammar.Expression(tokens, old(index)), old(index), index)
      decreases |tokens| + 1 - index, 19
    {
      if current.kind == EOF {
        r := Initial.Failure(Syntax(current, EndOfExpression));
        return;
      }
      var nodeResult := Binary(ComparisonLevel, ComparisonLevel, Connectives);
      r := Initial.Register(nodeResult);
      if !r.Success() {
        return;
      }
      r := r.SetSuccess(nodeResult.result);
    }

    /** `compExpr`. */
    method CompExpr() returns (r: ParseResult)
      requires Sound(tokens, index, current) && index <= |tokens|
      modifies this
      ensures Sound(tokens, index, current) && MatchesAt(r, Grammar.CompExpr(tokens, old(index)), old(index), index)
      decreases |tokens| + 1 - index, 16
    {
      if current.kind == Not {
        var token := current;
        r := Advance(Initial);
        var operand := CompExpr();
        r := r.Register(operand);
        if !r.Success() {
          return;
        }
        var node := operand.result.value;
        r := r.SetSuccess(Some(FromTokenTo(token, node, UnaryOperationNode(token, node))));
        return;
      }
      r := Binary(ArithmeticLevel, ArithmeticLevel, Comparisons);
    }

    /** `arithmetic`. */
    method Arithmetic() returns (r: ParseResult)
      requires Sound(tokens, index, current) && index <= |tokens|
      modifies this
      ensures Sound(tokens, index, current) && MatchesAt(r, Grammar.Arithmetic(tokens, old(index)), old(index), index)
      decreases |tokens| + 1 - index, 13
    {
      r := Binary(TermLevel, TermLevel, Additions);
    }

    /** `term`. */
    method Term() returns (r: ParseResult)
      requires Sound(tokens, index, current) && index <= |tokens|
      modifies this
      ensures Sound(tokens, index, current) && MatchesAt(r, Grammar.Term(tokens, old(index)), old(index), index)
      decreases |tokens| + 1 - index, 10
    {
      r := Binary(FactorLevel, FactorLevel, BinaryOperators);
    }

    /** `factor`. */
    method Factor() returns (r: ParseResult)
      requires Sound(tokens, index, current) && index <= |tokens|
      modifies this
      ensures Sound(tokens, index, current) && MatchesAt(r, Grammar.Factor(tokens, old(index)), old(index), index)
      decreases |tokens| + 1 - index, 7
    {
      var token := current;
      if token.kind in UnaryOperators {
        r := Advance(Initial);
        var operand := Factor();
        r := r.Register(operand);
        if !r.Success() {
          return;
        }
        var node := operand.result.value;
        r := r.SetSuccess(Some(FromTokenTo(token, node, UnaryOperationNode(token, node))));
        return;
      }
      r := Power();
    }

    /** `power`. */
    method Power() returns (r: ParseResult)
      requires Sound(tokens, index, current) && index <= |tokens|
      modifies this
      ensures Sound(tokens, index, current) && MatchesAt(r, Grammar.Power(tokens, old(index)), old(index), index)
      decreases |tokens| + 1 - index, 6
    {
      r := Binary(AtomLevel, FactorLevel, PowerOperator);
    }

    /** Calling the supplier that stands for `level`. */
    method Operand(level: Level) returns (r: ParseResult)
      requires Sound(tokens, index, current) && index <= |tokens|
      modifies this
      ensures Sound(tokens, index, current) && MatchesAt(r, Grammar.Operand(level, tokens, old(index)), old(index), index)
      decreases |tokens| + 1 - index, LevelRank(level)
    {
      match level
      case AtomLevel => r := Atom();
      case FactorLevel => r := Factor();
      case TermLevel => r := Term();
      case ArithmeticLevel => r := Arithmetic();
      case ComparisonLevel => r := CompExpr();
    }

    /** `binaryOperationNode(first, second, ops)`. */
    method Binary(first: Level, second: Level, ops: seq<TokenType>) returns (r: ParseResult)
      requires Sound(tokens, index, current) && index <= |tokens|
      modifies this
      ensures Sound(tokens, index, current) && MatchesAt(r, Grammar.Binary(first, second, ops, tokens, old(index)), old(index), index)
      decreases |tokens| + 1 - index, LevelRank(first) + 1
    {
      var leftResult := Operand(first);
      r := Initial.Register(leftResult);
      if !r.Success() {
        return;
      }
      r := BinaryLoop(second, ops, leftResult.result.value, r);
    }

    /** The while loop of `binaryOperationNode`, standing after the left operand `tree` and counting on `r0`. */
    method BinaryLoop(second: Level, ops: seq<TokenType>, tree: Node, r0: ParseResult) returns (r: ParseResult)
      requires Sound(tokens, index, current) && index < |tokens|
      requires r0.result.None? && r0.error.None?
      modifies this
      ensures Sound(tokens, index, current) && Continues(r0, r, BinaryRest(second, ops, tokens, old(index), tree), old(index), index)
      decreases |tokens| + 1 - index, 1
    {
      r := r0;
      var left := tree;
      while current.kind != EOF && current.kind in ops
        invariant Sound(tokens, index, current) && old(index) <= index < |tokens|
        invariant r.result.None? && r.error.None? && r.advancements == r0.advancements + index - old(index)
        invariant BinaryRest(second, ops, tokens, index, left) == BinaryRest(second, ops, tokens, old(index), tree)
        decreases |tokens| - index
      {
        r, left := BinaryTurn(second, ops, left, r);
        if !r.Success() {
          return;
        }
      }
      BinaryRestStop(second, ops, tokens, index, left);
      r := r.SetSuccess(Some(left));
    }

    /** One turn of that loop, standing on an operator and counting on `r0`: the operator, then the right operand. */
    method BinaryTurn(second: Level, ops: seq<TokenType>, left: Node, r0: ParseResult) returns (r: ParseResult, tree: Node)
      requires Sound(tokens, index, current) && index < |tokens| && IsIn(tokens, index, ops)
      requires r0.result.None? && r0.error.None?
      modifies this
      ensures Sound(tokens, index, current) && old(index) < index
      ensures r.result.None? && r.advancements == r0.advancements + index - old(index)
      ensures r.error.None? ==> index < |tokens| && BinaryRest(second, ops, tokens, index, tree) == BinaryRest(second, ops, tokens, old(index), left)
      ensures r.error.Some? ==> Reports(r, BinaryRest(second, ops, tokens, old(index), left).outcome) && index == BinaryRest(second, ops, tokens, old(index), left).next
      decreases |tokens| + 1 - index, 0
    {
      var op := current;
      r := Advance(r0);
      var rightResult := Operand(second);
      TurnOutcome(second, ops, tokens, old(index), left, rightResult, index);
      r := r.Register(rightResult);
      tree := left;
      if r.Success() {
        tree := BinaryOperation(left, op, rightResult.result.value);
      }
    }

    /** `atom`. */
    method Atom() returns (r: ParseResult)
      requires Sound(tokens, index, current) && index <= |tokens|
      modifies this
      ensures Sound(tokens, index, current) && MatchesAt(r, Grammar.Atom(tokens, old(index)), old(index), index)
      decreases |tokens| + 1 - index, 3
    {
      var token := current;
      if token.kind in Numbers || token.kind == Char || token.kind == String {
        r := Advance(Initial);
        var kind := if token.kind in Numbers then NumberNode(token) else if token.kind == Char then CharNode(token) else StringNode(token);
        r := r.SetSuccess(Some(TokenNode(token, kind)));
        return;
      }
      if token.kind == Identifier {
        r := IdentifierForms();
        return;
      }
      if token.kind == LParen {
        r := Parenthesized();
        return;
      }
      if token.kind == LBracket {
        var arrayResult := ArrayLiteral();
        r := Initial.Register(arrayResult);
        if !r.Success() {
          return;
        }
        r := r.SetSuccess(arrayResult.result);
        return;
      }
      r := Initial.Failure(Syntax(token, FactorMissing));
    }

    /** The parenthesised expression of `atom`, entered on '('. */
    method Parenthesized() returns (r: ParseResult)
      requires Sound(tokens, index, current) && index <= |tokens| && current.kind == LParen
      modifies this
      ensures Sound(tokens, index, current) && MatchesAt(r, Grammar.Parenthesized(tokens, old(index)), old(index), index)
      decreases |tokens| + 1 - index, 1
    {
      r := Advance(Initial);
      var inner := Expression();
      r := r.Register(inner);
      if !r.Success() {
        return;
      }
      if current.kind == RParen {
        r := Advance(r);
        r := r.SetSuccess(inner.result);
      } else {
        r := r.Failure(Syntax(current, Missing(ClosingParen)));
      }
    }

    /** The identifier branch of `atom`. */
    method IdentifierForms() returns (r: ParseResult)
      requires Sound(tokens, index, current) && index <= |tokens| && current.kind == Identifier
      modifies this
      ensures Sound(tokens, index, current) && MatchesAt(r, Grammar.IdentifierForms(tokens, old(index)), old(index), index)
      decreases |tokens| + 1 - index, 1
    {
      var identifier := current;
      r := Advance(Initial);
      if current.kind == Equals {
        r := Reassignment(identifier, r);
      } else if current.kind == LBracket {
        r := ElementAccess(identifier, r);
      } else if current.kind == LParen {
        r := Call(identifier, r);
      } else {
        r := r.SetSuccess(Some(TokenNode(identifier, VarAccessNode(identifier))));
      }
    }

    /** `NAME = value` in `atom`, standing on '=' and counting on `r0`. */
    method Reassignment(identifier: Token, r0: ParseResult) returns (r: ParseResult)
      requires Sound(tokens, index, current) && index <= |tokens| && current.kind == Equals
      requires r0.result.None? && r0.error.None?
      modifies this
      ensures Sound(tokens, index, current) && Continues(r0, r, Grammar.Reassignment(tokens, old(index), identifier), old(index), index)
      decreases |tokens| + 1 - index, 0
    {
      r := Advance(r0);
      var expression := Expression();
      r := r.Register(expression);
      if !r.Success() {
        return;
      }
      var value := expression.result.value;
      r := r.SetSuccess(Some(FromTokenTo(identifier, value, VarReassignNode(identifier, value))));
    }

    /** `NAME[element]` in `atom`, standing on '[' and counting on `r0`. */
    method ElementAccess(identifier: Token, r0: ParseResult) returns (r: ParseResult)
      requires Sound(tokens, index, current) && index <= |tokens|
      requires r0.result.None? && r0.error.None?
      modifies this
      ensures Sound(tokens, index, current) && Continues(r0, r, Grammar.ElementAccess(tokens, old(index), identifier), old(index), index)
      decreases |tokens| + 1 - index, 20
    {
      var elementResult := Expression();
      r := r0.Register(elementResult);
      if !r.Success() {
        return;
      }
      if current.kind != RBracket {
        r := r.Failure(Syntax(current, Missing(ClosingBracket)));
        return;
      }
      r := Advance(r);
      var element := elementResult.result.value;
      r := r.SetSuccess(Some(FromTokenTo(identifier, element, ElementAccessNode(identifier, element))));
    }

    /** `NAME(arguments)` in `atom`, standing on '(' and counting on `r0`. */
    method Call(identifier: Token, r0: ParseResult) returns (r: ParseResult)
      requires Sound(tokens, index, current) && index <= |tokens| && current.kind == LParen
      requires r0.result.None? && r0.error.None?
      modifies this
      ensures Sound(tokens, index, current) && Continues(r0, r, Grammar.Call(tokens, old(index), identifier), old(index), index)
      decreases |tokens| + 1 - index, 1
    {
      var args;
      r, args := Elements(RParen, r0);
      if !r.Success() {
        return;
      }
      if current.kind != RParen {
        r := r.Failure(Syntax(current, Missing(ClosingParen)));
        return;
      }
      r := Advance(r);
      r := r.SetSuccess(Some(TokenNode(identifier, FunctionCallNode(identifier, args))));
    }

    /** `arrayLiteral`. */
    method ArrayLiteral() returns (r: ParseResult)
      requires Sound(tokens, index, current) && index <= |tokens|
      modifies this
      ensures Sound(tokens, index, current) && MatchesAt(r, Grammar.ArrayLiteral(tokens, old(index)), old(index), index)
      decreases |tokens| + 1 - index, 2
    {
      if current.kind != LBracket {
        r := Initial.Failure(Syntax(current, Missing(OpeningBracket)));
        return;
      }
      r := ArrayElements();
    }

    /** The rest of `arrayLiteral`, standing on '[': the elements, then ']'. */
    method ArrayElements() returns (r: ParseResult)
      requires Sound(tokens, index, current) && index <= |tokens| && current.kind == LBracket
      modifies this
      ensures Sound(tokens, index, current) && MatchesAt(r, Grammar.ArrayElements(tokens, old(index)), old(index), index)
      decreases |tokens| + 1 - index, 1
    {
      var start := current.start;
      var nodes;
      r, nodes := Elements(RBracket, Initial);
      if !r.Success() {
        return;
      }
      if current.kind != RBracket {
        r := r.Failure(Syntax(current, Missing(ClosingBracket)));
        return;
      }
      var end := current.end;
      r := Advance(r);
      r := r.SetSuccess(Some(Between(start, end, ArrayNode(nodes))));
    }

    /**
     * The element loop of `atom`'s call branch and of `arrayLiteral`, standing
     * on the opening bracket and counting on `r`; it stops on `close`.
     */
    method Elements(close: TokenType, r0: ParseResult) returns (r: ParseResult, nodes: seq<Node>)
      requires Sound(tokens, index, current) && index < |tokens| && close != EOF
      requires r0.result.None? && r0.error.None?
      modifies this
      ensures Sound(tokens, index, current) && index == Arguments(close, tokens, old(index), []).next
      ensures Collected(r, Arguments(close, tokens, old(index), []).outcome, nodes)
      ensures r.advancements == r0.advancements + index - old(index)
      decreases |tokens| + 1 - index, 0
    {
      r := r0;
      nodes := [];
      while current.kind != close
        invariant Sound(tokens, index, current) && old(index) <= index < |tokens|
        invariant r.result.None? && r.error.None? && r.advancements == r0.advancements + index - old(index)
        invariant Arguments(close, tokens, index, nodes) == Arguments(close, tokens, old(index), [])
        decreases |tokens| - index
      {
        r := Advance(r);
        if current.kind == close {
          break;
        }
        ArgumentsStep(close, tokens, index - 1, nodes);
        var nodeResult := Expression();
        r := r.Register(nodeResult);
        if !r.Success() {
          return;
        }
        nodes := nodes + [nodeResult.result.value];
      }
    }

    /** `defineVariable`. */
    method DefineVariable() returns (r: ParseResult)
      requires Sound(tokens, index, current) && index <= |tokens| && current.kind != EOF
      modifies this
      ensures Sound(tokens, index, current) && MatchesAt(r, Grammar.DefineVariable(tokens, old(index)), old(index), index)
      decreases |tokens| + 1 - index, 20
    {
      r := Advance(Initial);
      if current.kind != Identifier {
        r := r.Failure(Syntax(current, VariableNameMissing));
        return;
      }
      var variableName := current;
      r := Advance(r);
      if current.kind == Equals {
        r := Advance(r);
        var expression := Expression();
        r := r.Register(expression);
        if !r.Success() {
          return;
        }
        r := r.SetSuccess(Some(TokenNode(variableName, VarAssignNode(variableName, expression.result))));
        return;
      }
      r := r.SetSuccess(Some(TokenNode(variableName, VarAssignNode(variableName, None))));
    }

    /** `defineFunction`. */
    method DefineFunction() returns (r: ParseResult)
      requires Sound(tokens, index, current) && index <= |tokens| && current.kind != EOF
      modifies this
      ensures Sound(tokens, index, current) && MatchesAt(r, Grammar.DefineFunction(tokens, old(index)), old(index), index)
      decreases |tokens| + 1 - index, 21
    {
      if current.kind == Keyword && current.value.None? {
        // isCurrentTokenKeyword dereferences the missing text
        r := Initial.Failure(Thrown(NullPointer));
        return;
      }
      if !(current.kind == Keyword && current.value == Some("fn")) {
        r := Initial.Failure(Syntax(current, Missing(FnKeyword)));
        return;
      }
      r := Advance(Initial);
      if current.kind != Identifier {
        r := r.Failure(Syntax(current, Missing(AnIdentifier)));
        return;
      }
      var name := current;
      r := Advance(r);
      var params;
      r, params := ParameterList(r);
      if !r.Success() {
        return;
      }
      r := FunctionBody(name, params, r);
    }

    /** The end of `defineFunction`, counting on `r0`: ';' for an empty body, else a braced scope. */
    method FunctionBody(name: Token, params: seq<Node>, r0: ParseResult) returns (r: ParseResult)
      requires Sound(tokens, index, current) && index < |tokens|
      requires r0.result.None? && r0.error.None?
      modifies this
      ensures Sound(tokens, index, current) && Continues(r0, r, Grammar.FunctionBody(tokens, old(index), name, params), old(index), index)
      decreases |tokens| + 1 - index, 21
    {
      if current.kind == Semicolon {
        r := Advance(r0);
        r := r.SetSuccess(Some(FunctionDefine(name, params, Ast.Scope([]))));
        return;
      }
      var scopeResult := StrictScope();
      r := r0.Register(scopeResult);
      if !r.Success() {
        return;
      }
      r := r.SetSuccess(Some(FunctionDefine(name, params, scopeResult.result.value)));
    }

    /** The optional parenthesised parameter list of `defineFunction`, counted on `r`. */
    method ParameterList(r0: ParseResult) returns (r: ParseResult, params: seq<Node>)
      requires Sound(tokens, index, current) && index < |tokens|
      requires r0.result.None? && r0.error.None?
      modifies this
      ensures Sound(tokens, index, current) && index == Grammar.ParameterList(tokens, old(index)).next
      ensures Collected(r, Grammar.ParameterList(tokens, old(index)).outcome, params)
      ensures r.advancements == r0.advancements + index - old(index)
      decreases |tokens| + 1 - index, 1
    {
      r := r0;
      params := [];
      if current.kind == LParen {
        r, params := ParameterLoop(r);
        if !r.Success() {
          return;
        }
        if current.kind != RParen {
          r := r.Failure(Syntax(current, Missing(ClosingParen)));
          return;
        }
        r := Advance(r);
      }
    }

    /** The parameter loop of `defineFunction`, standing on '(' and counting on `r`; it stops on ')'. */
    method ParameterLoop(r0: ParseResult) returns (r: ParseResult, params: seq<Node>)
      requires Sound(tokens, index, current) && index < |tokens|
      requires r0.result.None? && r0.error.None?
      modifies this
      ensures Sound(tokens, index, current) && index == Parameters(tokens, old(index), []).next
      ensures Collected(r, Parameters(tokens, old(index), []).outcome, params)
      ensures r.advancements == r0.advancements + index - old(index)
      decreases |tokens| + 1 - index, 0
    {
      r := r0;
      params := [];
      while current.kind != RParen
        invariant Sound(tokens, index, current) && old(index) <= index < |tokens|
        invariant r.result.None? && r.error.None? && r.advancements == r0.advancements + index - old(index)
        invariant Parameters(tokens, index, params) == Parameters(tokens, old(index), [])
        decreases |tokens| - index
      {
        r := Advance(r);
        if current.kind == RParen {
          ParametersStop(tokens, index - 1, params);
          break;
        }
        ParametersStep(tokens, index - 1, params);
        var paramResult := FunctionParameter();
        r := r.Register(paramResult);
        if !r.Success() {
          return;
        }
        params := params + [paramResult.result.value];
      }
      ParametersStop(tokens, index, params);
    }

    /** `functionParameter`. */
    method FunctionParameter() returns (r: ParseResult)
      requires Sound(tokens, index, current) && index <= |tokens|
      modifies this
      ensures Sound(tokens, index, current) && MatchesAt(r, Parameter(tokens, old(index)), old(index), index)
      decreases |tokens| + 1 - index, 1
    {
      r := Initial;
      var spread := false;
      if current.kind == Spread {
        spread := true;
        r := Advance(r);
      }
      r := NamedParameter(spread, r);
    }

    /** The rest of `functionParameter` after the optional '...', counting on `r0`: a name, then the default. */
    method NamedParameter(spread: bool, r0: ParseResult) returns (r: ParseResult)
      requires Sound(tokens, index, current) && index <= |tokens|
      requires r0.result.None? && r0.error.None?
      modifies this
      ensures Sound(tokens, index, current) && Continues(r0, r, Grammar.NamedParameter(tokens, old(index), spread), old(index), index)
      decreases |tokens| + 1 - index, 0
    {
      if current.kind != Identifier {
        r := r0.Failure(Syntax(current, ParameterNameMissing));
        return;
      }
      var name := current;
      ghost var rest := Grammar.ParameterDefault(tokens, index + 1, name, spread);
      assert Grammar.NamedParameter(tokens, index, spread) == rest;
      r := Advance(r0);
      r := ParameterDefault(name, spread, r);
    }

    /** The rest of `functionParameter` after the name, counting on `r0`: '=' and a default value, or nothing. */
    method ParameterDefault(name: Token, spread: bool, r0: ParseResult) returns (r: ParseResult)
      requires Sound(tokens, index, current) && index <= |tokens|
      requires r0.result.None? && r0.error.None?
      modifies this
      ensures Sound(tokens, index, current) && Continues(r0, r, Grammar.ParameterDefault(tokens, old(index), name, spread), old(index), index)
      decreases |tokens| + 1 - index, 0
    {
      r := r0;
      var defaultValue: Option<Node> := None;
      if current.kind == Equals {
        r := Advance(r);
        var defaultResult := Expression();
        r := r.Register(defaultResult);
        if !r.Success() {
          return;
        }
        defaultValue := defaultResult.result;
      }
      match Ast.FunctionParameter(name, defaultValue, spread)
      case None =>
        // the node constructor reads the end of the missing default
        r := r.Failure(Thrown(NullPointer));
      case Some(param) =>
        r := r.SetSuccess(Some(param));
    }

    /** `scope`. */
    method Scope() returns (r: ParseResult)
      requires Sound(tokens, index, current) && index <= |tokens|
      modifies this
      ensures Sound(tokens, index, current) && MatchesAt(r, Grammar.Scope(tokens, old(index)), old(index), index)
      decreases |tokens| + 1 - index, 22
    {
      if current.kind == LBrace {
        r := StrictScope();
        return;
      }
      var expression := Expression();
      r := Initial.Register(expression);
      if !expression.Success() {
        // the child's own result is handed back
        return expression;
      }
      r := r.SetSuccess(Some(Ast.Scope([expression.result.value])));
    }

    /** `strictScope`. */
    method StrictScope() returns (r: ParseResult)
      requires Sound(tokens, index, current) && index <= |tokens|
      modifies this
      ensures Sound(tokens, index, current) && MatchesAt(r, Grammar.StrictScope(tokens, old(index)), old(index), index)
      decreases |tokens| + 1 - index, 20
    {
      if current.kind != LBrace {
        r := Initial.Failure(Syntax(current, Missing(OpeningBrace)));
        return;
      }
      r := Advance(Initial);
      r := ScopeRest(r);
    }

    /** The rest of `strictScope` after '{', counting on `r0`: the statements, then '}'. */
    method ScopeRest(r0: ParseResult) returns (r: ParseResult)
      requires Sound(tokens, index, current) && index <= |tokens|
      requires r0.result.None? && r0.error.None?
      modifies this
      ensures Sound(tokens, index, current) && Continues(r0, r, Grammar.ScopeRest(tokens, old(index)), old(index), index)
      decreases |tokens| + 1 - index, 26
    {
      var statements;
      r, statements := ScopeStatements(r0);
      if !r.Success() {
        return;
      }
      if current.kind != RBrace {
        r := r.Failure(Syntax(current, Missing(ClosingBrace)));
        return;
      }
      r := Advance(r);
      r := r.SetSuccess(Some(Ast.Scope(statements)));
    }

    /** The statement loop of `strictScope`, standing after '{' and counting on `r`; it stops on '}'. */
    method ScopeStatements(r0: ParseResult) returns (r: ParseResult, statements: seq<Node>)
      requires Sound(tokens, index, current) && index <= |tokens|
      requires r0.result.None? && r0.error.None?
      modifies this
      ensures Sound(tokens, index, current) && index == ScopeBody(tokens, old(index), []).next
      ensures Collected(r, ScopeBody(tokens, old(index), []).outcome, statements)
      ensures r.advancements == r0.advancements + index - old(index)
      decreases |tokens| + 1 - index, 25
    {
      r := r0;
      statements := [];
      while current.kind != RBrace
        invariant Sound(tokens, index, current) && old(index) <= index <= |tokens|
        invariant r.result.None? && r.error.None? && r.advancements == r0.advancements + index - old(index)
        invariant ScopeBody(tokens, index, statements) == ScopeBody(tokens, old(index), [])
        decreases |tokens| - index
      {
        ScopeBodyStep(tokens, index, statements);
        var statementResult := PrimaryExpression();
        r := r.Register(statementResult);
        if !r.Success() {
          return;
        }
        statements := statements + [statementResult.result.value];
      }
    }
  }
}
