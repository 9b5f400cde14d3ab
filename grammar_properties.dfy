/**
 * What the trees of the recursive-descent parser mean: the program is the last
 * of its statements, each binary level is a left fold of its own operators over
 * operands of the next tighter level, POWER takes a factor to its right and so
 * nests to the right, and the identifier and `var` forms build the nodes they
 * name.
 */
module GrammarProperties {
  import opened Wrappers
  import opened Tokens
  import opened Ast
  import opened ParseResults
  import opened Grammar

  /**
   * Every statement `parse` reads from `i`, in order, each starting where the
   * one before ended: the list up to EOF, or the first failure.
   */
  ghost function AllStatements(ts: seq<Token>, i: nat): (r: Parsed<seq<Node>>)
    requires WellFormed(ts) && i <= |ts|
    ensures r.outcome.Ok? ==> |r.outcome.value| > 0 && Is(ts, r.next, EOF)
    decreases |ts| - i
  {
    var s := Primary(ts, i);
    match s.outcome
    case Fail(e) => Parsed(Fail(e), s.next)
    case Ok(n) =>
      if Is(ts, s.next, EOF) then Parsed(Ok([n]), s.next)
      else
        var rest := AllStatements(ts, s.next);
        match rest.outcome
        case Fail(e) => rest
        case Ok(ns) => Parsed(Ok([n] + ns), rest.next)
  }

  /**
   * `parse` reads every statement but keeps only the node of the last one: it
   * fails exactly where reading them all fails, and otherwise gives the last.
   */
  lemma {:induction false} StatementsKeepsLast(ts: seq<Token>, i: nat)
    requires WellFormed(ts) && i <= |ts|
    ensures Statements(ts, i).next == AllStatements(ts, i).next
    ensures Statements(ts, i).outcome.Fail? <==> AllStatements(ts, i).outcome.Fail?
    ensures AllStatements(ts, i).outcome.Fail? ==> Statements(ts, i).outcome.error == AllStatements(ts, i).outcome.error
    ensures var all := AllStatements(ts, i).outcome;
      all.Ok? ==> Statements(ts, i).outcome.value == Some(all.value[|all.value| - 1])
    decreases |ts| - i
  {
    var s := Primary(ts, i);
    if s.outcome.Ok? && !Is(ts, s.next, EOF) {
      StatementsKeepsLast(ts, s.next);
    }
  }

  /** `n` is what the rule of `level` yields at some place in `ts`. */
  ghost predicate ResultOf(level: Level, ts: seq<Token>, n: Node)
    requires WellFormed(ts)
  {
    exists j :: 0 <= j <= |ts| && Operand(level, ts, j).outcome == Ok(n)
  }

  /**
   * `n` is `base`, or an operation node of one of `ops` whose right operand is
   * a result of `second` and whose left operand is again such a chain over
   * `base`: the left fold `base op1 x1 op2 x2 …`.
   */
  ghost predicate LeftChain(second: Level, ops: seq<TokenType>, ts: seq<Token>, base: Node, n: Node)
    requires WellFormed(ts)
    decreases n
  {
    n == base ||
    (n.kind.BinaryOperationNode? && n.kind.op.kind in ops && ResultOf(second, ts, n.kind.right) &&
     LeftChain(second, ops, ts, base, n.kind.left))
  }

  /** A chain over a one-step chain over `base` is a chain over `base`. */
  lemma {:induction false} LeftChainExtends(second: Level, ops: seq<TokenType>, ts: seq<Token>, base: Node, mid: Node, n: Node)
    requires WellFormed(ts)
    requires LeftChain(second, ops, ts, base, mid) && LeftChain(second, ops, ts, mid, n)
    ensures LeftChain(second, ops, ts, base, n)
    decreases n
  {
    if n != mid {
      LeftChainExtends(second, ops, ts, base, mid, n.kind.left);
    }
  }

  /** The operator loop builds a left chain over the tree it starts from, and stops on a token that is not one of its operators. */
  lemma {:induction false} BinaryRestChain(second: Level, ops: seq<TokenType>, ts: seq<Token>, i: nat, left: Node)
    requires WellFormed(ts) && i < |ts|
    ensures var r := BinaryRest(second, ops, ts, i, left);
      r.outcome.Ok? ==> LeftChain(second, ops, ts, left, r.outcome.value) && !IsIn(ts, r.next, ops)
    decreases |ts| - i
  {
    if IsIn(ts, i, ops) {
      var op := Cur(ts, i);
      var right := Operand(second, ts, i + 1);
      if right.outcome.Ok? {
        var mid := BinaryOperation(left, op, right.outcome.value);
        BinaryRestStep(second, ops, ts, i, left);
        BinaryRestChain(second, ops, ts, right.next, mid);
        var r := BinaryRest(second, ops, ts, i, left);
        if r.outcome.Ok? {
          assert ResultOf(second, ts, right.outcome.value) by {
            assert Operand(second, ts, i + 1).outcome == Ok(right.outcome.value);
          }
          assert LeftChain(second, ops, ts, left, mid);
          LeftChainExtends(second, ops, ts, left, mid, r.outcome.value);
        }
      }
    } else {
      BinaryRestStop(second, ops, ts, i, left);
    }
  }

  /** `binaryOperationNode` gives a left chain of its operators over the first operand's result, ending before a token that is not one of them. */
  lemma BinaryChain(first: Level, second: Level, ops: seq<TokenType>, ts: seq<Token>, i: nat)
    requires WellFormed(ts) && i <= |ts|
    ensures var r := Binary(first, second, ops, ts, i);
      r.outcome.Ok? ==>
        Operand(first, ts, i).outcome.Ok? && !IsIn(ts, r.next, ops) &&
        LeftChain(second, ops, ts, Operand(first, ts, i).outcome.value, r.outcome.value)
  {
    var left := Operand(first, ts, i);
    if left.outcome.Ok? {
      BinaryRestChain(second, ops, ts, left.next, left.outcome.value);
    }
  }

  /** AND and OR bind loosest: an expression is a left chain of them over comparison expressions. */
  lemma ExpressionShape(ts: seq<Token>, i: nat)
    requires WellFormed(ts) && i <= |ts|
    ensures var r := Expression(ts, i);
      r.outcome.Ok? ==> CompExpr(ts, i).outcome.Ok? && LeftChain(ComparisonLevel, Connectives, ts, CompExpr(ts, i).outcome.value, r.outcome.value)
  {
    if !Is(ts, i, EOF) {
      BinaryChain(ComparisonLevel, ComparisonLevel, Connectives, ts, i);
    }
  }

  /** A comparison expression is NOT applied to a comparison expression, or a left chain of comparisons over arithmetic expressions. */
  lemma CompExprShape(ts: seq<Token>, i: nat)
    requires WellFormed(ts) && i <= |ts|
    ensures var r := CompExpr(ts, i);
      r.outcome.Ok? && Is(ts, i, Not) ==>
        CompExpr(ts, i + 1) == Parsed(Ok(r.outcome.value.kind.operand), r.next) &&
        r.outcome.value.kind == UnaryOperationNode(Cur(ts, i), r.outcome.value.kind.operand)
    ensures var r := CompExpr(ts, i);
      r.outcome.Ok? && !Is(ts, i, Not) ==>
        Arithmetic(ts, i).outcome.Ok? && LeftChain(ArithmeticLevel, Comparisons, ts, Arithmetic(ts, i).outcome.value, r.outcome.value)
  {
    if !Is(ts, i, Not) {
      BinaryChain(ArithmeticLevel, ArithmeticLevel, Comparisons, ts, i);
    }
  }

  /** An arithmetic expression is a left chain of PLUS and MINUS over terms. */
  lemma ArithmeticShape(ts: seq<Token>, i: nat)
    requires WellFormed(ts) && i <= |ts|
    ensures var r := Arithmetic(ts, i);
      r.outcome.Ok? ==> Term(ts, i).outcome.Ok? && LeftChain(TermLevel, Additions, ts, Term(ts, i).outcome.value, r.outcome.value)
  {
    BinaryChain(TermLevel, TermLevel, Additions, ts, i);
  }

  /** A term is a left chain of MULTIPLY, DIVIDE and MODULO over factors. */
  lemma TermShape(ts: seq<Token>, i: nat)
    requires WellFormed(ts) && i <= |ts|
    ensures var r := Term(ts, i);
      r.outcome.Ok? ==> Factor(ts, i).outcome.Ok? && LeftChain(FactorLevel, BinaryOperators, ts, Factor(ts, i).outcome.value, r.outcome.value)
  {
    BinaryChain(FactorLevel, FactorLevel, BinaryOperators, ts, i);
  }

  /** A factor is a unary PLUS, MINUS or NOT applied to a factor, or else a power. */
  lemma FactorShape(ts: seq<Token>, i: nat)
    requires WellFormed(ts) && i <= |ts|
    ensures var r := Factor(ts, i);
      r.outcome.Ok? && Cur(ts, i).kind in UnaryOperators ==>
        Factor(ts, i + 1) == Parsed(Ok(r.outcome.value.kind.operand), r.next) &&
        r.outcome.value.kind == UnaryOperationNode(Cur(ts, i), r.outcome.value.kind.operand)
    ensures Cur(ts, i).kind !in UnaryOperators ==> Factor(ts, i) == Grammar.Power(ts, i)
  {
  }

  /** A factor never stops on POWER: the power inside it has taken every POWER there is. */
  lemma {:induction false} FactorStopsOffPower(ts: seq<Token>, i: nat)
    requires WellFormed(ts) && i <= |ts|
    ensures var r := Factor(ts, i);
      r.outcome.Ok? ==> !IsIn(ts, r.next, PowerOperator)
    decreases |ts| - i
  {
    if Cur(ts, i).kind in UnaryOperators {
      if i < |ts| && Factor(ts, i + 1).outcome.Ok? {
        FactorStopsOffPower(ts, i + 1);
      }
    } else {
      BinaryChain(AtomLevel, FactorLevel, PowerOperator, ts, i);
    }
  }

  /** One POWER and the factor after it end the operator loop of `power`. */
  lemma PowerRestOnce(ts: seq<Token>, j: nat, l: Node)
    requires WellFormed(ts) && j < |ts| && IsIn(ts, j, PowerOperator)
    ensures var r := BinaryRest(FactorLevel, PowerOperator, ts, j, l); var f := Factor(ts, j + 1);
      r.outcome.Ok? ==> f.outcome.Ok? && r == Parsed(Ok(BinaryOperation(l, Cur(ts, j), f.outcome.value)), f.next)
  {
    var f := Factor(ts, j + 1);
    assert Operand(FactorLevel, ts, j + 1) == f;
    BinaryRestStep(FactorLevel, PowerOperator, ts, j, l);
    if f.outcome.Ok? {
      FactorStopsOffPower(ts, j + 1);
      BinaryRestStop(FactorLevel, PowerOperator, ts, f.next, BinaryOperation(l, Cur(ts, j), f.outcome.value));
    }
  }

  /**
   * A power is an atom, or an atom POWER a factor, and nothing longer: the
   * factor on the right takes any further POWER, so `a ** b ** c` nests as
   * `a ** (b ** c)`.
   */
  lemma PowerShape(ts: seq<Token>, i: nat)
    requires WellFormed(ts) && i <= |ts|
    ensures var r := Grammar.Power(ts, i); var a := Atom(ts, i);
      r.outcome.Ok? && !IsIn(ts, a.next, PowerOperator) ==> r == a
    ensures var r := Grammar.Power(ts, i); var a := Atom(ts, i);
      r.outcome.Ok? && IsIn(ts, a.next, PowerOperator) ==>
        a.outcome.Ok? && a.next < |ts| &&
        var f := Factor(ts, a.next + 1);
        f.outcome.Ok? && r == Parsed(Ok(BinaryOperation(a.outcome.value, Cur(ts, a.next), f.outcome.value)), f.next)
  {
    var a := Atom(ts, i);
    assert Operand(AtomLevel, ts, i) == a;
    if a.outcome.Ok? {
      assert Grammar.Power(ts, i) == BinaryRest(FactorLevel, PowerOperator, ts, a.next, a.outcome.value);
      if IsIn(ts, a.next, PowerOperator) {
        PowerRestOnce(ts, a.next, a.outcome.value);
      } else {
        BinaryRestStop(FactorLevel, PowerOperator, ts, a.next, a.outcome.value);
      }
    }
  }

  /**
   * After an identifier, '=' gives a reassignment of that name to the
   * expression that follows, and a token other than '=', '[' or '(' a plain
   * access of the identifier, one token on.
   */
  lemma IdentifierFormsDispatch(ts: seq<Token>, i: nat)
    requires WellFormed(ts) && i <= |ts| && Is(ts, i, Identifier)
    ensures var r := IdentifierForms(ts, i);
      Is(ts, i + 1, Equals) && r.outcome.Ok? ==>
        r.outcome.value.kind.VarReassignNode? && r.outcome.value.kind.name == Cur(ts, i) &&
        Expression(ts, i + 2) == Parsed(Ok(r.outcome.value.kind.value), r.next)
    ensures !Is(ts, i + 1, Equals) && !Is(ts, i + 1, LBracket) && !Is(ts, i + 1, LParen) ==>
      IdentifierForms(ts, i) == Parsed(Ok(TokenNode(Cur(ts, i), VarAccessNode(Cur(ts, i)))), i + 1)
  {
    BeforeEnd(ts, i);
    if Is(ts, i + 1, Equals) {
      assert IdentifierForms(ts, i) == Reassignment(ts, i + 1, Cur(ts, i));
    }
  }

  /**
   * After an identifier, '(' gives a call of that name with the arguments the
   * argument loop parsed, one token past the ')' that closes them.
   */
  lemma IdentifierFormsCall(ts: seq<Token>, i: nat)
    requires WellFormed(ts) && i <= |ts| && Is(ts, i, Identifier) && Is(ts, i + 1, LParen)
    ensures var r := IdentifierForms(ts, i); var args := Arguments(RParen, ts, i + 1, []);
      r.outcome.Ok? ==>
        args.outcome.Ok? && Is(ts, args.next, RParen) &&
        r == Parsed(Ok(TokenNode(Cur(ts, i), FunctionCallNode(Cur(ts, i), args.outcome.value))), args.next + 1)
  {
    BeforeEnd(ts, i);
    assert IdentifierForms(ts, i) == Call(ts, i + 1, Cur(ts, i));
  }

  /**
   * After an identifier, '[' gives an element access of that name whose element
   * is the expression parsed from the '[' on, closed by ']'; a failing element
   * or a missing ']' fails the access.
   */
  lemma IdentifierFormsElement(ts: seq<Token>, i: nat)
    requires WellFormed(ts) && i <= |ts| && Is(ts, i, Identifier) && Is(ts, i + 1, LBracket)
    ensures var r := IdentifierForms(ts, i);
      r.outcome.Ok? ==> r.outcome.value.kind.ElementAccessNode? && r.outcome.value.kind.name == Cur(ts, i) && Is(ts, r.next - 1, RBracket)
    ensures var r := IdentifierForms(ts, i); var e := Expression(ts, i + 1);
      (r.outcome.Ok? <==> e.outcome.Ok? && Is(ts, e.next, RBracket)) &&
      (r.outcome.Ok? ==> r.outcome.value.kind.element == e.outcome.value && r.next == e.next + 1) &&
      (e.outcome.Fail? ==> r == Parsed(Fail(e.outcome.error), e.next)) &&
      (e.outcome.Ok? && !Is(ts, e.next, RBracket) ==> r == Parsed(Fail(Syntax(Cur(ts, e.next), Missing(ClosingBracket))), e.next))
  {
    BeforeEnd(ts, i);
    assert IdentifierForms(ts, i) == ElementAccess(ts, i + 1, Cur(ts, i));
  }

  /**
   * `var` followed by anything but an identifier fails on that token; `var
   * NAME` without '=' declares NAME with no initial value, two tokens on; and
   * `var NAME = e` assigns the expression that follows, or fails with it.
   */
  lemma DefineVariableCases(ts: seq<Token>, i: nat)
    requires WellFormed(ts) && i <= |ts| && !Is(ts, i, EOF)
    ensures !Is(ts, i + 1, Identifier) ==>
      DefineVariable(ts, i) == Parsed(Fail(Syntax(Cur(ts, i + 1), VariableNameMissing)), i + 1)
    ensures Is(ts, i + 1, Identifier) && !Is(ts, i + 2, Equals) ==>
      DefineVariable(ts, i) == Parsed(Ok(TokenNode(Cur(ts, i + 1), VarAssignNode(Cur(ts, i + 1), None))), i + 2)
    ensures Is(ts, i + 1, Identifier) && Is(ts, i + 2, Equals) ==>
      var e := Expression(ts, i + 3); var r := DefineVariable(ts, i);
      r.next == e.next && (r.outcome.Ok? <==> e.outcome.Ok?) &&
      (e.outcome.Ok? ==> r.outcome.value == TokenNode(Cur(ts, i + 1), VarAssignNode(Cur(ts, i + 1), Some(e.outcome.value))))
  {
    BeforeEnd(ts, i);
  }
}
