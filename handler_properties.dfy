/**
 * Properties of the evaluator's reference semantics: dispatch, the variable
 * handlers, the operators, the literals, and function definition and call.
 */
module HandlerProperties {
  import opened Wrappers
  import opened Errors
  import opened Values
  import opened Ast
  import Tokens
  import opened JavaInt
  import opened Arithmetic
  import opened Conversions
  import opened Scope
  import opened RuntimeResults
  import opened Semantics

  // Dispatch

  /** A null node fails whatever the fuel, and changes nothing. */
  lemma NullNodeFails(fuel: nat, env: Chain)
    ensures Visit(fuel, None, env) == Run(Abrupt(Unsupported(NullNode)), env)
  {
  }

  /** A node whose class has no registered handler fails with "missing Node handler", naming the class, and changes nothing. */
  lemma UnregisteredClassesFail(fuel: nat, n: Node, env: Chain)
    requires fuel > 0 && !HasHandler(n.kind)
    ensures Visit(fuel, Some(n), env) == Run(Abrupt(MissingHandler(ClassOf(n.kind))), env)
  {
  }

  /** The kinds with a handler are exactly those whose class the constructor registers. */
  lemma RegistryNamesHandledClasses(k: NodeKind)
    ensures HasHandler(k) <==> ClassOf(k) in Registry
  {
  }

  /** Scopes, characters, element accesses, object literals, declarations and parameters have no handler. */
  lemma UnregisteredClasses(k: NodeKind)
    requires k.ScopeNode? || k.CharNode? || k.ElementAccessNode? || k.ObjectNode? || k.VarDeclareNode? || k.FunctionParameterNode?
    ensures !HasHandler(k) && ClassOf(k) !in Registry
  {
    RegistryNamesHandledClasses(k);
  }

  // Literals

  /** A number literal gives `fromToken` of its token and touches no variable. */
  lemma NumberLiteral(fuel: nat, n: Node, env: Chain)
    requires fuel > 0 && n.kind.NumberNode?
    ensures Visit(fuel, Some(n), env).env == env
    ensures Visit(fuel, Some(n), env).outcome == SucceedWith(FromToken(n.kind.token))
  {
  }

  /** An INT literal whose text is a canonical decimal in range evaluates to an int that renders as that text. */
  lemma IntLiteralRendersBack(fuel: nat, n: Node, env: Chain)
    requires fuel > 0 && n.kind.NumberNode?
    requires var t := n.kind.token; t.kind == Tokens.Int && t.value.Some? && Canonical(t.value.value) && ParseInt(t.value.value).Some?
    ensures var o := Visit(fuel, Some(n), env).outcome;
      o.Normal? && o.value.Success() && !o.value.ShouldReturn() && o.value.result.Some? &&
      o.value.result.value.Int? && Show(o.value.result.value) == n.kind.token.value
  {
    IntTokenRoundTrip(n.kind.token);
  }

  /** A boolean literal is true exactly when its text is "true" in any case, and touches no variable. */
  lemma BoolLiteral(fuel: nat, n: Node, env: Chain)
    requires fuel > 0 && n.kind.BoolNode?
    ensures Visit(fuel, Some(n), env).env == env
    ensures var t := n.kind.token;
      Visit(fuel, Some(n), env).outcome == Normal(Succeeded(Some(Bool(t.value.Some? && EqualsIgnoreCase(t.value.value, "true")))))
  {
  }

  /** An empty array literal is an empty array. */
  lemma EmptyArray(fuel: nat, env: Chain)
    ensures ArrayLoop(fuel, [], 0, [], env) == Run(Normal(Succeeded(Some(Array([])))), env)
  {
  }

  /** The inverted test: when the first element's result does not signal, the literal evaluates to that result and no further element is visited. */
  lemma ArrayReturnsFirstOrdinary(fuel: nat, nodes: seq<Node>, env: Chain)
    requires |nodes| > 0
    requires var r := Visit(fuel, Some(nodes[0]), env); r.outcome.Normal? && !r.outcome.value.ShouldReturn()
    ensures ArrayLoop(fuel, nodes, 0, [], env) == Visit(fuel, Some(nodes[0]), env)
    ensures forall rest: seq<Node> :: ArrayLoop(fuel, nodes[..1] + rest, 0, [], env) == Visit(fuel, Some(nodes[0]), env)
  {
    forall rest: seq<Node>
      ensures ArrayLoop(fuel, nodes[..1] + rest, 0, [], env) == Visit(fuel, Some(nodes[0]), env)
    {
      assert (nodes[..1] + rest)[0] == nodes[0];
    }
  }

  /** An array literal never passes a signal on: signalling elements are collected, and the first element that does not signal is the result. */
  lemma {:induction false} ArrayNeverSignals(fuel: nat, nodes: seq<Node>, k: nat, acc: seq<Option<Value>>, env: Chain)
    requires k <= |nodes|
    ensures var r := ArrayLoop(fuel, nodes, k, acc, env); r.outcome.Normal? ==> !r.outcome.value.ShouldReturn()
    decreases |nodes| - k
  {
    if k < |nodes| {
      var r := Visit(fuel, Some(nodes[k]), env);
      if r.outcome.Normal? && r.outcome.value.ShouldReturn() {
        ArrayNeverSignals(fuel, nodes, k + 1, acc + [r.outcome.value.result], r.env);
      }
    }
  }

  /** `runs` are the visits of the elements from `k` on, each in the chain the one before left, and every one of them signals. */
  predicate AllSignal(fuel: nat, nodes: seq<Node>, k: nat, env: Chain, runs: seq<Run>)
    decreases |runs|
  {
    |runs| == 0 ||
    (k < |nodes| && runs[0] == Visit(fuel, Some(nodes[k]), env) &&
     runs[0].outcome.Normal? && runs[0].outcome.value.ShouldReturn() &&
     AllSignal(fuel, nodes, k + 1, runs[0].env, runs[1..]))
  }

  /** The chain after the last of the runs. */
  function LastEnv(env: Chain, runs: seq<Run>): Chain
  {
    if |runs| == 0 then env else runs[|runs| - 1].env
  }

  /** The values the runs carry. */
  function Results(runs: seq<Run>): (vs: seq<Option<Value>>)
    requires forall i | 0 <= i < |runs| :: runs[i].outcome.Normal?
    ensures |vs| == |runs| && forall i | 0 <= i < |runs| :: vs[i] == runs[i].outcome.value.result
  {
    if |runs| == 0 then [] else [runs[0].outcome.value.result] + Results(runs[1..])
  }

  /** Runs that all signal all completed normally. */
  lemma {:induction false} SignalsAreNormal(fuel: nat, nodes: seq<Node>, k: nat, env: Chain, runs: seq<Run>)
    requires AllSignal(fuel, nodes, k, env, runs)
    ensures forall i | 0 <= i < |runs| :: runs[i].outcome.Normal?
    decreases |runs|
  {
    if |runs| > 0 {
      SignalsAreNormal(fuel, nodes, k + 1, runs[0].env, runs[1..]);
      forall i | 0 < i < |runs|
        ensures runs[i].outcome.Normal?
      {
        assert runs[i] == runs[1..][i - 1];
      }
    }
  }

  /** When every element signals, the literal is the array of their results, in order, and the chain is the one the last element left. */
  lemma {:induction false} ArrayOfSignals(fuel: nat, nodes: seq<Node>, k: nat, acc: seq<Option<Value>>, env: Chain, runs: seq<Run>)
    requires k <= |nodes| && |runs| == |nodes| - k
    requires AllSignal(fuel, nodes, k, env, runs)
    ensures forall i | 0 <= i < |runs| :: runs[i].outcome.Normal?
    ensures ArrayLoop(fuel, nodes, k, acc, env) == Run(Normal(Succeeded(Some(Array(acc + Results(runs))))), LastEnv(env, runs))
    decreases |nodes| - k
  {
    if k < |nodes| {
      var r := runs[0];
      var rest := runs[1..];
      ArrayOfSignals(fuel, nodes, k + 1, acc + [r.outcome.value.result], r.env, rest);
      SignalsAreNormal(fuel, nodes, k, env, runs);
      assert Results(runs) == [r.outcome.value.result] + Results(rest);
      assert acc + Results(runs) == (acc + [r.outcome.value.result]) + Results(rest);
      assert LastEnv(r.env, rest) == LastEnv(env, runs);
      var v := Visit(fuel, Some(nodes[k]), env);
      assert v == r && v.outcome.Normal? && v.outcome.value.ShouldReturn();
      assert ArrayLoop(fuel, nodes, k, acc, env) == ArrayLoop(fuel, nodes, k + 1, acc + [r.outcome.value.result], r.env);
    } else {
      assert acc + Results(runs) == acc;
    }
  }

  /** `runs` are the visits of the nodes from `k` on, each in the chain the one before left, and none of them signals. */
  predicate AllOrdinary(fuel: nat, nodes: seq<Node>, k: nat, env: Chain, runs: seq<Run>)
    decreases |runs|
  {
    |runs| == 0 ||
    (k < |nodes| && runs[0] == Visit(fuel, Some(nodes[k]), env) &&
     runs[0].outcome.Normal? && !runs[0].outcome.value.ShouldReturn() &&
     AllOrdinary(fuel, nodes, k + 1, runs[0].env, runs[1..]))
  }

  /** A run that stops a loop over child nodes: it completed abruptly, or it carries a return, break or continue. */
  predicate Signals(r: Run)
  {
    !r.outcome.Normal? || r.outcome.value.ShouldReturn()
  }

  /** What a handler returns for a child's signalling run: an abrupt completion as it is, a signal propagated in the chain the child left. */
  function Propagation(r: Run): Run
  {
    if !r.outcome.Normal? then r else Run(Normal(Propagated(r.outcome.value)), r.env)
  }

  /** Ordinary runs all completed normally, and there are no more of them than nodes from `k` on. */
  lemma {:induction false} OrdinaryAreNormal(fuel: nat, nodes: seq<Node>, k: nat, env: Chain, runs: seq<Run>)
    requires k <= |nodes| && AllOrdinary(fuel, nodes, k, env, runs)
    ensures k + |runs| <= |nodes|
    ensures forall i | 0 <= i < |runs| :: runs[i].outcome.Normal?
    decreases |runs|
  {
    if |runs| > 0 {
      OrdinaryAreNormal(fuel, nodes, k + 1, runs[0].env, runs[1..]);
      forall i | 0 < i < |runs|
        ensures runs[i].outcome.Normal?
      {
        assert runs[i] == runs[1..][i - 1];
      }
    }
  }

  /** The chain after the runs, when the first of them is left out, is the same. */
  lemma LastEnvRest(env: Chain, runs: seq<Run>)
    requires |runs| > 0
    ensures LastEnv(runs[0].env, runs[1..]) == LastEnv(env, runs)
  {
  }

  /** A successful object literal has exactly the keys already gathered and those still to visit, and no class. */
  lemma {:induction false} ObjectKeys(fuel: nat, entries: map<string, Node>, order: seq<string>, k: nat, acc: map<string, Option<Value>>, env: Chain)
    requires k <= |order| && forall i | 0 <= i < |order| :: order[i] in entries
    ensures var r := ObjectLoop(fuel, entries, order, k, acc, env);
      r.outcome.Normal? && !r.outcome.value.ShouldReturn() ==>
        r.outcome.value.result.Some? && r.outcome.value.result.value.Object? &&
        r.outcome.value.result.value.className.None? &&
        r.outcome.value.result.value.entries.Keys == acc.Keys + (set i | k <= i < |order| :: order[i])
    decreases |order| - k
  {
    if k < |order| {
      var r := Visit(fuel, Some(entries[order[k]]), env);
      if r.outcome.Normal? && !r.outcome.value.ShouldReturn() {
        var acc' := acc[order[k] := r.outcome.value.result];
        ObjectKeys(fuel, entries, order, k + 1, acc', r.env);
        assert (set i | k <= i < |order| :: order[i]) == {order[k]} + (set i | k + 1 <= i < |order| :: order[i]);
      }
    }
  }

  /** An object literal that succeeds has exactly the literal's keys, and its type tag is "Object". */
  lemma ObjectLiteral(fuel: nat, entries: map<string, Node>, order: seq<string>, env: Chain)
    requires Enumerates(order, entries.Keys)
    ensures var r := HandleObject(fuel, entries, order, env);
      r.outcome.Normal? && !r.outcome.value.ShouldReturn() ==>
        r.outcome.value.result.Some? && r.outcome.value.result.value.Object? &&
        r.outcome.value.result.value.entries.Keys == entries.Keys &&
        TypeName(r.outcome.value.result.value) == "Object"
  {
    ObjectKeys(fuel, entries, order, 0, map[], env);
    assert (set i | 0 <= i < |order| :: order[i]) == entries.Keys;
  }

  // Binary operations

  /** A left operand that signals is passed on at once: the right operand is not visited, so neither it nor the operator matters. */
  lemma LeftSignalSkipsRight(fuel: nat, n: Node, left: Node, op: Tokens.Token, right: Node, op': Tokens.Token, right': Node, env: Chain)
    requires var l := Visit(fuel, Some(left), env); l.outcome.Normal? && l.outcome.value.ShouldReturn()
    ensures var l := Visit(fuel, Some(left), env);
      HandleBinary(fuel, n, left, op, right, env) == Run(Normal(Propagated(l.outcome.value)), l.env) &&
      HandleBinary(fuel, n, left, op, right, env) == HandleBinary(fuel, n, left, op', right', env)
  {
  }

  /** A right operand that signals is passed on, in the chain the left operand left, and no operation is performed. */
  lemma RightSignalPropagates(fuel: nat, n: Node, left: Node, op: Tokens.Token, right: Node, env: Chain)
    requires var l := Visit(fuel, Some(left), env); l.outcome.Normal? && !l.outcome.value.ShouldReturn()
    requires var r := Visit(fuel, Some(right), Visit(fuel, Some(left), env).env); r.outcome.Normal? && r.outcome.value.ShouldReturn()
    ensures var r := Visit(fuel, Some(right), Visit(fuel, Some(left), env).env);
      HandleBinary(fuel, n, left, op, right, env) == Run(Normal(Propagated(r.outcome.value)), r.env)
  {
  }

  /** What the operation on two operand values comes to. */
  function BinaryValue(n: Node, left: Option<Value>, kind: Tokens.TokenType, right: Option<Value>): Exec<Outcome>
  {
    Operate(n, Execute(n, left, kind, right))
  }

  /** Two ordinary operands: the left one is visited first, the right one in the chain it left, and the operation applies to their values. */
  lemma OperandsInOrder(fuel: nat, n: Node, left: Node, op: Tokens.Token, right: Node, env: Chain)
    requires var l := Visit(fuel, Some(left), env); l.outcome.Normal? && !l.outcome.value.ShouldReturn()
    requires var r := Visit(fuel, Some(right), Visit(fuel, Some(left), env).env); r.outcome.Normal? && !r.outcome.value.ShouldReturn()
    ensures var l := Visit(fuel, Some(left), env); var r := Visit(fuel, Some(right), l.env);
      HandleBinary(fuel, n, left, op, right, env) == Run(BinaryValue(n, l.outcome.value.result, op.kind, r.outcome.value.result), r.env)
  {
  }

  /** Only `+ - * / % **` are binary operations; any other operator throws, naming it. */
  lemma OnlyArithmeticOperators(n: Node, left: Option<Value>, kind: Tokens.TokenType, right: Option<Value>)
    requires kind !in {Tokens.Plus, Tokens.Minus, Tokens.Multiply, Tokens.Divide, Tokens.Modulo, Tokens.Power}
    ensures BinaryValue(n, left, kind, right) == Abrupt(Unsupported("Invalid operation passed: " + kind.Name()))
  {
  }

  /** Int addition, subtraction and multiplication wrap around at 32 bits. */
  lemma IntArithmetic(n: Node, a: JavaInt.Int32, b: JavaInt.Int32)
    ensures BinaryValue(n, Some(Int(a)), Tokens.Plus, Some(Int(b))) == Normal(Succeeded(Some(Int(Wrap32(a + b)))))
    ensures BinaryValue(n, Some(Int(a)), Tokens.Minus, Some(Int(b))) == Normal(Succeeded(Some(Int(Wrap32(a - b)))))
    ensures BinaryValue(n, Some(Int(a)), Tokens.Multiply, Some(Int(b))) == Normal(Succeeded(Some(Int(Wrap32(a * b)))))
  {
  }

  /** Int division and remainder by zero: the ArithmeticException becomes a failure at the node. */
  lemma DivisionByZeroFails(n: Node, a: JavaInt.Int32)
    ensures BinaryValue(n, Some(Int(a)), Tokens.Divide, Some(Int(0))) == Normal(Failed(AtNode(n, OperationFailed)))
    ensures BinaryValue(n, Some(Int(a)), Tokens.Modulo, Some(Int(0))) == Normal(Failed(AtNode(n, OperationFailed)))
  {
  }

  /** An int and an operand of no number kind and no string give null, which becomes a failure at the node. */
  lemma IntWithOtherFails(n: Node, a: JavaInt.Int32, kind: Tokens.TokenType, right: Option<Value>)
    requires kind in {Tokens.Plus, Tokens.Minus, Tokens.Multiply, Tokens.Divide, Tokens.Modulo, Tokens.Power}
    requires right.None? || !(right.value.IsNumber() || right.value.Str?)
    ensures BinaryValue(n, Some(Int(a)), kind, right) == Normal(Failed(AtNode(n, OperationFailed)))
  {
    var op := match kind
      case Plus => Add case Minus => Subtract case Multiply => Multiply
      case Divide => Divide case Modulo => Modulo case _ => Power;
    IntWithNonNumber(op, a, right);
    assert Execute(n, Some(Int(a)), kind, right) == NumberOp(op, Int(a), right);
  }

  /** A string plus a string is the concatenation; a string plus an int appends the int's decimal text. */
  lemma StringConcatenation(n: Node, s: string, t: string, i: JavaInt.Int32)
    ensures BinaryValue(n, Some(Str(s)), Tokens.Plus, Some(Str(t))) == Normal(Succeeded(Some(Str(s + t))))
    ensures BinaryValue(n, Some(Str(s)), Tokens.Plus, Some(Int(i))) == Normal(Succeeded(Some(Str(s + DecimalText(i)))))
    ensures BinaryValue(n, Some(Int(i)), Tokens.Plus, Some(Str(t))) == Normal(Succeeded(Some(Str(DecimalText(i) + t))))
  {
    StringAddStrings(s, t);
    var r := StringAdd(s, Some(Int(i)));
    assert Show(Int(i)) == Some(DecimalText(i));
    assert r.value.s == r.value.s[..|s|] + r.value.s[|s|..];
  }

  /** A string times a non-negative int repeats it, unless the copies overflow a Java string; a negative count throws. */
  lemma StringRepetition(n: Node, s: string, i: JavaInt.Int32)
    ensures i >= 0 && !RepeatOverflows(s, i) ==> BinaryValue(n, Some(Str(s)), Tokens.Multiply, Some(Int(i))) == Normal(Succeeded(Some(Str(Repeat(s, i)))))
    ensures i >= 0 && RepeatOverflows(s, i) ==> BinaryValue(n, Some(Str(s)), Tokens.Multiply, Some(Int(i))) == Abrupt(OutOfMemory)
    ensures i < 0 ==> BinaryValue(n, Some(Str(s)), Tokens.Multiply, Some(Int(i))) == Abrupt(IllegalArgument)
  {
  }

  /** A left operand that is neither a number nor a string is added as its string form. */
  lemma NonStringLeftIsStringified(n: Node, x: Value, right: Option<Value>)
    requires !x.IsNumber() && !x.Str? && Show(x).Some?
    ensures BinaryValue(n, Some(x), Tokens.Plus, right) == BinaryValue(n, Some(Str(Show(x).value)), Tokens.Plus, right)
  {
  }

  /** `- / % **` and `*` with a left operand that is neither a number nor a string are not failures: they give an error value naming the operand's type. */
  lemma NonNumberLeftIsErrorValue(n: Node, x: Value, kind: Tokens.TokenType, right: Option<Value>)
    requires kind in {Tokens.Minus, Tokens.Multiply, Tokens.Divide, Tokens.Modulo, Tokens.Power}
    requires !x.IsNumber() && !x.Str?
    ensures var r := BinaryValue(n, Some(x), kind, right);
      r.Normal? && r.value.Success() && !r.value.ShouldReturn() && r.value.result.Some? && r.value.result.value.Error? &&
      r.value.result.value.error == AtNode(n, "Invalid operand type '" + TypeName(x) + "' used in " + kind.Name() + " expression")
  {
    var op := match kind
      case Minus => Subtract case Multiply => Operation.Multiply case Divide => Operation.Divide
      case Modulo => Operation.Modulo case _ => Operation.Power;
    assert op.Symbol() == kind.Name();
    assert Execute(n, Some(x), kind, right) == Arith(op, n, Some(x), right);
  }

  /** A null left operand throws, whatever the operator. */
  lemma NullLeftThrows(n: Node, kind: Tokens.TokenType, right: Option<Value>)
    requires kind in {Tokens.Plus, Tokens.Minus, Tokens.Multiply, Tokens.Divide, Tokens.Modulo, Tokens.Power}
    ensures BinaryValue(n, None, kind, right) == Abrupt(NullPointer)
  {
    match kind
    case Plus =>
    case Minus => assert Execute(n, None, kind, right) == Arith(Subtract, n, None, right);
    case Multiply => assert Execute(n, None, kind, right) == Arith(Multiply, n, None, right);
    case Divide => assert Execute(n, None, kind, right) == Arith(Divide, n, None, right);
    case Modulo => assert Execute(n, None, kind, right) == Arith(Modulo, n, None, right);
    case Power => assert Execute(n, None, kind, right) == Arith(Power, n, None, right);
  }

  // Unary operations

  /** An operand that signals is passed on and the operator is not applied. */
  lemma UnaryOperandSignalPropagates(fuel: nat, op: Tokens.Token, operand: Node, env: Chain)
    requires var v := Visit(fuel, Some(operand), env); v.outcome.Normal? && v.outcome.value.ShouldReturn()
    ensures var v := Visit(fuel, Some(operand), env);
      HandleUnary(fuel, op, operand, env) == Run(Normal(Propagated(v.outcome.value)), v.env)
  {
  }

  /** `-` of an int negates it with wrap-around, so the least int is its own negation; `+` keeps it. */
  lemma IntNegation(op: Tokens.Token, operand: Node, i: JavaInt.Int32)
    ensures op.kind == Tokens.Minus ==> Unary(op, operand, Some(Int(i))) == Normal(Succeeded(Some(Int(Wrap32(-(i as int))))))
    ensures op.kind == Tokens.Minus && i == IntMin ==> Unary(op, operand, Some(Int(i))) == Normal(Succeeded(Some(Int(IntMin))))
    ensures op.kind == Tokens.Plus ==> Unary(op, operand, Some(Int(i))) == Normal(Succeeded(Some(Int(i))))
  {
    assert Wrap32(-IntMin) == IntMin;
  }

  /** `-` of a long throws: `invertNumber` has no long case. */
  lemma LongNegationThrows(op: Tokens.Token, operand: Node, l: JavaInt.Int64)
    requires op.kind == Tokens.Minus
    ensures Unary(op, operand, Some(Long(l))).Abrupt?
  {
  }

  /** A string operand is read as a number first: the decimal text of an int behaves as that int. */
  lemma StringOperandIsParsed(op: Tokens.Token, operand: Node, i: JavaInt.Int32)
    ensures Unary(op, operand, Some(Str(DecimalText(i)))) == Unary(op, operand, Some(Int(i)))
  {
    FromStringReadsInts(i);
  }

  /** A string that is not a number throws the NumberFormatException of reading it. */
  lemma NonNumericStringThrows(op: Tokens.Token, operand: Node, s: string)
    requires FromString(s).Abrupt?
    ensures Unary(op, operand, Some(Str(s))) == Abrupt(NumberFormat(s))
  {
  }

  /** `!` negates a boolean; `+` and `-` of a boolean give an error value, not a failure. */
  lemma BooleanOperators(op: Tokens.Token, operand: Node, b: bool)
    ensures op.kind == Tokens.Not ==> Unary(op, operand, Some(Bool(b))) == Normal(Succeeded(Some(Bool(!b))))
    ensures op.kind == Tokens.Plus || op.kind == Tokens.Minus ==>
      var r := Unary(op, operand, Some(Bool(b)));
      r.Normal? && !r.value.ShouldReturn() && r.value.result.Some? && r.value.result.value.Error?
  {
  }

  /** `!` of a number gives an error value, not a failure. */
  lemma NotOnNumberIsErrorValue(op: Tokens.Token, operand: Node, x: Value)
    requires op.kind == Tokens.Not && x.IsNumber()
    ensures var r := Unary(op, operand, Some(x));
      r.Normal? && !r.value.ShouldReturn() && r.value.result.Some? && r.value.result.value.Error?
  {
  }

  /** An operand that is not a number, a string or a boolean fails, from the operator to the end of the operand, naming its type; null throws. */
  lemma OtherOperandsFail(op: Tokens.Token, operand: Node, x: Value)
    requires !x.IsNumber() && !x.Str? && !x.Bool?
    ensures Unary(op, operand, Some(x)) == Normal(Failed(SkError(RuntimeError, Some(op.start), operand.end, "Expected number or string type, instead found " + TypeName(x))))
    ensures Unary(op, operand, None) == Abrupt(NullPointer)
  {
  }

  /** An operator other than `+ - !` throws, naming the operator, for a number or a boolean operand. */
  lemma OnlyUnaryOperators(op: Tokens.Token, operand: Node, x: Value)
    requires op.kind !in {Tokens.Plus, Tokens.Minus, Tokens.Not} && (x.IsNumber() || x.Bool?)
    ensures Unary(op, operand, Some(x)) == Abrupt(Unsupported("Invalid unary operator passed: " + Tokens.ToString(op)))
  {
  }

  // Variables

  /** An access reads the nearest value and changes nothing; it fails exactly when no table on the chain has the name. */
  lemma VarAccessReadsOnly(t: Tokens.Token, name: string, env: Chain)
    requires t.value == Some(name)
    ensures HandleVarAccess(t, env).env == env
    ensures var o := HandleVarAccess(t, env).outcome;
      o.Normal? && (o.value.Success() <==> ChainContains(env, name)) &&
      (o.value.Success() ==> o == Normal(Succeeded(ChainGet(env, name)))) &&
      (!o.value.Success() ==> o == Normal(Failed(OfToken(RuntimeError, t, Semantics.NotDefined(name)))))
  {
  }

  /** A declaration binds a new SkNull in the current table, whatever the parents hold; a name the current table has gives an error value and changes nothing. */
  lemma DeclareBindsNull(n: Node, t: Tokens.Token, name: string, env: Chain)
    requires t.value == Some(name)
    ensures var r := HandleVarDeclare(n, t, env);
      if ChainContainsHere(env, name) then
        r == Run(Normal(Succeeded(Some(Error(AtNode(n, AlreadyDefined(name)))))), env)
      else
        r.outcome == Normal(Succeeded(Some(Null))) && ChainContainsHere(r.env, name) &&
        ChainGet(r.env, name) == Some(Null) && r.env[1..] == env[1..]
  {
    PutThenGet(env, name, Null);
  }

  /**
   * A definition binds the value in the current table even when a parent has
   * the name, and gives an error value when the current table has it. A value
   * that failed is taken as it is: its signal is dropped.
   */
  lemma AssignBindsInCurrentTable(fuel: nat, n: Node, t: Tokens.Token, name: string, initial: Node, env: Chain)
    requires t.value == Some(name)
    requires Visit(fuel, Some(initial), env).outcome.Normal?
    ensures var v := Visit(fuel, Some(initial), env); var r := HandleVarAssign(fuel, n, t, Some(initial), env);
      if ChainContainsHere(v.env, name) then
        r == Run(Normal(Succeeded(Some(Error(AtNode(n, AlreadyDefined(name)))))), v.env)
      else
        r.outcome == Normal(Succeeded(v.outcome.value.result)) && ChainContainsHere(r.env, name) &&
        r.env == ChainPut(v.env, name, v.outcome.value.result)
  {
  }

  /** A value that fails still defines the name: it is bound to the failed result's value, which is null. */
  lemma AssignIgnoresFailure(fuel: nat, n: Node, t: Tokens.Token, name: string, initial: Node, env: Chain, e: SkError)
    requires t.value == Some(name)
    requires Visit(fuel, Some(initial), env).outcome == Normal(Failed(e))
    requires !ChainContainsHere(Visit(fuel, Some(initial), env).env, name)
    ensures var r := HandleVarAssign(fuel, n, t, Some(initial), env);
      r.outcome == Normal(Succeeded(None)) && r.outcome.value.Success() && ChainContainsHere(r.env, name) &&
      ChainGet(r.env, name) == ChainGet(Visit(fuel, Some(initial), env).env[1..], name)
  {
  }

  /** A definition without a value fails as a visit of null does. */
  lemma AssignWithoutValueFails(fuel: nat, n: Node, t: Tokens.Token, name: string, env: Chain)
    requires t.value == Some(name)
    ensures HandleVarAssign(fuel, n, t, None, env) == Run(Abrupt(Unsupported(NullNode)), env)
  {
  }

  /**
   * A reassignment passes a signalling value on; otherwise it refuses a name
   * the current table already has and binds any other in the current table:
   * it behaves as a definition whose value's signals count.
   */
  lemma ReassignBehavesAsDefinition(fuel: nat, n: Node, t: Tokens.Token, name: string, value: Node, env: Chain)
    requires t.value == Some(name)
    requires Visit(fuel, Some(value), env).outcome.Normal?
    ensures var v := Visit(fuel, Some(value), env); var r := HandleVarReassign(fuel, n, t, value, env);
      if v.outcome.value.ShouldReturn() then r == Run(Normal(Propagated(v.outcome.value)), v.env)
      else if ChainContainsHere(v.env, name) then r == Run(Normal(Failed(AtNode(n, AlreadyDefined(name)))), v.env)
      else r == HandleVarAssign(fuel, n, t, Some(value), env)
  {
  }

  /**
   * A deletion gives an error value and changes nothing when no table has the
   * name or the current table is immutable; otherwise it gives the value the
   * name had and removes it from the nearest table that has it, unless that
   * table is immutable.
   */
  lemma DeleteRemovesNearestOnly(n: Node, t: Tokens.Token, name: string, env: Chain)
    requires t.value == Some(name)
    ensures var r := HandleVarDelete(n, t, env);
      r.outcome.Normal? && r.outcome.value.Success() && !r.outcome.value.ShouldReturn() &&
      (!ChainContains(env, name) || env[0].immutable ==> r.env == env && r.outcome.value.result.Some? && r.outcome.value.result.value.Error?)
    ensures var r := HandleVarDelete(n, t, env);
      ChainContains(env, name) && !env[0].immutable ==>
        r.outcome.value.result == ChainGet(env, name) && FindTable(env, name).Some? &&
        var k := FindTable(env, name).value;
        (if env[k].immutable then r.env == env else r.env == RemoveAt(env, k, name))
  {
    DeleteRemovesNearest(env, name);
  }

  // Parameter order

  /** Some parameter before `i` is a spread parameter. */
  predicate SpreadBefore(ps: seq<Parameter>, i: nat)
    requires i <= |ps|
  {
    exists j | 0 <= j < i :: ps[j].spread
  }

  /** Some parameter before `i` has a default. */
  predicate DefaultBefore(ps: seq<Parameter>, i: nat)
    requires i <= |ps|
  {
    exists j | 0 <= j < i :: ps[j].default.Some?
  }

  /** Parameter `i` is an ordinary one after a spread, or a required one after a default. */
  predicate Misplaced(ps: seq<Parameter>, i: nat)
    requires i < |ps|
  {
    (!ps[i].spread && SpreadBefore(ps, i)) || (ps[i].default.None? && DefaultBefore(ps, i))
  }

  /** The order the check enforces: the spread parameters come last, and so do the parameters with a default. */
  predicate WellOrdered(ps: seq<Parameter>)
  {
    forall i, j | 0 <= i < j < |ps| :: (ps[i].spread ==> ps[j].spread) && (ps[i].default.Some? ==> ps[j].default.Some?)
  }

  /** The error the check reports for a misplaced parameter; the spread test comes first. */
  function MisplacedError(nodes: seq<Node>, ps: seq<Parameter>, i: nat): SkError
    requires |nodes| == |ps| && i < |ps|
  {
    if !ps[i].spread && SpreadBefore(ps, i) then AtNode(nodes[i], SpreadRepeated)
    else AtNode(nodes[i], RequiredAfterDefault)
  }

  /** The flags after parameter `i`: those before it, or what `i` itself is. */
  lemma BeforeStep(ps: seq<Parameter>, i: nat)
    requires i < |ps|
    ensures SpreadBefore(ps, i + 1) == (SpreadBefore(ps, i) || ps[i].spread)
    ensures DefaultBefore(ps, i + 1) == (DefaultBefore(ps, i) || ps[i].default.Some?)
  {
  }

  /** From index `i` on, with flags that record the parameters before it, the check finds the first misplaced parameter from `i` on, or none. */
  lemma {:induction false} ValidateFromFindsFirst(nodes: seq<Node>, ps: seq<Parameter>, i: nat, spreadBefore: bool, defaultBefore: bool)
    requires |ps| == |nodes| && i <= |nodes|
    requires spreadBefore == SpreadBefore(ps, i) && defaultBefore == DefaultBefore(ps, i)
    ensures ValidateFrom(nodes, ps, i, spreadBefore, defaultBefore).None? <==> forall k | i <= k < |ps| :: !Misplaced(ps, k)
    ensures ValidateFrom(nodes, ps, i, spreadBefore, defaultBefore).Some? ==>
      exists k | i <= k < |ps| :: Misplaced(ps, k) && (forall j | i <= j < k :: !Misplaced(ps, j)) &&
        ValidateFrom(nodes, ps, i, spreadBefore, defaultBefore) == Some(MisplacedError(nodes, ps, k))
    decreases |nodes| - i
  {
    if i < |nodes| {
      if Misplaced(ps, i) {
        assert ValidateFrom(nodes, ps, i, spreadBefore, defaultBefore) == Some(MisplacedError(nodes, ps, i));
      } else {
        var sb := spreadBefore || ps[i].spread;
        var db := defaultBefore || ps[i].default.Some?;
        BeforeStep(ps, i);
        ValidateFromFindsFirst(nodes, ps, i + 1, sb, db);
        var rest := ValidateFrom(nodes, ps, i + 1, sb, db);
        assert ValidateFrom(nodes, ps, i, spreadBefore, defaultBefore) == rest;
        if rest.Some? {
          var k :| i + 1 <= k < |ps| && Misplaced(ps, k) && (forall j | i + 1 <= j < k :: !Misplaced(ps, j)) &&
            rest == Some(MisplacedError(nodes, ps, k));
          assert forall j | i <= j < k :: !Misplaced(ps, j);
        }
      }
    }
  }

  /** No parameter is misplaced exactly when the order is the one the check enforces. */
  lemma MisplacedIffDisordered(ps: seq<Parameter>)
    ensures (forall k | 0 <= k < |ps| :: !Misplaced(ps, k)) <==> WellOrdered(ps)
  {
    if forall k | 0 <= k < |ps| :: !Misplaced(ps, k) {
      forall i, j | 0 <= i < j < |ps|
        ensures (ps[i].spread ==> ps[j].spread) && (ps[i].default.Some? ==> ps[j].default.Some?)
      {
        assert !Misplaced(ps, j);
        if ps[i].spread { assert SpreadBefore(ps, j); }
        if ps[i].default.Some? { assert DefaultBefore(ps, j); }
      }
    }
  }

  /** A definition's parameters pass the check exactly when they are well ordered; otherwise the error is at the first misplaced one. */
  lemma ValidationIff(nodes: seq<Node>, ps: seq<Parameter>)
    requires |ps| == |nodes|
    ensures ValidateParameters(nodes, ps).None? <==> WellOrdered(ps)
    ensures ValidateParameters(nodes, ps).Some? ==>
      exists k | 0 <= k < |ps| :: Misplaced(ps, k) && (forall j | 0 <= j < k :: !Misplaced(ps, j)) &&
        ValidateParameters(nodes, ps) == Some(MisplacedError(nodes, ps, k))
  {
    ValidateFromFindsFirst(nodes, ps, 0, false, false);
    MisplacedIffDisordered(ps);
  }

  // Call arity

  /** A call passes the count check exactly when the number of arguments lies between the required count and the allowed count. */
  lemma ArityWindow(ps: seq<Parameter>, count: nat)
    ensures ValidateCall(ps, count).None? <==> Required(ps) <= count <= Allowed(ps)
    ensures Required(ps) <= |ps|
    ensures |ps| > 0 && ps[|ps| - 1].default.Some? ==> Allowed(ps) == IntMax
    ensures !(|ps| > 0 && ps[|ps| - 1].default.Some?) ==> Allowed(ps) == |ps|
  {
  }

  /** For well-ordered parameters the required count is the number without a default. */
  lemma RequiredOfWellOrdered(ps: seq<Parameter>)
    requires WellOrdered(ps)
    ensures forall i | 0 <= i < |ps| :: (i < Required(ps) <==> ps[i].default.None?)
  {
    var m := Required(ps);
    forall i | 0 <= i < |ps|
      ensures i < m <==> ps[i].default.None?
    {
      if m <= i {
        assert ps[m].default.Some?;
      }
    }
  }

  /** The count check reads the defaults only: the spread flags and names change nothing, so a spread parameter takes exactly one argument. */
  lemma {:induction false} RequiredReadsDefaultsOnly(ps: seq<Parameter>, qs: seq<Parameter>)
    requires |ps| == |qs| && forall i | 0 <= i < |ps| :: ps[i].default == qs[i].default
    ensures Required(ps) == Required(qs)
    decreases |ps|
  {
    if |ps| > 0 && ps[0].default.None? {
      RequiredReadsDefaultsOnly(ps[1..], qs[1..]);
    }
  }

  /** A spread parameter does not gather extra arguments: a function of one spread parameter and no default takes exactly one. */
  lemma SpreadTakesOneArgument(name: string, count: nat)
    ensures ValidateCall([Parameter(Some(name), None, true)], count).None? <==> count == 1
  {
  }

  /** As written, a count outside the window throws a NullPointerException, where the evident intent is an arity failure. */
  lemma WrongCountThrows(ps: seq<Parameter>, count: nat)
    requires count < Required(ps) || count > Allowed(ps)
    ensures ValidateCallAsWritten(ps, count) == Abrupt(NullPointer)
    ensures ValidateCall(ps, count) == Some(SkError(RuntimeError, None, None, ArityMessage(ps, count)))
  {
  }

  /** As written, any call with fewer than ten parameters or arguments that passes the count throws an IndexOutOfBoundsException. */
  lemma SmallCallsThrow(ps: seq<Parameter>, count: nat)
    requires Required(ps) <= count <= Allowed(ps) && (|ps| < 10 || count < 10)
    ensures ValidateCallAsWritten(ps, count) == Abrupt(IndexOutOfBounds)
    ensures ValidateCall(ps, count) == None
  {
  }

  /** As written the check lets a call through only when the corrected check does and there are at least ten parameters and arguments. */
  lemma AsWrittenPassesOnlyLargeCalls(ps: seq<Parameter>, count: nat)
    ensures ValidateCallAsWritten(ps, count) == Normal(None) <==> ValidateCall(ps, count).None? && |ps| >= 10 && count >= 10
    ensures ValidateCallAsWritten(ps, count).Normal? ==> ValidateCallAsWritten(ps, count).value == ValidateCall(ps, count)
  {
  }

  /** The smallest witness: a function without parameters called without arguments throws as written, and is accepted by the corrected check. */
  lemma NullaryCallThrows()
    ensures ValidateCallAsWritten([], 0) == Abrupt(IndexOutOfBounds)
    ensures ValidateCall([], 0) == None
  {
  }

  /** `runs` are the visits of the entries `order[k..]`, each in the chain the one before left, and none of them signals. */
  predicate EntriesOrdinary(fuel: nat, entries: map<string, Node>, order: seq<string>, k: nat, env: Chain, runs: seq<Run>)
    requires forall i | 0 <= i < |order| :: order[i] in entries
    decreases |runs|
  {
    |runs| == 0 ||
    (k < |order| && runs[0] == Visit(fuel, Some(entries[order[k]]), env) &&
     runs[0].outcome.Normal? && !runs[0].outcome.value.ShouldReturn() &&
     EntriesOrdinary(fuel, entries, order, k + 1, runs[0].env, runs[1..]))
  }

  /** Ordinary entry runs all completed normally, and there are no more of them than entries from `k` on. */
  lemma {:induction false} EntriesAreNormal(fuel: nat, entries: map<string, Node>, order: seq<string>, k: nat, env: Chain, runs: seq<Run>)
    requires forall i | 0 <= i < |order| :: order[i] in entries
    requires k <= |order| && EntriesOrdinary(fuel, entries, order, k, env, runs)
    ensures k + |runs| <= |order|
    ensures forall i | 0 <= i < |runs| :: runs[i].outcome.Normal?
    decreases |runs|
  {
    if |runs| > 0 {
      EntriesAreNormal(fuel, entries, order, k + 1, runs[0].env, runs[1..]);
      forall i | 0 < i < |runs|
        ensures runs[i].outcome.Normal?
      {
        assert runs[i] == runs[1..][i - 1];
      }
    }
  }

  /** `acc` with the keys `order[k..]` bound, in turn, to the values the runs carry. */
  function Gathered(acc: map<string, Option<Value>>, order: seq<string>, k: nat, runs: seq<Run>): map<string, Option<Value>>
    requires k + |runs| <= |order| && forall i | 0 <= i < |runs| :: runs[i].outcome.Normal?
    decreases |runs|
  {
    if |runs| == 0 then acc
    else Gathered(acc[order[k] := runs[0].outcome.value.result], order, k + 1, runs[1..])
  }

  /** Gathering adds exactly the visited keys. */
  lemma {:induction false} GatheredKeys(acc: map<string, Option<Value>>, order: seq<string>, k: nat, runs: seq<Run>)
    requires k + |runs| <= |order| && forall i | 0 <= i < |runs| :: runs[i].outcome.Normal?
    ensures Gathered(acc, order, k, runs).Keys == acc.Keys + (set i | k <= i < k + |runs| :: order[i])
    decreases |runs|
  {
    if |runs| > 0 {
      GatheredKeys(acc[order[k] := runs[0].outcome.value.result], order, k + 1, runs[1..]);
      assert (set i | k <= i < k + |runs| :: order[i]) == {order[k]} + (set i | k + 1 <= i < k + |runs| :: order[i]);
    }
  }

  /** Gathering leaves a key that is not visited as it was. */
  lemma {:induction false} GatheredKeeps(acc: map<string, Option<Value>>, order: seq<string>, k: nat, runs: seq<Run>, key: string)
    requires k + |runs| <= |order| && forall i | 0 <= i < |runs| :: runs[i].outcome.Normal?
    requires key in acc && forall i | k <= i < k + |runs| :: order[i] != key
    ensures key in Gathered(acc, order, k, runs) && Gathered(acc, order, k, runs)[key] == acc[key]
    decreases |runs|
  {
    if |runs| > 0 {
      GatheredKeeps(acc[order[k] := runs[0].outcome.value.result], order, k + 1, runs[1..], key);
    }
  }

  /** With distinct keys, gathering binds the `i`th visited key to the `i`th run's value. */
  lemma {:induction false} GatheredValue(acc: map<string, Option<Value>>, order: seq<string>, k: nat, runs: seq<Run>, i: nat)
    requires k + |runs| <= |order| && forall i | 0 <= i < |runs| :: runs[i].outcome.Normal?
    requires forall i, j | 0 <= i < j < |order| :: order[i] != order[j]
    requires i < |runs|
    ensures order[k + i] in Gathered(acc, order, k, runs) && Gathered(acc, order, k, runs)[order[k + i]] == runs[i].outcome.value.result
    decreases |runs|
  {
    var acc' := acc[order[k] := runs[0].outcome.value.result];
    var rest := runs[1..];
    assert Gathered(acc, order, k, runs) == Gathered(acc', order, k + 1, rest);
    if i == 0 {
      assert forall m | k + 1 <= m < k + 1 + |rest| :: order[m] != order[k];
      GatheredKeeps(acc', order, k + 1, rest, order[k]);
    } else {
      GatheredValue(acc', order, k + 1, rest, i - 1);
      assert runs[i] == rest[i - 1];
      assert k + i == (k + 1) + (i - 1);
    }
  }

  /** Gathering every entry of a literal from nothing gives exactly the literal's keys, each bound to its own run's value. */
  lemma GatheredObject(entries: map<string, Node>, order: seq<string>, runs: seq<Run>)
    requires Enumerates(order, entries.Keys)
    requires |runs| == |order| && forall i | 0 <= i < |runs| :: runs[i].outcome.Normal?
    ensures Gathered(map[], order, 0, runs).Keys == entries.Keys
    ensures forall i | 0 <= i < |order| :: Gathered(map[], order, 0, runs)[order[i]] == runs[i].outcome.value.result
  {
    var g := Gathered(map[], order, 0, runs);
    GatheredKeys(map[], order, 0, runs);
    assert g.Keys == (set i | 0 <= i < |order| :: order[i]) == entries.Keys;
    forall i | 0 <= i < |order|
      ensures g[order[i]] == runs[i].outcome.value.result
    {
      GatheredValue(map[], order, 0, runs, i);
      assert order[0 + i] == order[i];
    }
  }

  /** From entry `k` on, entries that all complete without a signal give the object of the gathered values, in the chain the last entry left. */
  lemma {:induction false} ObjectFromOrdinary(fuel: nat, entries: map<string, Node>, order: seq<string>, k: nat, acc: map<string, Option<Value>>, env: Chain, runs: seq<Run>)
    requires k <= |order| && forall i | 0 <= i < |order| :: order[i] in entries
    requires |runs| == |order| - k && EntriesOrdinary(fuel, entries, order, k, env, runs)
    ensures forall i | 0 <= i < |runs| :: runs[i].outcome.Normal?
    ensures ObjectLoop(fuel, entries, order, k, acc, env) ==
      Run(Normal(Succeeded(Some(Object(Gathered(acc, order, k, runs), None)))), LastEnv(env, runs))
    decreases |runs|
  {
    EntriesAreNormal(fuel, entries, order, k, env, runs);
    if |runs| > 0 {
      var r := runs[0];
      ObjectFromOrdinary(fuel, entries, order, k + 1, acc[order[k] := r.outcome.value.result], r.env, runs[1..]);
      LastEnvRest(env, runs);
    }
  }

  /** From entry `k` on, the first entry that signals ends the loop with its run, propagated. */
  lemma {:induction false} ObjectFromSignal(fuel: nat, entries: map<string, Node>, order: seq<string>, k: nat, acc: map<string, Option<Value>>, env: Chain, runs: seq<Run>)
    requires k <= |order| && forall i | 0 <= i < |order| :: order[i] in entries
    requires k + |runs| < |order| && EntriesOrdinary(fuel, entries, order, k, env, runs)
    requires Signals(Visit(fuel, Some(entries[order[k + |runs|]]), LastEnv(env, runs)))
    ensures ObjectLoop(fuel, entries, order, k, acc, env) == Propagation(Visit(fuel, Some(entries[order[k + |runs|]]), LastEnv(env, runs)))
    decreases |runs|
  {
    if |runs| > 0 {
      var r := runs[0];
      EntriesAreNormal(fuel, entries, order, k, env, runs);
      LastEnvRest(env, runs);
      ObjectFromSignal(fuel, entries, order, k + 1, acc[order[k] := r.outcome.value.result], r.env, runs[1..]);
    }
  }

  /**
   * An object literal whose entries all complete without a signal is an object
   * with no class that binds each key to the result of visiting its own entry.
   */
  lemma ObjectOfOrdinary(fuel: nat, entries: map<string, Node>, order: seq<string>, env: Chain, runs: seq<Run>)
    requires Enumerates(order, entries.Keys)
    requires |runs| == |order| && EntriesOrdinary(fuel, entries, order, 0, env, runs)
    ensures forall i | 0 <= i < |runs| :: runs[i].outcome.Normal?
    ensures var r := HandleObject(fuel, entries, order, env);
      r.env == LastEnv(env, runs) && r.outcome.Normal? && r.outcome.value.Success() &&
      r.outcome.value.result.Some? && r.outcome.value.result.value.Object? &&
      r.outcome.value.result.value.className.None? &&
      r.outcome.value.result.value.entries.Keys == entries.Keys &&
      forall i | 0 <= i < |order| :: r.outcome.value.result.value.entries[order[i]] == runs[i].outcome.value.result
  {
    ObjectFromOrdinary(fuel, entries, order, 0, map[], env, runs);
    GatheredObject(entries, order, runs);
  }

  /**
   * The first entry that signals ends the literal: an abrupt completion is
   * returned as it is, any other signal is propagated, and no later entry is
   * visited.
   */
  lemma ObjectReturnsFirstSignal(fuel: nat, entries: map<string, Node>, order: seq<string>, env: Chain, runs: seq<Run>)
    requires Enumerates(order, entries.Keys)
    requires |runs| < |order| && EntriesOrdinary(fuel, entries, order, 0, env, runs)
    requires Signals(Visit(fuel, Some(entries[order[|runs|]]), LastEnv(env, runs)))
    ensures HandleObject(fuel, entries, order, env) == Propagation(Visit(fuel, Some(entries[order[|runs|]]), LastEnv(env, runs)))
  {
    ObjectFromSignal(fuel, entries, order, 0, map[], env, runs);
  }

  // Function definition

  /** The parameters of nodes without defaults: one per node, with its name and spread flag. */
  predicate PlainParameters(nodes: seq<Node>)
  {
    forall i | 0 <= i < |nodes| :: nodes[i].kind.FunctionParameterNode? && nodes[i].kind.default.None?
  }

  /** Parameters without defaults visit nothing: the loop finishes in the chain it started in, with one parameter per node. */
  lemma {:induction false} PlainParametersVisitNothing(fuel: nat, nodes: seq<Node>, k: nat, acc: seq<Parameter>, env: Chain)
    requires PlainParameters(nodes) && k <= |nodes| && |acc| == k && BuiltFrom(nodes, acc, k)
    ensures ParamsLoop(fuel, nodes, k, acc, env).Done?
    ensures ParamsLoop(fuel, nodes, k, acc, env).env == env
    ensures var ps := ParamsLoop(fuel, nodes, k, acc, env).items;
      |ps| == |nodes| && ps[..k] == acc &&
      forall i | 0 <= i < |nodes| :: ps[i] == Parameter(nodes[i].kind.name.value, None, nodes[i].kind.spread)
    decreases |nodes| - k
  {
    if k < |nodes| {
      var p := Parameter(nodes[k].kind.name.value, None, nodes[k].kind.spread);
      PlainParametersVisitNothing(fuel, nodes, k + 1, acc + [p], env);
      var ps := ParamsLoop(fuel, nodes, k + 1, acc + [p], env).items;
      assert ps[..k] == (acc + [p])[..k] == acc by {
        assert ps[..k] == ps[..k + 1][..k];
      }
    } else {
      var ps := ParamsLoop(fuel, nodes, k, acc, env).items;
      assert ps == acc;
    }
  }

  /**
   * A definition whose parameters are well ordered and whose body is a scope
   * binds the function in the current table and returns it; one whose
   * parameters are not fails and binds nothing.
   */
  lemma DefineBindsFunction(fuel: nat, n: Node, t: Tokens.Token, name: string, params: seq<Node>, body: Node, env: Chain)
    requires t.value == Some(name)
    requires ParamsLoop(fuel, params, 0, [], env).Done?
    ensures var Done(ps, env') := ParamsLoop(fuel, params, 0, [], env); var r := HandleFunctionDefine(fuel, n, t, params, body, env);
      (WellOrdered(ps) && body.kind.ScopeNode? ==>
        r.outcome == Normal(Succeeded(Some(Function(ps, body.kind.statements)))) &&
        ChainContainsHere(r.env, name) && ChainGet(r.env, name) == Some(Function(ps, body.kind.statements))) &&
      (!WellOrdered(ps) ==> r.env == env' && r.outcome.Normal? && !r.outcome.value.Success())
  {
    var Done(ps, env') := ParamsLoop(fuel, params, 0, [], env);
    ValidationIff(params, ps);
  }

  /**
   * The nodes from `k` up to `j` are parameter nodes whose defaults, visited
   * in turn from `env`, complete without a signal; a node without a default
   * visits nothing. `env'` is the chain the last of them left.
   */
  predicate DefaultsPass(fuel: nat, nodes: seq<Node>, k: nat, j: nat, env: Chain, env': Chain)
    requires k <= j <= |nodes|
    decreases j - k
  {
    if k == j then env' == env
    else
      nodes[k].kind.FunctionParameterNode? &&
      var d := Visit(fuel, nodes[k].kind.default, env);
      if nodes[k].kind.default.None? then DefaultsPass(fuel, nodes, k + 1, j, env, env')
      else d.outcome.Normal? && !d.outcome.value.ShouldReturn() && DefaultsPass(fuel, nodes, k + 1, j, d.env, env')
  }

  /** From node `k` on, the first default that signals stops the parameter loop with that run, propagated. */
  lemma {:induction false} ParamsFromSignal(fuel: nat, nodes: seq<Node>, k: nat, acc: seq<Parameter>, env: Chain, j: nat, env': Chain)
    requires k <= j < |nodes| && |acc| == k && BuiltFrom(nodes, acc, k)
    requires DefaultsPass(fuel, nodes, k, j, env, env')
    requires nodes[j].kind.FunctionParameterNode? && nodes[j].kind.default.Some?
    requires Signals(Visit(fuel, nodes[j].kind.default, env'))
    ensures ParamsLoop(fuel, nodes, k, acc, env) == Stopped(Propagation(Visit(fuel, nodes[j].kind.default, env')))
    decreases j - k
  {
    if k < j {
      var node := nodes[k].kind;
      var d := Visit(fuel, node.default, env);
      var p := Parameter(node.name.value, if node.default.None? then None else d.outcome.value.result, node.spread);
      BuiltFromStep(nodes, acc, k, p);
      ParamsFromSignal(fuel, nodes, k + 1, acc + [p], if node.default.None? then env else d.env, j, env');
    }
  }

  /** A parameter with the node's name and spread flag, and no default where the node has none, extends what the loop has built. */
  lemma BuiltFromStep(nodes: seq<Node>, acc: seq<Parameter>, k: nat, p: Parameter)
    requires k < |nodes| && |acc| == k && BuiltFrom(nodes, acc, k)
    requires nodes[k].kind.FunctionParameterNode? && p.name == nodes[k].kind.name.value && p.spread == nodes[k].kind.spread
    requires nodes[k].kind.default.None? ==> p.default.None?
    ensures BuiltFrom(nodes, acc + [p], k + 1)
  {
    forall i | 0 <= i < k + 1
      ensures nodes[i].kind.FunctionParameterNode? && (acc + [p])[i].name == nodes[i].kind.name.value &&
        (acc + [p])[i].spread == nodes[i].kind.spread && (nodes[i].kind.default.None? ==> (acc + [p])[i].default.None?)
    {
      if i < k {
        assert (acc + [p])[i] == acc[i];
      }
    }
  }

  /**
   * A default that signals ends the definition: an abrupt completion is
   * returned as it is, any other signal is propagated, no later default is
   * visited, and the name is not bound: the chain is the one that default's
   * visit left.
   */
  lemma DefineReturnsFirstSignal(fuel: nat, n: Node, t: Tokens.Token, name: string, params: seq<Node>, body: Node, env: Chain, j: nat, env': Chain)
    requires t.value == Some(name)
    requires j < |params| && DefaultsPass(fuel, params, 0, j, env, env')
    requires params[j].kind.FunctionParameterNode? && params[j].kind.default.Some?
    requires Signals(Visit(fuel, params[j].kind.default, env'))
    ensures var v := Visit(fuel, params[j].kind.default, env'); var r := HandleFunctionDefine(fuel, n, t, params, body, env);
      r == Propagation(v) && r.env == v.env
  {
    ParamsFromSignal(fuel, params, 0, [], env, j, env');
  }

  /** Without defaults, the only misplacement is an ordinary parameter after a spread one, and that is what the check reports. */
  lemma SpreadBeforeOrdinaryReported(nodes: seq<Node>, ps: seq<Parameter>, i: nat, j: nat)
    requires |ps| == |nodes| && forall m | 0 <= m < |ps| :: ps[m].default.None?
    requires i < j < |ps| && ps[i].spread && !ps[j].spread
    ensures ValidateParameters(nodes, ps).Some?
    ensures ValidateParameters(nodes, ps).value.details == SpreadRepeated
  {
    ValidationIff(nodes, ps);
    var k :| 0 <= k < |ps| && Misplaced(ps, k) && ValidateParameters(nodes, ps) == Some(MisplacedError(nodes, ps, k));
    assert !DefaultBefore(ps, k);
  }

  /** A definition without defaults leaves the chain as it was when an ordinary parameter follows a spread one. */
  lemma MisplacedPlainParametersChangeNothing(fuel: nat, n: Node, t: Tokens.Token, name: string, params: seq<Node>, body: Node, env: Chain, i: nat, j: nat)
    requires t.value == Some(name) && PlainParameters(params)
    requires i < j < |params| && params[i].kind.spread && !params[j].kind.spread
    ensures var r := HandleFunctionDefine(fuel, n, t, params, body, env);
      r.env == env && r.outcome.Normal? && r.outcome.value.error.Some? &&
      r.outcome.value.error.value.details == SpreadRepeated
  {
    PlainParametersVisitNothing(fuel, params, 0, [], env);
    var ps := ParamsLoop(fuel, params, 0, [], env).items;
    assert ParamsLoop(fuel, params, 0, [], env) == Done(ps, env);
    SpreadBeforeOrdinaryReported(params, ps, i, j);
  }

  // Function call

  /** Calling a name no table has fails at the name's token, and changes nothing. */
  lemma CallUndefinedFails(fuel: nat, t: Tokens.Token, name: string, args: seq<Node>, env: Chain)
    requires t.value == Some(name) && !ChainContains(env, name)
    ensures HandleFunctionCall(fuel, t, args, env) == Run(Normal(Failed(OfToken(RuntimeError, t, Semantics.NotDefined(name)))), env)
  {
  }

  /** Calling a name bound to anything but a function fails, and no argument is visited. */
  lemma CallNonFunctionFails(fuel: nat, t: Tokens.Token, name: string, args: seq<Node>, env: Chain)
    requires t.value == Some(name) && ChainContains(env, name)
    requires ChainGet(env, name).None? || !ChainGet(env, name).value.Function?
    ensures HandleFunctionCall(fuel, t, args, env) == Run(Normal(Failed(OfToken(RuntimeError, t, "'" + name + "' is not a function"))), env)
  {
  }

  /** The body runs in the caller's own table, after the arguments: no table is added and no argument is bound to a parameter. */
  lemma CallRunsBodyInCallerTable(fuel: nat, t: Tokens.Token, name: string, args: seq<Node>, env: Chain)
    requires t.value == Some(name) && ChainContains(env, name)
    requires ChainGet(env, name).Some? && ChainGet(env, name).value.Function?
    requires ArgsLoop(fuel, args, 0, [], env).Done?
    ensures var f := ChainGet(env, name).value; var Done(values, env') := ArgsLoop(fuel, args, 0, [], env);
      HandleFunctionCall(fuel, t, args, env) ==
        if Required(f.params) <= |args| <= Allowed(f.params) then BodyLoop(fuel, f.statements, 0, env')
        else Run(Normal(Failed(SkError(RuntimeError, None, None, ArityMessage(f.params, |args|)))), env')
  {
  }

  /** A body's statements never give a value of their own: a body that does not signal gives a new SkNull. */
  lemma {:induction false} BodyGivesNull(fuel: nat, statements: seq<Node>, k: nat, env: Chain)
    requires k <= |statements|
    ensures var r := BodyLoop(fuel, statements, k, env);
      r.outcome.Normal? && !r.outcome.value.ShouldReturn() ==> r.outcome == Normal(Succeeded(Some(Null)))
    decreases |statements| - k
  {
    if k < |statements| {
      var r := Visit(fuel, Some(statements[k]), env);
      if r.outcome.Normal? && !r.outcome.value.ShouldReturn() {
        BodyGivesNull(fuel, statements, k + 1, r.env);
      }
    }
  }

  /** From argument `k` on, arguments that all complete without a signal finish the loop with their values, in order. */
  lemma {:induction false} ArgsFromOrdinary(fuel: nat, nodes: seq<Node>, k: nat, acc: seq<Option<Value>>, env: Chain, runs: seq<Run>)
    requires k <= |nodes| && |acc| == k
    requires |runs| == |nodes| - k && AllOrdinary(fuel, nodes, k, env, runs)
    ensures forall i | 0 <= i < |runs| :: runs[i].outcome.Normal?
    ensures ArgsLoop(fuel, nodes, k, acc, env) == Done(acc + Results(runs), LastEnv(env, runs))
    decreases |runs|
  {
    OrdinaryAreNormal(fuel, nodes, k, env, runs);
    if |runs| > 0 {
      var r := runs[0];
      ArgsFromOrdinary(fuel, nodes, k + 1, acc + [r.outcome.value.result], r.env, runs[1..]);
      LastEnvRest(env, runs);
      ResultsStep(runs);
      AppendOne(acc, r.outcome.value.result, Results(runs[1..]));
    } else {
      assert acc + Results(runs) == acc;
    }
  }

  /** The values of the runs are the first one's value followed by the rest's. */
  lemma ResultsStep(runs: seq<Run>)
    requires |runs| > 0 && forall i | 0 <= i < |runs| :: runs[i].outcome.Normal?
    ensures Results(runs) == [runs[0].outcome.value.result] + Results(runs[1..])
  {
  }

  /** Appending one element and then a sequence is appending the two together. */
  lemma AppendOne<T>(acc: seq<T>, x: T, rest: seq<T>)
    ensures acc + ([x] + rest) == (acc + [x]) + rest
  {
  }

  /** From argument `k` on, the first argument that signals stops the loop with its own run. */
  lemma {:induction false} ArgsFromSignal(fuel: nat, nodes: seq<Node>, k: nat, acc: seq<Option<Value>>, env: Chain, runs: seq<Run>)
    requires k <= |nodes| && |acc| == k
    requires k + |runs| < |nodes| && AllOrdinary(fuel, nodes, k, env, runs)
    requires Signals(Visit(fuel, Some(nodes[k + |runs|]), LastEnv(env, runs)))
    ensures ArgsLoop(fuel, nodes, k, acc, env) == Stopped(Visit(fuel, Some(nodes[k + |runs|]), LastEnv(env, runs)))
    decreases |runs|
  {
    if |runs| > 0 {
      var r := runs[0];
      LastEnvRest(env, runs);
      ArgsFromSignal(fuel, nodes, k + 1, acc + [r.outcome.value.result], r.env, runs[1..]);
    }
  }

  /** From statement `k` on, statements that all complete without a signal give a new SkNull in the chain the last one left. */
  lemma {:induction false} BodyFromOrdinary(fuel: nat, statements: seq<Node>, k: nat, env: Chain, runs: seq<Run>)
    requires k <= |statements|
    requires |runs| == |statements| - k && AllOrdinary(fuel, statements, k, env, runs)
    ensures BodyLoop(fuel, statements, k, env) == Run(Normal(Succeeded(Some(Null))), LastEnv(env, runs))
    decreases |runs|
  {
    if |runs| > 0 {
      var r := runs[0];
      BodyFromOrdinary(fuel, statements, k + 1, r.env, runs[1..]);
      LastEnvRest(env, runs);
    }
  }

  /** From statement `k` on, the first statement that signals ends the body with its own run. */
  lemma {:induction false} BodyFromSignal(fuel: nat, statements: seq<Node>, k: nat, env: Chain, runs: seq<Run>)
    requires k + |runs| < |statements| && AllOrdinary(fuel, statements, k, env, runs)
    requires Signals(Visit(fuel, Some(statements[k + |runs|]), LastEnv(env, runs)))
    ensures BodyLoop(fuel, statements, k, env) == Visit(fuel, Some(statements[k + |runs|]), LastEnv(env, runs))
    decreases |runs|
  {
    if |runs| > 0 {
      var r := runs[0];
      LastEnvRest(env, runs);
      BodyFromSignal(fuel, statements, k + 1, r.env, runs[1..]);
    }
  }

  /**
   * The arguments are visited in order, each in the chain the one before
   * left; the first that signals is the call's result as it is, and neither
   * the count check nor the body is reached.
   */
  lemma CallReturnsFirstSignal(fuel: nat, t: Tokens.Token, name: string, args: seq<Node>, env: Chain, runs: seq<Run>)
    requires t.value == Some(name) && ChainContains(env, name)
    requires ChainGet(env, name).Some? && ChainGet(env, name).value.Function?
    requires |runs| < |args| && AllOrdinary(fuel, args, 0, env, runs)
    requires Signals(Visit(fuel, Some(args[|runs|]), LastEnv(env, runs)))
    ensures HandleFunctionCall(fuel, t, args, env) == Visit(fuel, Some(args[|runs|]), LastEnv(env, runs))
  {
    ArgsFromSignal(fuel, args, 0, [], env, runs);
  }

  /**
   * When no argument signals, the count check sees one value per argument and
   * the body runs in the chain the last argument left; a body whose statements
   * all complete without a signal gives a new SkNull, and the first statement
   * that signals is the call's result.
   */
  lemma CallOfOrdinaryArguments(fuel: nat, t: Tokens.Token, name: string, args: seq<Node>, env: Chain, runs: seq<Run>)
    requires t.value == Some(name) && ChainContains(env, name)
    requires ChainGet(env, name).Some? && ChainGet(env, name).value.Function?
    requires |runs| == |args| && AllOrdinary(fuel, args, 0, env, runs)
    ensures var f := ChainGet(env, name).value;
      HandleFunctionCall(fuel, t, args, env) ==
        if Required(f.params) <= |args| <= Allowed(f.params) then BodyLoop(fuel, f.statements, 0, LastEnv(env, runs))
        else Run(Normal(Failed(SkError(RuntimeError, None, None, ArityMessage(f.params, |args|)))), LastEnv(env, runs))
  {
    ArgsFromOrdinary(fuel, args, 0, [], env, runs);
  }

  /** A body whose statements all complete without a signal gives a new SkNull in the chain the last statement left. */
  lemma BodyOfOrdinary(fuel: nat, statements: seq<Node>, env: Chain, runs: seq<Run>)
    requires |runs| == |statements| && AllOrdinary(fuel, statements, 0, env, runs)
    ensures BodyLoop(fuel, statements, 0, env) == Run(Normal(Succeeded(Some(Null))), LastEnv(env, runs))
  {
    BodyFromOrdinary(fuel, statements, 0, env, runs);
  }

  /** The statements run in order, each in the chain the one before left, and the first that signals is the body's result as it is. */
  lemma BodyReturnsFirstSignal(fuel: nat, statements: seq<Node>, env: Chain, runs: seq<Run>)
    requires |runs| < |statements| && AllOrdinary(fuel, statements, 0, env, runs)
    requires Signals(Visit(fuel, Some(statements[|runs|]), LastEnv(env, runs)))
    ensures BodyLoop(fuel, statements, 0, env) == Visit(fuel, Some(statements[|runs|]), LastEnv(env, runs))
  {
    BodyFromSignal(fuel, statements, 0, env, runs);
  }

  /** Example of `BodyOfOrdinary`: a function defined without parameters and with an empty body, called without arguments, gives a new SkNull and changes nothing. */
  lemma EmptyFunctionGivesNull(fuel: nat, t: Tokens.Token, name: string, env: Chain)
    requires t.value == Some(name) && ChainGet(env, name) == Some(Function([], []))
    ensures HandleFunctionCall(fuel, t, [], env) == Run(Normal(Succeeded(Some(Null))), env)
  {
    ContainsSomewhere(env, name);
    GetIsNearestValue(env, name);
  }
}
