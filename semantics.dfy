/**
 * The evaluator (interpret/Interpreter.java and interpret/handlers) as a
 * reference semantics on values. A visit takes the node and the scope chain of
 * the context's variable table and gives what the handler comes to, together
 * with the chain afterwards. The Java call stack is bounded by `fuel`: a visit
 * with no fuel left stands for the StackOverflowError a deep recursion meets.
 *
 * Every handler here returns a RuntimeResult. The handlers that return a bare
 * SkValue (Number, Bool, VarAssign, VarDeclare, VarDelete) are lifted to a
 * successful result carrying that value.
 */
module Semantics {
  import opened Wrappers
  import opened Errors
  import opened Values
  import opened Ast
  import Tokens
  import JavaInt
  import opened Arithmetic
  import opened Conversions
  import opened Scope
  import opened RuntimeResults

  /** What a visit comes to, and the scope chain afterwards. */
  datatype Run = Run(outcome: Exec<Outcome>, env: Chain)

  /** A loop over child nodes: finished, with what it gathered, or stopped with what its handler returns. */
  datatype Loop<T> = Done(items: seq<T>, env: Chain) | Stopped(run: Run)

  // Messages

  const NullNode: string := "Found null node or context"
  const OperationFailed: string := "An error occurred whilst performing this operation."
  const SpreadRepeated: string := "Unexpected spread operator: already found one"
  const RequiredAfterDefault: string := "Unexpected required parameter after default parameter"

  /** The RuntimeException `visit` throws for a node class with no handler. */
  function MissingHandler(className: string): (f: Fault)
    ensures f.Unsupported?
  {
    Unsupported("SkInterpreter missing Node handler for type class com.zytekaron.sk.parse.nodes." + className)
  }

  function AlreadyDefined(name: string): string
  {
    "Variable '" + name + "' is already defined in this scope"
  }

  function NotDefined(name: string): string
  {
    "'" + name + "' is not defined"
  }

  /** SkRuntimeError built from a node: the node's span. */
  function AtNode(n: Node, details: string): (e: SkError)
    ensures e.name == RuntimeError && e.start == n.start && e.end == n.end && e.details == details
  {
    SkError(RuntimeError, n.start, n.end, details)
  }

  /** What a handler's own result holds after registering a child that signals: the child's signals, and no value. */
  function Propagated(child: Outcome): (o: Outcome)
    ensures o == Registered(Cleared(), child)
    ensures o.ShouldReturn() == child.ShouldReturn() && o.result.None?
  {
    child.(result := None)
  }

  /** A value-returning step lifted to a successful result; a fault or an unmodelled path stays as it is. */
  function SucceedWith(e: Exec<Option<Value>>): (r: Exec<Outcome>)
    ensures r.Normal? <==> e.Normal?
    ensures r.Normal? ==> r.value == Succeeded(e.value)
    ensures r.Abrupt? ==> e.Abrupt? && r.fault == e.fault
    ensures r.Unmodelled? <==> e.Unmodelled?
  {
    match e
    case Normal(v) => Normal(Succeeded(v))
    case Abrupt(f) => Abrupt(f)
    case Unmodelled(w) => Unmodelled(w)
  }

  // Dispatch

  /** The simple name of each node class. */
  function ClassOf(k: NodeKind): string
  {
    match k
    case NumberNode(_) => "NumberNode"
    case CharNode(_) => "CharNode"
    case StringNode(_) => "StringNode"
    case BoolNode(_) => "BoolNode"
    case VarAccessNode(_) => "VarAccessNode"
    case VarReassignNode(_, _) => "VarReassignNode"
    case VarAssignNode(_, _) => "VarAssignNode"
    case VarDeclareNode(_) => "VarDeclareNode"
    case VarDeleteNode(_) => "VarDeleteNode"
    case ElementAccessNode(_, _) => "ElementAccessNode"
    case FunctionCallNode(_, _) => "FunctionCallNode"
    case UnaryOperationNode(_, _) => "UnaryOperationNode"
    case BinaryOperationNode(_, _, _) => "BinaryOperationNode"
    case ArrayNode(_) => "ArrayNode"
    case ObjectNode(_) => "ObjectNode"
    case ScopeNode(_) => "ScopeNode"
    case FunctionDefineNode(_, _, _) => "FunctionDefineNode"
    case FunctionParameterNode(_, _, _) => "FunctionParameterNode"
    case ReturnNode(_) => "ReturnNode"
  }

  /** The node classes the Interpreter constructor registers a handler for. */
  const Registry: set<string> := {
    "BoolNode", "StringNode", "NumberNode", "ArrayNode", "VarAccessNode", "VarDeleteNode",
    "VarAssignNode", "VarReassignNode", "ReturnNode", "FunctionCallNode", "FunctionDefineNode",
    "UnaryOperationNode", "BinaryOperationNode"
  }

  /** The node kinds with a handler: those of the registered classes. */
  predicate HasHandler(k: NodeKind)
  {
    match k
    case BoolNode(_) => true
    case StringNode(_) => true
    case NumberNode(_) => true
    case ArrayNode(_) => true
    case VarAccessNode(_) => true
    case VarDeleteNode(_) => true
    case VarAssignNode(_, _) => true
    case VarReassignNode(_, _) => true
    case ReturnNode(_) => true
    case FunctionCallNode(_, _) => true
    case FunctionDefineNode(_, _, _) => true
    case UnaryOperationNode(_, _) => true
    case BinaryOperationNode(_, _, _) => true
    case _ => false
  }

  /**
   * `visit`: a null node fails; otherwise the handler registered for the node's
   * exact class runs, and a class without one fails. StringHandler and
   * ReturnHandler are not part of this model.
   */
  function Visit(fuel: nat, node: Option<Node>, env: Chain): (r: Run)
    ensures |r.env| == |env|
    decreases fuel, 0, 0
  {
    if node.None? then Run(Abrupt(Unsupported(NullNode)), env)
    else if fuel == 0 then Run(Abrupt(StackOverflow), env)
    else
      var n := node.value;
      match n.kind
      case BoolNode(t) => Run(Normal(Succeeded(Some(Bool(ParseBoolean(t.value))))), env)
      case StringNode(_) => Run(Unmodelled("StringHandler"), env)
      case NumberNode(t) => Run(SucceedWith(FromToken(t)), env)
      case ArrayNode(elements) => ArrayLoop(fuel - 1, elements, 0, [], env)
      case VarAccessNode(t) => HandleVarAccess(t, env)
      case VarDeleteNode(t) => HandleVarDelete(n, t, env)
      case VarAssignNode(t, initial) => HandleVarAssign(fuel - 1, n, t, initial, env)
      case VarReassignNode(t, value) => HandleVarReassign(fuel - 1, n, t, value, env)
      case ReturnNode(_) => Run(Unmodelled("ReturnHandler"), env)
      case FunctionCallNode(t, args) => HandleFunctionCall(fuel - 1, t, args, env)
      case FunctionDefineNode(t, params, body) => HandleFunctionDefine(fuel - 1, n, t, params, body, env)
      case UnaryOperationNode(op, operand) => HandleUnary(fuel - 1, op, operand, env)
      case BinaryOperationNode(left, op, right) => HandleBinary(fuel - 1, n, left, op, right, env)
      case _ => Run(Abrupt(MissingHandler(ClassOf(n.kind))), env)
  }

  // Variables

  /** VarAccessHandler: the nearest value when the chain has the name, else a failure. */
  function HandleVarAccess(t: Tokens.Token, env: Chain): (r: Run)
    ensures r.env == env
    ensures t.value.Some? ==> r.outcome.Normal? && (r.outcome.value.Success() <==> ChainContains(env, t.value.value))
  {
    match t.value
    case None => Run(Unmodelled("a variable name that is null"), env)
    case Some(name) =>
      if ChainContains(env, name) then Run(Normal(Succeeded(ChainGet(env, name))), env)
      else Run(Normal(Failed(OfToken(RuntimeError, t, NotDefined(name)))), env)
  }

  /** VarDeleteHandler: an error value when the name is not on the chain or the current table is immutable; otherwise the nearest value, after deleting the name. */
  function HandleVarDelete(n: Node, t: Tokens.Token, env: Chain): (r: Run)
    ensures t.value.Some? ==> r.outcome.Normal? && r.outcome.value.Success() && !r.outcome.value.ShouldReturn()
    ensures |r.env| == |env|
  {
    match t.value
    case None => Run(Unmodelled("a variable name that is null"), env)
    case Some(name) =>
      if !ChainContains(env, name) then
        Run(Normal(Succeeded(Some(Error(AtNode(n, "Variable '" + name + "' not defined"))))), env)
      else if env[0].immutable then
        Run(Normal(Succeeded(Some(Error(AtNode(n, "Variable '" + name + "' cannot be deleted"))))), env)
      else Run(Normal(Succeeded(ChainGet(env, name))), ChainDelete(env, name).1)
  }

  /** VarDeclareHandler (registered for no node class): an error value when the current table has the name, else the name bound to a new SkNull. */
  function HandleVarDeclare(n: Node, t: Tokens.Token, env: Chain): (r: Run)
    ensures t.value.Some? ==> r.outcome.Normal? && r.outcome.value.Success() && ChainContainsHere(r.env, t.value.value)
    ensures |r.env| == |env| && r.env[1..] == env[1..]
  {
    match t.value
    case None => Run(Unmodelled("a variable name that is null"), env)
    case Some(name) =>
      if ChainContainsHere(env, name) then Run(Normal(Succeeded(Some(Error(AtNode(n, AlreadyDefined(name)))))), env)
      else Run(Normal(Succeeded(Some(Null))), ChainPut(env, name, Some(Null)))
  }

  /**
   * VarAssignHandler: the value expression is visited first (a missing one makes
   * `visit` fail) and its result's value is taken, whatever it signals. Then an
   * error value when the current table has the name, else the value is bound.
   */
  function HandleVarAssign(fuel: nat, n: Node, t: Tokens.Token, initial: Option<Node>, env: Chain): (r: Run)
    ensures t.value.Some? && r.outcome.Normal? ==>
      r.outcome.value.Success() && !r.outcome.value.ShouldReturn() && ChainContainsHere(r.env, t.value.value)
    ensures |r.env| == |env|
    decreases fuel, 2, 0
  {
    match t.value
    case None => Run(Unmodelled("a variable name that is null"), env)
    case Some(name) =>
      var v := Visit(fuel, initial, env);
      if !v.outcome.Normal? then v
      else if ChainContainsHere(v.env, name) then Run(Normal(Succeeded(Some(Error(AtNode(n, AlreadyDefined(name)))))), v.env)
      else Run(Normal(Succeeded(v.outcome.value.result)), ChainPut(v.env, name, v.outcome.value.result))
  }

  /** VarReassignHandler: the value first, whose signal propagates; then a failure when the current table has the name, else the value is bound. */
  function HandleVarReassign(fuel: nat, n: Node, t: Tokens.Token, value: Node, env: Chain): (r: Run)
    ensures t.value.Some? && r.outcome.Normal? && !r.outcome.value.ShouldReturn() ==>
      ChainContainsHere(r.env, t.value.value) && r.env[0].variables[t.value.value] == r.outcome.value.result
    ensures |r.env| == |env|
    decreases fuel, 2, 0
  {
    match t.value
    case None => Run(Unmodelled("a variable name that is null"), env)
    case Some(name) =>
      var v := Visit(fuel, Some(value), env);
      if !v.outcome.Normal? then v
      else if v.outcome.value.ShouldReturn() then Run(Normal(Propagated(v.outcome.value)), v.env)
      else if ChainContainsHere(v.env, name) then Run(Normal(Failed(AtNode(n, AlreadyDefined(name)))), v.env)
      else Run(Normal(Succeeded(v.outcome.value.result)), ChainPut(v.env, name, v.outcome.value.result))
  }

  // Operators

  /** UnaryOperationHandler: the operand first, whose signal propagates; then the operator on its value. */
  function HandleUnary(fuel: nat, op: Tokens.Token, operand: Node, env: Chain): (r: Run)
    ensures r.env == Visit(fuel, Some(operand), env).env
    ensures |r.env| == |env|
    decreases fuel, 2, 0
  {
    var v := Visit(fuel, Some(operand), env);
    if !v.outcome.Normal? then v
    else if v.outcome.value.ShouldReturn() then Run(Normal(Propagated(v.outcome.value)), v.env)
    else Run(Unary(op, operand, v.outcome.value.result), v.env)
  }

  /** A number, a string read as a number, or a boolean; any other value fails, and null throws. */
  function Unary(op: Tokens.Token, operand: Node, value: Option<Value>): (r: Exec<Outcome>)
    ensures value.None? ==> r == Abrupt(NullPointer)
    ensures r.Normal? ==> !r.value.ShouldReturn() || !r.value.Success()
    ensures value.Some? && !value.value.IsNumber() && !value.value.Str? && !value.value.Bool? ==> r.Normal? && !r.value.Success()
  {
    match value
    case None => Abrupt(NullPointer)
    case Some(x) =>
      if x.IsNumber() then SucceedWith(Lift(HandleNumber(x, op, operand)))
      else if x.Str? then
        match FromString(x.s)
        case Normal(number) => SucceedWith(Lift(HandleNumber(number, op, operand)))
        case Abrupt(f) => Abrupt(f)
        case Unmodelled(w) => Unmodelled(w)
      else if x.Bool? then SucceedWith(Lift(HandleBoolean(x.b, op, operand)))
      else Normal(Failed(SkError(RuntimeError, Some(op.start), operand.end, "Expected number or string type, instead found " + TypeName(x))))
  }

  /** `handleNumber`: `+` keeps the number, `-` negates it, `!` gives a coercion error value. */
  function HandleNumber(number: Value, op: Tokens.Token, operand: Node): (r: Exec<Value>)
    requires number.IsNumber()
    ensures op.kind == Tokens.Plus ==> r == Normal(number)
    ensures op.kind == Tokens.Not ==> r.Normal? && r.value.Error?
  {
    match op.kind
    case Plus => Normal(number)
    case Minus => InvertNumber(number)
    case Not => Normal(Error(SkError(RuntimeError, operand.start, operand.end, "Invalid type coercion from type '" + TypeName(number) + "' to 'boolean'")))
    case _ => Abrupt(Unsupported("Invalid unary operator passed: " + Tokens.ToString(op)))
  }

  /** `handleBoolean`: `!` negates, `+` and `-` give a coercion error value. */
  function HandleBoolean(b: bool, op: Tokens.Token, operand: Node): (r: Exec<Value>)
    ensures op.kind == Tokens.Not ==> r == Normal(Bool(!b))
    ensures op.kind == Tokens.Plus || op.kind == Tokens.Minus ==> r.Normal? && r.value.Error?
  {
    match op.kind
    case Plus => Normal(Error(SkError(RuntimeError, operand.start, operand.end, "Invalid type coercion from type 'boolean' to 'int'")))
    case Minus => Normal(Error(SkError(RuntimeError, operand.start, operand.end, "Invalid type coercion from type 'boolean' to 'int'")))
    case Not => Normal(Not(b))
    case _ => Abrupt(Unsupported("Invalid unary operator passed: " + Tokens.ToString(op)))
  }

  /** `invertNumber`: an int is multiplied by -1, wrapping; the SkDouble path is not part of this model; any other number class throws. */
  function InvertNumber(number: Value): (r: Exec<Value>)
    requires number.IsNumber()
    ensures number.Int? ==> r == IntWithInt(Multiply, number.i, -1)
    ensures number.Long? ==> r.Abrupt?
  {
    match number
    case Int(i) => IntWithInt(Multiply, i, -1)
    case Double(_) => Unmodelled("SkDouble arithmetic")
    case Long(_) => Abrupt(Unsupported("Invalid SkNumber type passed...maybe try supporting it? SkLong"))
  }

  /**
   * BinaryOperationHandler: the left operand, whose signal propagates without
   * the right one being visited; then the right operand, likewise; then the
   * operation.
   */
  function HandleBinary(fuel: nat, n: Node, left: Node, op: Tokens.Token, right: Node, env: Chain): (r: Run)
    ensures r.outcome.Normal? && r.outcome.value.Success() && !r.outcome.value.ShouldReturn() ==> r.outcome.value.result.Some?
    ensures |r.env| == |env|
    decreases fuel, 2, 0
  {
    var l := Visit(fuel, Some(left), env);
    if !l.outcome.Normal? then l
    else if l.outcome.value.ShouldReturn() then Run(Normal(Propagated(l.outcome.value)), l.env)
    else
      var r := Visit(fuel, Some(right), l.env);
      if !r.outcome.Normal? then r
      else if r.outcome.value.ShouldReturn() then Run(Normal(Propagated(r.outcome.value)), r.env)
      else Run(Operate(n, Execute(n, l.outcome.value.result, op.kind, r.outcome.value.result)), r.env)
  }

  /** The end of `handle`: a null value and an ArithmeticException both become a failure; any other value succeeds, error values included. */
  function Operate(n: Node, e: Exec<Option<Value>>): (r: Exec<Outcome>)
    ensures e == Normal(None) || e == Abrupt(Arithmetic) ==> r == Normal(Failed(AtNode(n, OperationFailed)))
    ensures e.Normal? && e.value.Some? ==> r == Normal(Succeeded(e.value))
  {
    match e
    case Normal(None) => Normal(Failed(AtNode(n, OperationFailed)))
    case Normal(Some(v)) => Normal(Succeeded(Some(v)))
    case Abrupt(f) => if f == Arithmetic then Normal(Failed(AtNode(n, OperationFailed))) else Abrupt(f)
    case Unmodelled(w) => Unmodelled(w)
  }

  /** `execute`: the six arithmetic operators; any other operator throws. */
  function Execute(n: Node, left: Option<Value>, kind: Tokens.TokenType, right: Option<Value>): (r: Exec<Option<Value>>)
    ensures kind !in {Tokens.Plus, Tokens.Minus, Tokens.Multiply, Tokens.Divide, Tokens.Modulo, Tokens.Power} ==> r == Abrupt(Unsupported("Invalid operation passed: " + kind.Name()))
    ensures kind in {Tokens.Plus, Tokens.Minus, Tokens.Multiply, Tokens.Divide, Tokens.Modulo, Tokens.Power} && left.None? ==> r == Abrupt(NullPointer)
  {
    match kind
    case Plus => AddValues(left, right)
    case Minus => Arith(Subtract, n, left, right)
    case Multiply =>
      if left.Some? && left.value.Str? then StringMultiply(left.value.s, right)
      else Arith(Multiply, n, left, right)
    case Divide => Arith(Divide, n, left, right)
    case Modulo => Arith(Modulo, n, left, right)
    case Power => Arith(Power, n, left, right)
    case _ => Abrupt(Unsupported("Invalid operation passed: " + kind.Name()))
  }

  /** `add`: a number adds, a string concatenates, anything else is turned into a string first. */
  function AddValues(left: Option<Value>, right: Option<Value>): (r: Exec<Option<Value>>)
    ensures left.None? ==> r == Abrupt(NullPointer)
    ensures left.Some? && left.value.Str? && r.Normal? ==>
      r.value.Some? && r.value.value.Str? && |r.value.value.s| >= |left.value.s| && r.value.value.s[..|left.value.s|] == left.value.s
    ensures left.Some? && !left.value.IsNumber() && r.Normal? ==> r.value.Some? && r.value.value.Str?
  {
    match left
    case None => Abrupt(NullPointer)
    case Some(x) =>
      if x.IsNumber() then NumberOp(Add, x, right)
      else if x.Str? then Lift(StringAdd(x.s, right))
      else
        var s := ToSkString(left);
        if s.Normal? then Lift(StringAdd(s.value.s, right))
        else if s.Abrupt? then Abrupt(s.fault)
        else Unmodelled(s.what)
  }

  /** `subtract`, `divide`, `modulo`, `power` and the number case of `multiply`: a left operand that is not a number gives an error value naming its type. */
  function Arith(op: Operation, n: Node, left: Option<Value>, right: Option<Value>): (r: Exec<Option<Value>>)
    ensures left.None? ==> r == Abrupt(NullPointer)
    ensures left.Some? && !left.value.IsNumber() ==> r.Normal? && r.value.Some? && r.value.value.Error? && r.value.value.error.start == n.start
  {
    match left
    case None => Abrupt(NullPointer)
    case Some(x) =>
      if x.IsNumber() then NumberOp(op, x, right)
      else Normal(Some(Error(AtNode(n, "Invalid operand type '" + TypeName(x) + "' used in " + op.Symbol() + " expression"))))
  }

  // Literals

  /** ArrayHandler's loop, with its test inverted: an element whose result does not signal is returned at once; the results of the others are collected. */
  function ArrayLoop(fuel: nat, nodes: seq<Node>, k: nat, acc: seq<Option<Value>>, env: Chain): (r: Run)
    requires k <= |nodes|
    ensures |r.env| == |env|
    decreases fuel, 1, |nodes| - k
  {
    if k == |nodes| then Run(Normal(Succeeded(Some(Array(acc)))), env)
    else
      var r := Visit(fuel, Some(nodes[k]), env);
      if !r.outcome.Normal? || !r.outcome.value.ShouldReturn() then r
      else ArrayLoop(fuel, nodes, k + 1, acc + [r.outcome.value.result], r.env)
  }

  /** The keys of an object literal in the order its HashMap iterates them, each once. */
  predicate Enumerates(order: seq<string>, keys: set<string>)
  {
    (forall i | 0 <= i < |order| :: order[i] in keys) &&
    (forall key | key in keys :: key in order) &&
    (forall i, j | 0 <= i < j < |order| :: order[i] != order[j])
  }

  /** ObjectHandler (registered for no node class): the entries in the given order; the first signal propagates. */
  function HandleObject(fuel: nat, entries: map<string, Node>, order: seq<string>, env: Chain): (r: Run)
    requires Enumerates(order, entries.Keys)
    ensures |r.env| == |env|
    decreases fuel, 2, 0
  {
    ObjectLoop(fuel, entries, order, 0, map[], env)
  }

  /** ObjectHandler's loop over the entries from `k` on, with the values gathered so far. */
  function ObjectLoop(fuel: nat, entries: map<string, Node>, order: seq<string>, k: nat, acc: map<string, Option<Value>>, env: Chain): (r: Run)
    requires k <= |order| && forall i | 0 <= i < |order| :: order[i] in entries
    ensures |r.env| == |env|
    decreases fuel, 1, |order| - k
  {
    if k == |order| then Run(Normal(Succeeded(Some(Object(acc, None)))), env)
    else
      var r := Visit(fuel, Some(entries[order[k]]), env);
      if !r.outcome.Normal? then r
      else if r.outcome.value.ShouldReturn() then Run(Normal(Propagated(r.outcome.value)), r.env)
      else ObjectLoop(fuel, entries, order, k + 1, acc[order[k] := r.outcome.value.result], r.env)
  }

  // Functions

  /** What the parameter loop has built for the nodes before `k`: one parameter per node, with that node's name and spread flag, and no default where the node has none. */
  predicate BuiltFrom(nodes: seq<Node>, params: seq<Parameter>, k: nat)
    requires k <= |nodes| && k <= |params|
  {
    forall i | 0 <= i < k ::
      nodes[i].kind.FunctionParameterNode? && params[i].name == nodes[i].kind.name.value &&
      params[i].spread == nodes[i].kind.spread && (nodes[i].kind.default.None? ==> params[i].default.None?)
  }

  /** FunctionDefineHandler's parameter loop: each node cast to a parameter node, its default visited in order; the first signal stops the loop. */
  function ParamsLoop(fuel: nat, nodes: seq<Node>, k: nat, acc: seq<Parameter>, env: Chain): (r: Loop<Parameter>)
    requires k <= |nodes| && |acc| == k && BuiltFrom(nodes, acc, k)
    ensures r.Done? ==> |r.items| == |nodes| && BuiltFrom(nodes, r.items, |nodes|)
    ensures r.Done? ==> |r.env| == |env|
    ensures r.Stopped? ==> |r.run.env| == |env| && (r.run.outcome.Normal? ==> r.run.outcome.value.ShouldReturn())
    decreases fuel, 1, |nodes| - k
  {
    if k == |nodes| then Done(acc, env)
    else match nodes[k].kind
      case FunctionParameterNode(name, default, spread) =>
        if default.None? then ParamsLoop(fuel, nodes, k + 1, acc + [Parameter(name.value, None, spread)], env)
        else
          var d := Visit(fuel, default, env);
          if !d.outcome.Normal? then Stopped(d)
          else if d.outcome.value.ShouldReturn() then Stopped(Run(Normal(Propagated(d.outcome.value)), d.env))
          else ParamsLoop(fuel, nodes, k + 1, acc + [Parameter(name.value, d.outcome.value.result, spread)], d.env)
      case _ => Stopped(Run(Abrupt(ClassCast), env))
  }

  /**
   * `validateParameters` of FunctionDefineHandler from index `i`, where the
   * flags say whether a spread parameter and a parameter with a default came
   * before `i`.
   */
  function ValidateFrom(nodes: seq<Node>, params: seq<Parameter>, i: nat, spreadBefore: bool, defaultBefore: bool): (r: Option<SkError>)
    requires |params| == |nodes| && i <= |nodes|
    ensures r.Some? ==> r.value.name == RuntimeError && r.value.details in {SpreadRepeated, RequiredAfterDefault}
    ensures !spreadBefore && !defaultBefore && (forall j | i <= j < |params| :: !params[j].spread && params[j].default.None?) ==> r.None?
    decreases |nodes| - i
  {
    if i == |nodes| then None
    else if !params[i].spread && spreadBefore then Some(AtNode(nodes[i], SpreadRepeated))
    else if params[i].default.None? && defaultBefore then Some(AtNode(nodes[i], RequiredAfterDefault))
    else ValidateFrom(nodes, params, i + 1, spreadBefore || params[i].spread, defaultBefore || params[i].default.Some?)
  }

  /** `validateParameters` of FunctionDefineHandler: null when the order is valid, else the error at the first misplaced parameter. */
  function ValidateParameters(nodes: seq<Node>, params: seq<Parameter>): (r: Option<SkError>)
    requires |params| == |nodes|
    ensures r.Some? ==> r.value.name == RuntimeError && r.value.details in {SpreadRepeated, RequiredAfterDefault}
    ensures (forall j | 0 <= j < |params| :: !params[j].spread && params[j].default.None?) ==> r.None?
  {
    ValidateFrom(nodes, params, 0, false, false)
  }

  /** FunctionDefineHandler: the defaults, then the order check, then the body cast to a scope; the function is bound in the current table and returned. */
  function HandleFunctionDefine(fuel: nat, n: Node, t: Tokens.Token, params: seq<Node>, body: Node, env: Chain): (r: Run)
    ensures t.value.Some? && r.outcome.Normal? && r.outcome.value.Success() && !r.outcome.value.ShouldReturn() ==>
      r.outcome.value.result.Some? && r.outcome.value.result.value.Function? &&
      ChainContainsHere(r.env, t.value.value) && r.env[0].variables[t.value.value] == r.outcome.value.result
    ensures |r.env| == |env|
    decreases fuel, 2, 0
  {
    match t.value
    case None => Run(Unmodelled("a function name that is null"), env)
    case Some(name) =>
      match ParamsLoop(fuel, params, 0, [], env)
      case Stopped(run) => run
      case Done(ps, env') =>
        var invalid := ValidateParameters(params, ps);
        if invalid.Some? then Run(Normal(Failed(invalid.value)), env')
        else if !body.kind.ScopeNode? then Run(Abrupt(ClassCast), env')
        else
          var f := Function(ps, body.kind.statements);
          Run(Normal(Succeeded(Some(f))), ChainPut(env', name, Some(f)))
  }

  /** `min` of FunctionCallHandler's check: the number of leading parameters without a default. */
  function Required(params: seq<Parameter>): (m: nat)
    ensures m <= |params|
    ensures forall i | 0 <= i < m :: params[i].default.None?
    ensures m < |params| ==> params[m].default.Some?
  {
    if |params| == 0 || params[0].default.Some? then 0
    else 1 + Required(params[1..])
  }

  /** `max` of FunctionCallHandler's check: the parameter count, or Integer.MAX_VALUE when the last parameter has a default. */
  function Allowed(params: seq<Parameter>): nat
  {
    if |params| > 0 && params[|params| - 1].default.Some? then JavaInt.IntMax else |params|
  }

  function ArityMessage(params: seq<Parameter>, count: nat): string
  {
    "Expected " + JavaInt.DecimalText(Required(params)) + " to " + JavaInt.DecimalText(Allowed(params)) + " args, instead got " + JavaInt.DecimalText(count)
  }

  /**
   * FunctionCallHandler's `validateParameters` as written: a count outside
   * [min, max] builds an error from a null node, which throws; any other count
   * reaches a loop that reads parameters and arguments 0 to 9, which throws
   * unless there are at least ten of each.
   */
  function ValidateCallAsWritten(params: seq<Parameter>, count: nat): (r: Exec<Option<SkError>>)
    ensures r.Normal? <==> Required(params) <= count <= Allowed(params) && |params| >= 10 && count >= 10
    ensures r.Normal? ==> r.value.None?
    ensures !r.Normal? ==> r.Abrupt?
  {
    if count < Required(params) || count > Allowed(params) then Abrupt(NullPointer)
    else if |params| < 10 || count < 10 then Abrupt(IndexOutOfBounds)
    else Normal(None)
  }

  /** The check as evidently meant: only the count, whose error carries no position. */
  function ValidateCall(params: seq<Parameter>, count: nat): (r: Option<SkError>)
    ensures r.None? <==> Required(params) <= count <= Allowed(params)
    ensures r.Some? ==> r.value.name == RuntimeError && r.value.start.None? && r.value.end.None?
  {
    if count < Required(params) || count > Allowed(params) then Some(SkError(RuntimeError, None, None, ArityMessage(params, count)))
    else None
  }

  /** FunctionCallHandler's argument loop: the first result that signals is returned as it is. */
  function ArgsLoop(fuel: nat, nodes: seq<Node>, k: nat, acc: seq<Option<Value>>, env: Chain): (r: Loop<Option<Value>>)
    requires k <= |nodes| && |acc| == k
    ensures r.Done? ==> |r.items| == |nodes| && |r.env| == |env|
    ensures r.Stopped? ==> |r.run.env| == |env|
    decreases fuel, 1, |nodes| - k
  {
    if k == |nodes| then Done(acc, env)
    else
      var r := Visit(fuel, Some(nodes[k]), env);
      if !r.outcome.Normal? || r.outcome.value.ShouldReturn() then Stopped(r)
      else ArgsLoop(fuel, nodes, k + 1, acc + [r.outcome.value.result], r.env)
  }

  /** `execute`: the statements in the caller's context; the first result that signals is returned, otherwise a new SkNull. */
  function BodyLoop(fuel: nat, statements: seq<Node>, k: nat, env: Chain): (r: Run)
    requires k <= |statements|
    ensures |r.env| == |env|
    decreases fuel, 1, |statements| - k
  {
    if k == |statements| then Run(Normal(Succeeded(Some(Null))), env)
    else
      var r := Visit(fuel, Some(statements[k]), env);
      if !r.outcome.Normal? || r.outcome.value.ShouldReturn() then r
      else BodyLoop(fuel, statements, k + 1, r.env)
  }

  /** FunctionCallHandler: the name must be bound to a function; then the arguments, the count check and the body. */
  function HandleFunctionCall(fuel: nat, t: Tokens.Token, args: seq<Node>, env: Chain): (r: Run)
    ensures t.value.Some? && !ChainContains(env, t.value.value) ==> r.env == env && r.outcome.Normal? && !r.outcome.value.Success()
    ensures |r.env| == |env|
    decreases fuel, 2, 0
  {
    match t.value
    case None => Run(Unmodelled("a function name that is null"), env)
    case Some(name) =>
      if !ChainContains(env, name) then Run(Normal(Failed(OfToken(RuntimeError, t, NotDefined(name)))), env)
      else
        var f := ChainGet(env, name);
        if f.None? || !f.value.Function? then Run(Normal(Failed(OfToken(RuntimeError, t, "'" + name + "' is not a function"))), env)
        else match ArgsLoop(fuel, args, 0, [], env)
          case Stopped(run) => run
          case Done(values, env') =>
            var invalid := ValidateCall(f.value.params, |values|);
            if invalid.Some? then Run(Normal(Failed(invalid.value)), env')
            else BodyLoop(fuel, f.value.statements, 0, env')
  }
}
