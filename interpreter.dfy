/**
 * The evaluator as the program runs it (interpret/Interpreter.java and the
 * handlers): each handler creates a RuntimeResult, registers its children's
 * results in it, updates the context's variable table in place and returns
 * the result. Every method is proved to do exactly what the reference
 * semantics of the same name says, on the table's chain before and after.
 */
module Interpreting {
  import opened Wrappers
  import opened Errors
  import opened Values
  import opened Ast
  import Tokens
  import opened Arithmetic
  import opened Conversions
  import opened Scope
  import opened RuntimeResults
  import opened Semantics
  import opened HandlerProperties

  class Interpreter {
    /** The node classes whose handlers the constructor puts in the handler map; nothing changes the map afterwards. */
    const handled: set<string> := Registry

    /** `visit`: a null node fails; so does a node whose class has no handler in the map; otherwise that handler handles it. */
    method Visit(fuel: nat, node: Option<Node>, table: VariableTable) returns (r: Exec<Outcome>)
      modifies table
      ensures Run(r, table.levels) == Semantics.Visit(fuel, node, old(table.levels))
      decreases fuel, 0, 2
    {
      if node.None? {
        return Abrupt(Unsupported(NullNode));
      }
      if fuel == 0 {
        return Abrupt(StackOverflow);
      }
      var n := node.value;
      RegistryNamesHandledClasses(n.kind);
      if ClassOf(n.kind) !in handled {
        UnregisteredClassesFail(fuel, n, old(table.levels));
        return Abrupt(MissingHandler(ClassOf(n.kind)));
      }
      r := HandleValue(fuel, n, table);
    }

    /** The handlers of literals and of variable access, deletion and definition; the other handlers are passed on. */
    method HandleValue(fuel: nat, n: Node, table: VariableTable) returns (r: Exec<Outcome>)
      requires fuel > 0 && HasHandler(n.kind)
      modifies table
      ensures Run(r, table.levels) == Semantics.Visit(fuel, Some(n), old(table.levels))
      decreases fuel, 0, 1
    {
      var k := n.kind;
      if k.BoolNode? {
        var result := new RuntimeResult();
        result.Succeed(Some(Bool(ParseBoolean(k.token.value))));
        r := Normal(result.State());
      } else if k.StringNode? {
        r := Unmodelled("StringHandler");
      } else if k.NumberNode? {
        r := SucceedWith(FromToken(k.token));
      } else if k.ArrayNode? {
        r := HandleArray(fuel - 1, k.elements, table);
      } else if k.VarAccessNode? {
        r := HandleVarAccess(k.token, table);
      } else if k.VarDeleteNode? {
        r := HandleVarDelete(n, k.name, table);
      } else if k.VarAssignNode? {
        r := HandleVarAssign(fuel - 1, n, k.name, k.initial, table);
      } else {
        r := HandleOperation(fuel, n, table);
      }
    }

    /** The handlers of reassignment, functions and operations. */
    method HandleOperation(fuel: nat, n: Node, table: VariableTable) returns (r: Exec<Outcome>)
      requires fuel > 0 && HasHandler(n.kind)
      requires !(n.kind.BoolNode? || n.kind.StringNode? || n.kind.NumberNode? || n.kind.ArrayNode?)
      requires !(n.kind.VarAccessNode? || n.kind.VarDeleteNode? || n.kind.VarAssignNode?)
      modifies table
      ensures Run(r, table.levels) == Semantics.Visit(fuel, Some(n), old(table.levels))
      decreases fuel, 0, 0
    {
      var k := n.kind;
      if k.VarReassignNode? {
        r := HandleVarReassign(fuel - 1, n, k.name, k.value, table);
      } else if k.ReturnNode? {
        r := Unmodelled("ReturnHandler");
      } else if k.FunctionCallNode? {
        r := HandleFunctionCall(fuel - 1, k.name, k.args, table);
      } else if k.FunctionDefineNode? {
        r := HandleFunctionDefine(fuel - 1, n, k.name, k.params, k.body, table);
      } else if k.UnaryOperationNode? {
        r := HandleUnary(fuel - 1, k.op, k.operand, table);
      } else {
        r := HandleBinary(fuel - 1, n, k.left, k.op, k.right, table);
      }
    }

    // Variables

    /** VarAccessHandler. */
    method HandleVarAccess(t: Tokens.Token, table: VariableTable) returns (r: Exec<Outcome>)
      modifies table
      ensures Run(r, table.levels) == Semantics.HandleVarAccess(t, old(table.levels))
    {
      if t.value.None? {
        return Unmodelled("a variable name that is null");
      }
      var name := t.value.value;
      var result := new RuntimeResult();
      if table.Contains(name) {
        result.Succeed(table.Get(name));
      } else {
        result.Failure(OfToken(RuntimeError, t, Semantics.NotDefined(name)));
      }
      return Normal(result.State());
    }

    /** VarDeleteHandler. */
    method HandleVarDelete(n: Node, t: Tokens.Token, table: VariableTable) returns (r: Exec<Outcome>)
      modifies table
      ensures Run(r, table.levels) == Semantics.HandleVarDelete(n, t, old(table.levels))
    {
      if t.value.None? {
        return Unmodelled("a variable name that is null");
      }
      var name := t.value.value;
      var value: Option<Value>;
      if !table.Contains(name) {
        value := Some(Error(AtNode(n, "Variable '" + name + "' not defined")));
      } else if table.IsImmutable() {
        value := Some(Error(AtNode(n, "Variable '" + name + "' cannot be deleted")));
      } else {
        value := table.Get(name);
        var _ := table.Delete(name);
      }
      return Normal(Succeeded(value));
    }

    /** VarDeclareHandler, for which no node class is registered. */
    method HandleVarDeclare(n: Node, t: Tokens.Token, table: VariableTable) returns (r: Exec<Outcome>)
      modifies table
      ensures Run(r, table.levels) == Semantics.HandleVarDeclare(n, t, old(table.levels))
    {
      if t.value.None? {
        return Unmodelled("a variable name that is null");
      }
      var name := t.value.value;
      if table.ContainsHere(name) {
        return Normal(Succeeded(Some(Error(AtNode(n, AlreadyDefined(name))))));
      }
      var _ := table.Put(name, Some(Null));
      return Normal(Succeeded(Some(Null)));
    }

    /** VarAssignHandler: the value's result is taken whatever it signals. */
    method HandleVarAssign(fuel: nat, n: Node, t: Tokens.Token, initial: Option<Node>, table: VariableTable) returns (r: Exec<Outcome>)
      modifies table
      ensures Run(r, table.levels) == Semantics.HandleVarAssign(fuel, n, t, initial, old(table.levels))
      decreases fuel, 2, 0
    {
      if t.value.None? {
        return Unmodelled("a variable name that is null");
      }
      var name := t.value.value;
      var v := Visit(fuel, initial, table);
      if !v.Normal? {
        return v;
      }
      var value := v.value.result;
      if table.ContainsHere(name) {
        return Normal(Succeeded(Some(Error(AtNode(n, AlreadyDefined(name))))));
      }
      var _ := table.Put(name, value);
      return Normal(Succeeded(value));
    }

    /** VarReassignHandler. */
    method HandleVarReassign(fuel: nat, n: Node, t: Tokens.Token, valueNode: Node, table: VariableTable) returns (r: Exec<Outcome>)
      modifies table
      ensures Run(r, table.levels) == Semantics.HandleVarReassign(fuel, n, t, valueNode, old(table.levels))
      decreases fuel, 2, 0
    {
      if t.value.None? {
        return Unmodelled("a variable name that is null");
      }
      var name := t.value.value;
      var result := new RuntimeResult();
      var valueResult := Visit(fuel, Some(valueNode), table);
      if !valueResult.Normal? {
        return valueResult;
      }
      var value := result.Register(valueResult.value);
      if result.ShouldReturn() {
        return Normal(result.State());
      }
      if table.ContainsHere(name) {
        result.Failure(AtNode(n, AlreadyDefined(name)));
        return Normal(result.State());
      }
      var _ := table.Put(name, value);
      result.Succeed(value);
      return Normal(result.State());
    }

    // Operators

    /** UnaryOperationHandler. */
    method HandleUnary(fuel: nat, op: Tokens.Token, operand: Node, table: VariableTable) returns (r: Exec<Outcome>)
      modifies table
      ensures Run(r, table.levels) == Semantics.HandleUnary(fuel, op, operand, old(table.levels))
      decreases fuel, 2, 0
    {
      var result := new RuntimeResult();
      var valueResult := Visit(fuel, Some(operand), table);
      if !valueResult.Normal? {
        return valueResult;
      }
      var value := result.Register(valueResult.value);
      if result.ShouldReturn() {
        return Normal(result.State());
      }
      return Unary(op, operand, value);
    }

    /** BinaryOperationHandler: the left operand, then the right one, then the operation. */
    method HandleBinary(fuel: nat, n: Node, left: Node, op: Tokens.Token, right: Node, table: VariableTable) returns (r: Exec<Outcome>)
      modifies table
      ensures Run(r, table.levels) == Semantics.HandleBinary(fuel, n, left, op, right, old(table.levels))
      decreases fuel, 2, 0
    {
      var result := new RuntimeResult();
      var leftResult := Visit(fuel, Some(left), table);
      if !leftResult.Normal? {
        return leftResult;
      }
      var l := result.Register(leftResult.value);
      if result.ShouldReturn() {
        return Normal(result.State());
      }
      var rightResult := Visit(fuel, Some(right), table);
      if !rightResult.Normal? {
        return rightResult;
      }
      var rv := result.Register(rightResult.value);
      if result.ShouldReturn() {
        return Normal(result.State());
      }
      match Semantics.Execute(n, l, op.kind, rv)
      case Normal(None) =>
        result.Failure(AtNode(n, OperationFailed));
        r := Normal(result.State());
      case Normal(Some(value)) =>
        result.Succeed(Some(value));
        r := Normal(result.State());
      case Abrupt(f) =>
        if f == Arithmetic {
          result.Failure(AtNode(n, OperationFailed));
          r := Normal(result.State());
        } else {
          r := Abrupt(f);
        }
      case Unmodelled(w) =>
        r := Unmodelled(w);
    }

    // Literals

    /** ArrayHandler: the elements in order; the first whose result does not signal is returned as it is. */
    method HandleArray(fuel: nat, nodes: seq<Node>, table: VariableTable) returns (r: Exec<Outcome>)
      modifies table
      ensures Run(r, table.levels) == ArrayLoop(fuel, nodes, 0, [], old(table.levels))
      decreases fuel, 1, 0
    {
      var result := new RuntimeResult();
      var elements: seq<Option<Value>> := [];
      var k := 0;
      while k < |nodes|
        invariant k <= |nodes|
        invariant ArrayLoop(fuel, nodes, 0, [], old(table.levels)) == ArrayLoop(fuel, nodes, k, elements, table.levels)
        decreases |nodes| - k
      {
        var res := Visit(fuel, Some(nodes[k]), table);
        if !res.Normal? || !res.value.ShouldReturn() {
          return res;
        }
        elements := elements + [res.value.result];
        k := k + 1;
      }
      result.Succeed(Some(Array(elements)));
      return Normal(result.State());
    }

    /** ObjectHandler, for which no node class is registered: the entries in the map's iteration order. */
    method HandleObject(fuel: nat, entries: map<string, Node>, order: seq<string>, table: VariableTable) returns (r: Exec<Outcome>)
      requires Enumerates(order, entries.Keys)
      modifies table
      ensures Run(r, table.levels) == Semantics.HandleObject(fuel, entries, order, old(table.levels))
      decreases fuel, 2, 0
    {
      var result := new RuntimeResult();
      var values: map<string, Option<Value>> := map[];
      var k := 0;
      while k < |order|
        invariant k <= |order|
        invariant result.State() == Cleared()
        invariant ObjectLoop(fuel, entries, order, 0, map[], old(table.levels)) == ObjectLoop(fuel, entries, order, k, values, table.levels)
        decreases |order| - k
      {
        var res := Visit(fuel, Some(entries[order[k]]), table);
        if !res.Normal? {
          return res;
        }
        var value := result.Register(res.value);
        if result.ShouldReturn() {
          return Normal(result.State());
        }
        values := values[order[k] := value];
        k := k + 1;
      }
      result.Succeed(Some(Object(values, None)));
      return Normal(result.State());
    }

    // Functions

    /** FunctionDefineHandler. */
    method HandleFunctionDefine(fuel: nat, n: Node, t: Tokens.Token, nodes: seq<Node>, body: Node, table: VariableTable) returns (r: Exec<Outcome>)
      modifies table
      ensures Run(r, table.levels) == Semantics.HandleFunctionDefine(fuel, n, t, nodes, body, old(table.levels))
      decreases fuel, 2, 0
    {
      if t.value.None? {
        return Unmodelled("a function name that is null");
      }
      var name := t.value.value;
      var result := new RuntimeResult();
      var params: seq<Parameter> := [];
      var k := 0;
      while k < |nodes|
        invariant k <= |nodes| && |params| == k && BuiltFrom(nodes, params, k)
        invariant result.State() == Cleared()
        invariant ParamsLoop(fuel, nodes, 0, [], old(table.levels)) == ParamsLoop(fuel, nodes, k, params, table.levels)
        decreases |nodes| - k
      {
        match nodes[k].kind
        case FunctionParameterNode(paramName, default, spread) =>
          var defaultValue: Option<Value> := None;
          if default.Some? {
            var defaultResult := Visit(fuel, default, table);
            if !defaultResult.Normal? {
              return defaultResult;
            }
            defaultValue := result.Register(defaultResult.value);
            if result.ShouldReturn() {
              return Normal(result.State());
            }
          }
          params := params + [Parameter(paramName.value, defaultValue, spread)];
          k := k + 1;
        case _ =>
          return Abrupt(ClassCast);
      }
      var validationError := CheckOrder(nodes, params);
      if validationError.Some? {
        result.Failure(validationError.value);
        return Normal(result.State());
      }
      if !body.kind.ScopeNode? {
        return Abrupt(ClassCast);
      }
      var f := Function(params, body.kind.statements);
      var _ := table.Put(name, Some(f));
      result.Succeed(Some(f));
      return Normal(result.State());
    }

    /** FunctionDefineHandler's `validateParameters`: one pass that remembers whether a spread parameter and a default came before. */
    method CheckOrder(nodes: seq<Node>, params: seq<Parameter>) returns (e: Option<SkError>)
      requires |params| == |nodes|
      ensures e == ValidateParameters(nodes, params)
    {
      var spreadBefore := false;
      var defaultBefore := false;
      var i := 0;
      while i < |nodes|
        invariant i <= |nodes|
        invariant ValidateParameters(nodes, params) == ValidateFrom(nodes, params, i, spreadBefore, defaultBefore)
        decreases |nodes| - i
      {
        var param := params[i];
        if param.spread {
          spreadBefore := true;
        } else if spreadBefore {
          return Some(AtNode(nodes[i], SpreadRepeated));
        }
        if param.default.Some? {
          defaultBefore := true;
        } else if defaultBefore {
          return Some(AtNode(nodes[i], RequiredAfterDefault));
        }
        i := i + 1;
      }
      return None;
    }

    /** FunctionCallHandler: the function, its arguments, the count check, then `execute`. */
    method HandleFunctionCall(fuel: nat, t: Tokens.Token, argNodes: seq<Node>, table: VariableTable) returns (r: Exec<Outcome>)
      modifies table
      ensures Run(r, table.levels) == Semantics.HandleFunctionCall(fuel, t, argNodes, old(table.levels))
      decreases fuel, 2, 0
    {
      if t.value.None? {
        return Unmodelled("a function name that is null");
      }
      var name := t.value.value;
      var result := new RuntimeResult();
      if !table.Contains(name) {
        result.Failure(OfToken(RuntimeError, t, Semantics.NotDefined(name)));
        return Normal(result.State());
      }
      var functionValue := table.Get(name);
      if functionValue.None? || !functionValue.value.Function? {
        result.Failure(OfToken(RuntimeError, t, "'" + name + "' is not a function"));
        return Normal(result.State());
      }
      var f := functionValue.value;
      ghost var env0 := old(table.levels);
      var args: seq<Option<Value>> := [];
      var k := 0;
      while k < |argNodes|
        invariant k <= |argNodes| && |args| == k
        invariant ArgsLoop(fuel, argNodes, 0, [], env0) == ArgsLoop(fuel, argNodes, k, args, table.levels)
        decreases |argNodes| - k
      {
        var res := Visit(fuel, Some(argNodes[k]), table);
        if !res.Normal? || res.value.ShouldReturn() {
          return res;
        }
        args := args + [res.value.result];
        k := k + 1;
      }
      var validateError := CheckArity(f.params, |args|);
      if validateError.Some? {
        result.Failure(validateError.value);
        return Normal(result.State());
      }
      r := Execute(fuel, f.statements, table);
    }

    /** `execute`: the statements in order, in the caller's table; the first result that signals is returned. */
    method Execute(fuel: nat, statements: seq<Node>, table: VariableTable) returns (r: Exec<Outcome>)
      modifies table
      ensures Run(r, table.levels) == BodyLoop(fuel, statements, 0, old(table.levels))
      decreases fuel, 1, 0
    {
      var k := 0;
      while k < |statements|
        invariant k <= |statements|
        invariant BodyLoop(fuel, statements, 0, old(table.levels)) == BodyLoop(fuel, statements, k, table.levels)
        decreases |statements| - k
      {
        var res := Visit(fuel, Some(statements[k]), table);
        if !res.Normal? || res.value.ShouldReturn() {
          return res;
        }
        k := k + 1;
      }
      var result := new RuntimeResult();
      result.Succeed(Some(Null));
      return Normal(result.State());
    }

    /**
     * FunctionCallHandler's `validateParameters`, corrected: the required count
     * is found by a loop that stops at the first default, and the bounds loop
     * over indices 0 to 9 is left out.
     */
    method CheckArity(params: seq<Parameter>, count: nat) returns (e: Option<SkError>)
      ensures e == ValidateCall(params, count)
    {
      var min := 0;
      while min < |params|
        invariant min <= |params|
        invariant forall i | 0 <= i < min :: params[i].default.None?
        decreases |params| - min
      {
        if params[min].default.Some? {
          break;
        }
        min := min + 1;
      }
      assert min == Required(params);
      var max := |params|;
      if max > 0 && params[|params| - 1].default.Some? {
        max := JavaInt.IntMax;
      }
      if count < min || count > max {
        return Some(SkError(RuntimeError, None, None, ArityMessage(params, count)));
      }
      return None;
    }
  }
}
