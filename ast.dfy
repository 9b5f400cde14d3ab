/**
 * The syntax tree (parse/nodes). Every node carries the span it was built
 * with (either end may be null) and what kind of node it is. Only the span
 * rules of Node, BinaryOperationNode, FunctionDefineNode,
 * FunctionParameterNode, ScopeNode, ObjectNode and ElementAccessNode are part of
 * this model. The other node classes are stubs that follow the Node constructor
 * they most plausibly call: one token gives that token's span, and a token
 * followed by a child gives the span from the token to the child.
 */
module Ast {
  import opened Wrappers
  import opened Positions
  import opened Tokens

  datatype Node = Node(start: Option<Position>, end: Option<Position>, kind: NodeKind)

  datatype NodeKind =
    | NumberNode(token: Token)
    | CharNode(token: Token)
    | StringNode(token: Token)
    | BoolNode(token: Token)
    | VarAccessNode(token: Token)
    | VarReassignNode(name: Token, value: Node)
    | VarAssignNode(name: Token, initial: Option<Node>)
    | VarDeclareNode(name: Token)
    | VarDeleteNode(name: Token)
    | ElementAccessNode(name: Token, element: Node)
    | FunctionCallNode(name: Token, args: seq<Node>)
    | UnaryOperationNode(op: Token, operand: Node)
    | BinaryOperationNode(left: Node, op: Token, right: Node)
    | ArrayNode(elements: seq<Node>)
    | ObjectNode(entries: map<string, Node>)
    | ScopeNode(statements: seq<Node>)
    | FunctionDefineNode(name: Token, params: seq<Node>, body: Node)
    | FunctionParameterNode(name: Token, default: Option<Node>, spread: bool)
    | ReturnNode(returned: Option<Node>)

  /** `Node(start, end)`. */
  function Between(start: Position, end: Position, kind: NodeKind): (n: Node)
    ensures n.start == Some(start) && n.end == Some(end) && n.kind == kind
  {
    Node(Some(start), Some(end), kind)
  }

  /** `Node(token)`: the node spans exactly the token. */
  function TokenNode(token: Token, kind: NodeKind): (n: Node)
    ensures n.start == Some(token.start) && n.end == Some(token.end) && n.kind == kind
  {
    Node(Some(token.start), Some(token.end), kind)
  }

  /** `Node(token, node)`: from the token's start to the other node's end. */
  function FromTokenTo(token: Token, last: Node, kind: NodeKind): (n: Node)
    ensures n.start == Some(token.start) && n.end == last.end && n.kind == kind
  {
    Node(Some(token.start), last.end, kind)
  }

  /** `Node(node)`: a copy of the other node's span. */
  function SpanOf(other: Node, kind: NodeKind): (n: Node)
    ensures n.start == other.start && n.end == other.end && n.kind == kind
  {
    Node(other.start, other.end, kind)
  }

  /**
   * `setEnd`. The only caller is FunctionDefineNode's constructor, before the
   * node is shared, so it is modelled as an update of a value.
   */
  function SetEnd(n: Node, end: Option<Position>): (m: Node)
    ensures m.start == n.start && m.kind == n.kind && m.end == end
  {
    n.(end := end)
  }

  /** BinaryOperationNode: from the left operand's start to the right operand's end; any operator token is accepted. */
  function BinaryOperation(left: Node, op: Token, right: Node): (n: Node)
    ensures n.start == left.start && n.end == right.end
    ensures n.kind == BinaryOperationNode(left, op, right)
  {
    Node(left.start, right.end, BinaryOperationNode(left, op, right))
  }

  /**
   * FunctionDefineNode: starts at the name; ends at the name when there are no
   * parameters, else where the last parameter ends.
   */
  function FunctionDefine(name: Token, params: seq<Node>, body: Node): (n: Node)
    ensures n.start == Some(name.start)
    ensures |params| == 0 ==> n.end == Some(name.end)
    ensures |params| > 0 ==> n.end == params[|params| - 1].end
    ensures n.kind == FunctionDefineNode(name, params, body)
  {
    var n := TokenNode(name, FunctionDefineNode(name, params, body));
    if |params| == 0 then SetEnd(n, Some(name.end)) else SetEnd(n, params[|params| - 1].end)
  }

  /**
   * FunctionParameterNode: spans from the name to the default value's end. The
   * constructor reads the default's end, so a parameter without a default
   * cannot be built (a null dereference, `None` here).
   */
  function FunctionParameter(name: Token, default: Option<Node>, spread: bool): (r: Option<Node>)
    ensures r.None? <==> default.None?
    ensures r.Some? ==> r.value.start == Some(name.start) && r.value.end == default.value.end
    ensures r.Some? ==> r.value.kind == FunctionParameterNode(name, default, spread)
  {
    match default
    case None => None
    case Some(d) => Some(FromTokenTo(name, d, FunctionParameterNode(name, default, spread)))
  }

  /** ScopeNode: scopes never carry a span. */
  function Scope(statements: seq<Node>): (n: Node)
    ensures n.start.None? && n.end.None? && n.kind == ScopeNode(statements)
  {
    Node(None, None, ScopeNode(statements))
  }

  /** `BinaryOperationNode.toString`, given the renderings of the operands. */
  function ShowBinaryOperation(left: string, op: Token, right: string): (r: string)
    ensures |r| == |left| + |Tokens.ToString(op)| + |right| + 9
    ensures r[..6] == "BinOp(" && r[6..6 + |left|] == left && r[6 + |left|] == ' '
    ensures r[|r| - 1 - |right|..|r| - 1] == right && r[|r| - 1] == ')'
  {
    "BinOp(" + left + " " + Tokens.ToString(op) + " " + right + ")"
  }

  /** `FunctionParameterNode.toString`, given the rendering of the default value when there is one. */
  function ShowParameter(name: Token, default: Option<string>, spread: bool): (r: string)
    ensures default.None? ==> |r| == 9 + (if spread then 3 else 0) + |Tokens.ToString(name)|
    ensures default.Some? ==> |r| == 12 + (if spread then 3 else 0) + |Tokens.ToString(name)| + |default.value|
    ensures r[|r| - 1] == ')'
  {
    var prefix := if spread then "FnParam(..." else "FnParam(";
    var suffix := match default case None => "" case Some(d) => " = " + d;
    prefix + Tokens.ToString(name) + suffix + ")"
  }

  /** A parameter renders as "FnParam(", then "..." when it spreads, then its name token. */
  lemma ShowParameterOpens(name: Token, default: Option<string>, spread: bool)
    ensures var r := ShowParameter(name, default, spread);
      && (spread ==> r[..11] == "FnParam(...")
      && (!spread ==> r[..8] == "FnParam(" && r[8..8 + |Tokens.ToString(name)|] == Tokens.ToString(name))
  {
    var t := Tokens.ToString(name);
    var suffix := match default case None => "" case Some(d) => " = " + d;
    var prefix := if spread then "FnParam(..." else "FnParam(";
    assert ShowParameter(name, default, spread) == prefix + (t + suffix + ")");
  }

  /** A parameter with a default renders it after " = ", just before the closing parenthesis. */
  lemma ShowParameterCloses(name: Token, d: string, spread: bool)
    ensures var r := ShowParameter(name, Some(d), spread);
      r[|r| - 4 - |d|..] == " = " + d + ")"
  {
    var t := Tokens.ToString(name);
    var prefix := if spread then "FnParam(..." else "FnParam(";
    assert ShowParameter(name, Some(d), spread) == (prefix + t) + (" = " + d + ")");
  }
}
