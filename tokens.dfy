/**
 * Token kinds (struct/TokenType.java), the kind classifications the parser uses
 * (struct/TokenTypes.java) and tokens themselves (struct/Token.java).
 */
module Tokens {
  import opened Wrappers
  import opened Positions

  /** The closed enumeration of token kinds, in declaration order. */
  datatype TokenType =
    | Int | Long | Double | Char | String | Bool
    | Identifier | Keyword
    | Plus | Minus
    | Multiply | Divide | Modulo | Power
    | And | Or | Not
    | Eq | Neq | Lss | Gtr | Leq | Geq
    | BitAnd | BitOr | BitNot
    | Equals | MinusEquals | Decrement
    | PlusEquals | Increment | TimesEquals | DivideEquals
    | LParen | RParen | LBracket | RBracket | LBrace | RBrace
    | Dot | Comma | Arrow | Colon | Spread | Semicolon
    | EOF
  {
    /** The display name given to each kind at construction; `toString` returns it. */
    function Name(): string
    {
      match this
      case Int => "Int"
      case Long => "Long"
      case Double => "Double"
      case Char => "Char"
      case String => "String"
      case Bool => "Bool"
      case Identifier => "Identifier"
      case Keyword => "Keyword"
      case Plus => "+"
      case Minus => "-"
      case Multiply => "*"
      case Divide => "/"
      case Modulo => "%"
      case Power => "**"
      case And => "&&"
      case Or => "||"
      case Not => "!"
      case Eq => "=="
      case Neq => "!="
      case Lss => "<"
      case Gtr => ">"
      case Leq => "<="
      case Geq => ">="
      case BitAnd => "&"
      case BitOr => "|"
      case BitNot => "~"
      case Equals => "="
      case MinusEquals => "-="
      case Decrement => "--"
      case PlusEquals => "+="
      case Increment => "++"
      case TimesEquals => "*="
      case DivideEquals => "/="
      case LParen => "("
      case RParen => ")"
      case LBracket => "["
      case RBracket => "]"
      case LBrace => "{"
      case RBrace => "}"
      case Dot => "."
      case Comma => ","
      case Arrow => "->"
      case Colon => ":"
      case Spread => "..."
      case Semicolon => ";"
      case EOF => "EOF"
    }
  }

  // struct/TokenTypes.java
  const Numbers: seq<TokenType> := [Int, Long, Double]
  const Operators: seq<TokenType> := [Plus, Minus, Multiply, Divide, Modulo]
  const PowerOperator: seq<TokenType> := [Power]
  const UnaryOperators: seq<TokenType> := [Plus, Minus, Not]
  const BinaryOperators: seq<TokenType> := [Multiply, Divide, Modulo]
  const Symbols: seq<TokenType> := [LParen, RParen]

  /** POWER shows as "**", SPREAD as "...", MODULO as "%", EQ as "==" and EOF as "EOF". */
  lemma DisplayNames()
    ensures Power.Name() == "**" && Spread.Name() == "..." && EOF.Name() == "EOF"
    ensures Modulo.Name() == "%" && Eq.Name() == "=="
  {
  }

  /** POWER is not one of OPERATORS; the binary operators are operators, and the unary ones are operators or NOT. */
  lemma Classifications()
    ensures Power !in Operators && Power in PowerOperator
    ensures forall k | k in BinaryOperators :: k in Operators
    ensures forall k | k in UnaryOperators :: k in Operators || k == Not
    ensures Not !in Operators && Eq !in Operators
  {
  }

  /** A token: its kind, where it starts and ends, and its text (null for most punctuation). */
  datatype Token = Token(kind: TokenType, start: Position, end: Position, value: Option<string>)

  /**
   * The constructors without an explicit end: the end is a copy of the start
   * advanced once over null, i.e. one column to the right on the same line.
   */
  function TokenAt(kind: TokenType, start: Position, value: Option<string>): (t: Token)
    ensures t.kind == kind && t.start == start && t.value == value
    ensures t.end.index == start.index + 1
    ensures t.end.line == start.line && t.end.column == start.column + 1
  {
    Token(kind, start, Advance(start, None), value)
  }

  /** Whether `toString` prints only the kind (operators and parentheses). */
  predicate PrintsKindOnly(kind: TokenType)
  {
    kind in Operators || kind in Symbols
  }

  /** `Token.toString`. */
  function ToString(t: Token): (r: string)
    ensures PrintsKindOnly(t.kind) || t.value.None? ==> r == t.kind.Name()
    ensures !PrintsKindOnly(t.kind) && t.value.Some? ==> r == t.kind.Name() + "(" + t.value.value + ")"
  {
    if PrintsKindOnly(t.kind) then t.kind.Name()
    else match t.value
      case None => t.kind.Name()
      case Some(v) => t.kind.Name() + "(" + v + ")"
  }

  /**
   * For every kind other than the operators and parentheses, `toString` loses
   * nothing: two tokens of one kind that print alike carry the same value.
   */
  lemma ToStringKeepsValue(t1: Token, t2: Token)
    requires t1.kind == t2.kind && !PrintsKindOnly(t1.kind)
    requires ToString(t1) == ToString(t2)
    ensures t1.value == t2.value
  {
    var n := t1.kind.Name();
    if t1.value.Some? && t2.value.Some? {
      var s1, s2 := ToString(t1), ToString(t2);
      assert t1.value.value == s1[|n| + 1..|s1| - 1];
      assert t2.value.value == s2[|n| + 1..|s2| - 1];
    }
  }
}
