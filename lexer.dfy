/**
 * The lexer (lex/Lexer.java): a cursor over the text that emits tokens.
 *
 * The cursor state of the implementation is the position `pos` together with
 * `currentChar`, which is always the character at `pos.index` (or null past the
 * end); here the position alone is the state and `CharAt` gives the character.
 * Each `create*` method and the scan loop are methods with loops, each proved
 * equal to a tail-recursive specification function over the same position.
 */
module Lexing {
  import opened Wrappers
  import opened Positions
  import opened Tokens
  import opened Errors

  /** A character of the NUMBERS string "0123456789". */
  predicate IsDigit(c: char)
  {
    '0' <= c <= '9'
  }

  /** A character of the IDENTIFIERS string: the ASCII letters, '_' and '$'. */
  predicate IsIdentifierChar(c: char)
  {
    ('A' <= c <= 'Z') || ('a' <= c <= 'z') || c == '_' || c == '$'
  }
  const Keywords: seq<string> := [
    "int", "long", "float", "double", "string", "bool",
    "var", "const",
    "if", "else", "for", "of", "in", "while", "switch", "case", "return", "break", "continue",
    "mew", "delete"]
  const Booleans: seq<string> := ["true", "false"]

  /** What a lexing step produces: a value, a lexing error, or a host exception. */
  datatype LexResult<T> = Success(value: T) | Failure(error: SkError) | Crashed(fault: Fault)

  /** `currentChar` for a cursor at index `i`: the character there, or null past either end. */
  function CharAt(text: string, i: int): (c: Option<char>)
    ensures c.Some? <==> 0 <= i < |text|
    ensures c.Some? ==> c.value == text[i]
  {
    if 0 <= i < |text| then Some(text[i]) else None
  }

  /** The lexer's `advance()`: step the position over the current character. */
  function Next(text: string, pos: Position): (q: Position)
    ensures q.index == pos.index + 1
  {
    Advance(pos, CharAt(text, pos.index))
  }

  /** The position after the constructor's advance and `k` further ones. */
  function PosAt(text: string, k: nat): (p: Position)
    ensures p.index == k
  {
    if k == 0 then Next(text, Fresh()) else Next(text, PosAt(text, k - 1))
  }

  /** A lexing error whose span is a single position, as every error the lexer raises. */
  function ErrorAt(pos: Position, details: string): (e: SkError)
    ensures e.name == LexingError && e.start == Some(pos) && e.end == Some(pos) && e.details == details
  {
    Spanning(LexingError, pos, pos, details)
  }

  /** Java's rendering of the nullable current character inside an error message. */
  function ShowChar(c: Option<char>): string
  {
    match c
    case None => "null"
    case Some(ch) => [ch]
  }

  // ---------------------------------------------------------------------------
  // Specification functions

  /** The first index at which `chars` holds `c`. */
  function FirstMatch(chars: seq<char>, c: char): (r: Option<nat>)
    ensures r.Some? ==> r.value < |chars| && chars[r.value] == c && forall j :: 0 <= j < r.value ==> chars[j] != c
    ensures r.None? ==> c !in chars
  {
    if chars == [] then None
    else if chars[0] == c then Some(0)
    else match FirstMatch(chars[1..], c)
      case None => None
      case Some(k) => Some(k + 1)
  }

  /**
   * `createSimpleToken`: step over the operator character; a matching next
   * character selects the two-character kind and is consumed as well, any other
   * one is left for the next token; the end of the input is an error.
   */
  function SimpleSpec(text: string, pos: Position, without: TokenType, chars: seq<char>, types: seq<TokenType>)
    : (r: LexResult<(Token, Position)>)
    requires |chars| == |types|
    ensures r.Crashed? == false
    ensures r.Failure? <==> CharAt(text, pos.index + 1).None?
    ensures r.Failure? ==> r.error == ErrorAt(Next(text, pos), "Unexpected character 'null'")
    ensures r.Success? ==> r.value.0.start == pos && r.value.0.end == Next(text, pos) && r.value.0.value.None?
    ensures r.Success? ==> r.value.0.kind == without || r.value.0.kind in types
    ensures r.Success? && text[pos.index + 1] in chars ==>
      && r.value.1.index == pos.index + 2
      && exists i :: 0 <= i < |chars| && chars[i] == text[pos.index + 1] && r.value.0.kind == types[i]
    ensures r.Success? && text[pos.index + 1] !in chars ==>
      r.value.1.index == pos.index + 1 && r.value.0.kind == without
  {
    var p1 := Next(text, pos);
    match CharAt(text, p1.index)
    case None => Failure(ErrorAt(p1, "Unexpected character 'null'"))
    case Some(c) =>
      match FirstMatch(chars, c)
      case Some(i) => Success((Token(types[i], pos, p1, None), Next(text, p1)))
      case None => Success((Token(without, pos, p1, None), p1))
  }

  /** The scan loop of `createNumber`: digits and at most one '.'. */
  function ScanNumber(text: string, p: Position, number: string, decimal: bool): (r: (Position, string, bool))
    ensures r.0.index >= p.index
    decreases |text| - p.index
  {
    match CharAt(text, p.index)
    case None => (p, number, decimal)
    case Some(c) =>
      if !(IsDigit(c) || c == '.') then (p, number, decimal)
      else if c == '.' && decimal then (p, number, decimal)
      else ScanNumber(text, Next(text, p), number + [c], decimal || c == '.')
  }

  /** `createNumber`: the number's kind depends on a '.' in its text and on a trailing 'L'. */
  function NumberSpec(text: string, pos: Position): (r: (Token, Position))
    ensures r.0.start == pos && r.0.end == r.1 && r.1.index >= pos.index
    ensures r.0.kind in {Int, Long, Double} && r.0.value.Some?
  {
    var (p, number, decimal) := ScanNumber(text, pos, "", false);
    if CharAt(text, p.index) == Some('L') then
      var q := Next(text, p);
      (Token(Long, pos, q, Some(number)), q)
    else
      (Token(if decimal then Double else Int, pos, p, Some(number)), p)
  }

  /** The scan loop of `createIdentifier`: letters, '_', '$' and digits. */
  function ScanIdentifier(text: string, p: Position, id: string): (r: (Position, string))
    ensures r.0.index >= p.index
    decreases |text| - p.index
  {
    match CharAt(text, p.index)
    case None => (p, id)
    case Some(c) =>
      if (IsIdentifierChar(c) || IsDigit(c)) then ScanIdentifier(text, Next(text, p), id + [c])
      else (p, id)
  }

  /** The kind an identifier-shaped word gets: keyword, then boolean, then plain identifier. */
  function WordKind(id: string): (k: TokenType)
    ensures k == Keyword <==> id in Keywords
    ensures k == Bool <==> id !in Keywords && id in Booleans
    ensures k == Identifier <==> id !in Keywords && id !in Booleans
  {
    if id in Keywords then Keyword else if id in Booleans then Bool else Identifier
  }

  /** `createIdentifier`. */
  function IdentifierSpec(text: string, pos: Position): (r: (Token, Position))
    ensures r.0.start == pos && r.0.end == r.1 && r.1.index >= pos.index
    ensures r.0.value.Some? && r.0.kind == WordKind(r.0.value.value)
    ensures r.0.kind in {Keyword, Bool, Identifier}
  {
    var (p, id) := ScanIdentifier(text, pos, "");
    (Token(WordKind(id), pos, p, Some(id)), p)
  }

  /** The character an escape letter stands for, for the single-letter escapes. */
  function Unescape(e: char): (r: Option<char>)
    ensures r.Some? <==> e in "nt\"`'"
  {
    if e == 'n' then Some('\n')
    else if e == 't' then Some('\t')
    else if e == '"' then Some('"')
    else if e == '`' then Some('`')
    else if e == '\'' then Some('\'')
    else None
  }

  /** `n` advances from `p`. */
  function NextN(text: string, p: Position, n: nat): (q: Position)
    ensures q.index == p.index + n
    decreases n
  {
    if n == 0 then p else NextN(text, Next(text, p), n - 1)
  }

  /**
   * The scan loop of `createString`: returns the decoded text and the position
   * of the closing quote (or the end of the input, which is not an error).
   */
  function ScanString(text: string, p: Position, acc: string): (r: LexResult<(string, Position)>)
    ensures r.Crashed? == false
    ensures r.Success? ==> r.value.1.index >= p.index
    decreases |text| - p.index
  {
    match CharAt(text, p.index)
    case None => Success((acc, p))
    case Some(c) =>
      if c == '\\' then
        var p1 := Next(text, p);
        match CharAt(text, p1.index)
        case None => Failure(ErrorAt(p1, "Unexpected end of input"))
        case Some(e) =>
          match Unescape(e)
          case Some(d) => ScanString(text, Next(text, p1), acc + [d])
          case None =>
            if e == 'u' then ScanString(text, Next(text, NextN(text, p1, 4)), acc + "<?>")
            else Failure(ErrorAt(p1, "Invalid escape sequence: \\" + [e]))
      else if c == '"' then Success((acc, p))
      else ScanString(text, Next(text, p), acc + [c])
  }

  /** `createString`: skip the opening quote, scan, then step over the closing quote. */
  function StringSpec(text: string, pos: Position): (r: LexResult<(Token, Position)>)
    ensures r.Crashed? == false
    ensures r.Success? ==> r.value.1.index >= pos.index + 2
  {
    match ScanString(text, Next(text, pos), "")
    case Success((s, p)) =>
      var q := Next(text, p);
      Success((Token(String, pos, q, Some(s)), q))
    case Failure(e) => Failure(e)
  }

  /** The scan loop of a `//` comment: up to (not over) the next newline. */
  function SkipComment(text: string, p: Position): (q: Position)
    ensures q.index >= p.index
    decreases |text| - p.index
  {
    match CharAt(text, p.index)
    case None => p
    case Some(c) => if c == '\n' then p else SkipComment(text, Next(text, p))
  }

  /** The characters that start a single-character token with no longer form. */
  const SingleChars: string := "=:;[]{},()~"

  function SingleKind(c: char): TokenType
    requires c in SingleChars
  {
    if c == '=' then Equals
    else if c == ':' then Colon
    else if c == ';' then Semicolon
    else if c == '[' then LBracket
    else if c == ']' then RBracket
    else if c == '{' then LBrace
    else if c == '}' then RBrace
    else if c == ',' then Comma
    else if c == '(' then LParen
    else if c == ')' then RParen
    else BitNot
  }

  /** The characters handed to `createSimpleToken` or `createDualToken`. */
  const OperatorChars: string := "+-*&|!><"

  /** The arguments `tokenize` passes to `createSimpleToken` for each operator character. */
  function OperatorTable(c: char): (r: (TokenType, seq<char>, seq<TokenType>))
    requires c in OperatorChars
    ensures |r.1| == |r.2|
  {
    if c == '+' then (Plus, ['=', '+'], [PlusEquals, Increment])
    else if c == '-' then (Minus, ['=', '-', '>'], [MinusEquals, Decrement, Arrow])
    else if c == '*' then (Multiply, ['=', '*'], [TimesEquals, Power])
    else if c == '&' then (BitAnd, ['&'], [And])
    else if c == '|' then (BitOr, ['|'], [Or])
    else if c == '!' then (Not, ['='], [Neq])
    else if c == '>' then (Gtr, ['='], [Geq])
    else (Lss, ['='], [Leq])
  }

  /** A token-producing result as the result of one turn of the scan loop. */
  function Emitted(r: LexResult<(Token, Position)>): (s: LexResult<(Option<Token>, Position)>)
    ensures s.Success? <==> r.Success?
    ensures s.Success? ==> s.value == (Some(r.value.0), r.value.1)
    ensures r.Failure? ==> s == Failure(r.error)
    ensures r.Crashed? ==> s == Crashed(r.fault)
  {
    match r
    case Success((t, q)) => Success((Some(t), q))
    case Failure(e) => Failure(e)
    case Crashed(f) => Crashed(f)
  }

  /**
   * The '/' branch of `tokenize`: a comment through the next newline, "/=", or
   * a lone '/' whose token starts at the character after it. At the very end
   * of the input the branch compares null with a character, which throws.
   */
  function SlashSpec(text: string, pos: Position): (r: LexResult<(Option<Token>, Position)>)
    requires pos.index >= 0
    ensures r.Success? ==> r.value.1.index > pos.index
    ensures r.Failure? == false
  {
    var p1 := Next(text, pos);
    match CharAt(text, p1.index)
    case None => Crashed(NullPointer)
    case Some(c1) =>
      if c1 == '/' then Success((None, Next(text, SkipComment(text, p1))))
      else if c1 == '=' then Success((Some(Token(DivideEquals, pos, p1, None)), Next(text, p1)))
      else Success((Some(TokenAt(Divide, p1, None)), p1))
  }

  /**
   * The '.' branch of `tokenize`: "..." gives Spread without consuming the
   * third dot, ".." followed by anything else gives nothing, and any other '.'
   * gives Dot. The end of the input after one or two dots throws.
   */
  function DotSpec(text: string, pos: Position): (r: LexResult<(Option<Token>, Position)>)
    requires pos.index >= 0
    ensures r.Success? ==> r.value.1.index > pos.index
    ensures r.Failure? == false
  {
    var p1 := Next(text, pos);
    match CharAt(text, p1.index)
    case None => Crashed(NullPointer)
    case Some(c1) =>
      if c1 == '.' then
        var p2 := Next(text, p1);
        match CharAt(text, p2.index)
        case None => Crashed(NullPointer)
        case Some(c2) =>
          if c2 == '.' then Success((Some(Token(Spread, pos, p2, None)), p2))
          else Success((None, p2))
      else Success((Some(TokenAt(Dot, p1, None)), p1))
  }

  /** The operator branches of `tokenize`, each a call of `createSimpleToken` or `createDualToken`. */
  function OperatorSpec(text: string, pos: Position, c: char): (r: LexResult<(Option<Token>, Position)>)
    requires c in OperatorChars
    ensures r.Success? ==> r.value.1.index > pos.index
  {
    var (without, chars, types) := OperatorTable(c);
    Emitted(SimpleSpec(text, pos, without, chars, types))
  }

  /**
   * One turn of the scan loop of `tokenize`, at a position holding a character:
   * the token it emits (if any) and the position the next turn starts from.
   */
  function StepSpec(text: string, pos: Position): (r: LexResult<(Option<Token>, Position)>)
    requires 0 <= pos.index < |text|
    ensures r.Success? ==> r.value.1.index > pos.index
  {
    var c := text[pos.index];
    if c == ' ' || c == '\t' then Success((None, Next(text, pos)))
    else if c == '"' then Emitted(StringSpec(text, pos))
    else if c in OperatorChars then OperatorSpec(text, pos, c)
    else if c == '/' then SlashSpec(text, pos)
    else if c == '.' then DotSpec(text, pos)
    else if c in SingleChars then Success((Some(TokenAt(SingleKind(c), pos, None)), Next(text, pos)))
    else if IsDigit(c) then Emitted(Success(NumberSpec(text, pos)))
    else if IsIdentifierChar(c) then Emitted(Success(IdentifierSpec(text, pos)))
    else Failure(ErrorAt(pos, "Unexpected character '" + [c] + "'"))
  }

  /** The scan loop of `tokenize` from `pos`, with the tokens `acc` already collected. */
  function LexFrom(text: string, pos: Position, acc: seq<Token>): (r: LexResult<seq<Token>>)
    requires pos.index >= 0
    ensures r.Success? ==> |r.value| > |acc| && r.value[..|acc|] == acc && r.value[|r.value| - 1].kind == EOF
    decreases |text| - pos.index
  {
    if pos.index >= |text| then Success(acc + [TokenAt(EOF, pos, None)])
    else match StepSpec(text, pos)
      case Success((t, q)) => LexFrom(text, q, if t.Some? then acc + [t.value] else acc)
      case Failure(e) => Failure(e)
      case Crashed(f) => Crashed(f)
  }

  /** `new Lexer(text).tokenize()`. */
  function Lex(text: string): (r: LexResult<seq<Token>>)
    ensures r.Success? ==> |r.value| > 0 && r.value[|r.value| - 1].kind == EOF
  {
    LexFrom(text, PosAt(text, 0), [])
  }

  // ---------------------------------------------------------------------------
  // The implementation

  /** `createSimpleToken` (and `createDualToken`, its one-alternative form). */
  method CreateSimpleToken(text: string, pos: Position, without: TokenType, chars: seq<char>, types: seq<TokenType>)
    returns (r: LexResult<(Token, Position)>)
    requires |chars| == |types|
    ensures r == SimpleSpec(text, pos, without, chars, types)
  {
    var start := pos;
    var p := Next(text, pos);
    var current := CharAt(text, p.index);
    if current.None? {
      return Failure(ErrorAt(p, "Unexpected character '" + ShowChar(current) + "'"));
    }
    var i := 0;
    while i < |chars|
      invariant 0 <= i <= |chars|
      invariant forall j :: 0 <= j < i ==> chars[j] != current.value
    {
      if current.value == chars[i] {
        var token := Token(types[i], start, p, None);
        p := Next(text, p);
        assert FirstMatch(chars, current.value) == Some(i);
        return Success((token, p));
      }
      i := i + 1;
    }
    return Success((Token(without, start, p, None), p));
  }

  /** `createNumber`. */
  method CreateNumber(text: string, pos: Position) returns (r: (Token, Position))
    ensures r == NumberSpec(text, pos)
  {
    var number := "";
    var start := pos;
    var decimal := false;
    var p := pos;
    while CharAt(text, p.index).Some? && (IsDigit(CharAt(text, p.index).value) || CharAt(text, p.index).value == '.')
      invariant ScanNumber(text, p, number, decimal) == ScanNumber(text, pos, "", false)
      decreases |text| - p.index
    {
      var c := CharAt(text, p.index).value;
      if c == '.' {
        if decimal { break; }
        decimal := true;
        number := number + ['.'];
      } else {
        number := number + [c];
      }
      p := Next(text, p);
    }
    if CharAt(text, p.index) == Some('L') {
      p := Next(text, p);
      return (Token(Long, start, p, Some(number)), p);
    }
    var token;
    if decimal {
      token := Token(Double, start, p, Some(number));
    } else {
      token := Token(Int, start, p, Some(number));
    }
    return (token, p);
  }

  /** `createIdentifier`. */
  method CreateIdentifier(text: string, pos: Position) returns (r: (Token, Position))
    ensures r == IdentifierSpec(text, pos)
  {
    var identifier := "";
    var start := pos;
    var p := pos;
    while CharAt(text, p.index).Some? && (IsIdentifierChar(CharAt(text, p.index).value) || IsDigit(CharAt(text, p.index).value))
      invariant ScanIdentifier(text, p, identifier) == ScanIdentifier(text, pos, "")
      decreases |text| - p.index
    {
      identifier := identifier + [CharAt(text, p.index).value];
      p := Next(text, p);
    }
    var id := identifier;
    var token;
    if id in Keywords {
      token := Token(Keyword, start, p, Some(id));
    } else if id in Booleans {
      token := Token(Bool, start, p, Some(id));
    } else {
      token := Token(Identifier, start, p, Some(id));
    }
    return (token, p);
  }

  /** `createString`. */
  method CreateString(text: string, pos: Position) returns (r: LexResult<(Token, Position)>)
    ensures r == StringSpec(text, pos)
  {
    var s := "";
    var start := pos;
    var p := Next(text, pos);
    while CharAt(text, p.index).Some?
      invariant ScanString(text, p, s) == ScanString(text, Next(text, pos), "")
      decreases |text| - p.index
    {
      var c := CharAt(text, p.index).value;
      if c == '\\' {
        p := Next(text, p);
        var e := CharAt(text, p.index);
        if e.None? {
          return Failure(ErrorAt(p, "Unexpected end of input"));
        } else if e.value == 'n' {
          s := s + ['\n'];
        } else if e.value == 't' {
          s := s + ['\t'];
        } else if e.value == '"' {
          s := s + ['"'];
        } else if e.value == '`' {
          s := s + ['`'];
        } else if e.value == '\'' {
          s := s + ['\''];
        } else if e.value == 'u' {
          ghost var p1 := p;
          for i := 0 to 4
            invariant NextN(text, p, 4 - i) == NextN(text, p1, 4)
          {
            p := Next(text, p);
          }
          s := s + "<?>";
        } else {
          return Failure(ErrorAt(p, "Invalid escape sequence: \\" + [e.value]));
        }
      } else if c == '"' {
        break;
      } else {
        s := s + [c];
      }
      p := Next(text, p);
    }
    p := Next(text, p);
    return Success((Token(String, start, p, Some(s)), p));
  }

  /** One turn of the scan loop of `tokenize`: the branch chain on the current character. */
  method Step(text: string, pos: Position) returns (r: LexResult<(Option<Token>, Position)>)
    requires 0 <= pos.index < |text|
    ensures r == StepSpec(text, pos)
  {
    var c := text[pos.index];
    if c == ' ' || c == '\t' {
      return Success((None, Next(text, pos)));
    } else if c == '"' {
      var res := CreateString(text, pos);
      return match res
        case Success((t, q)) => Success((Some(t), q))
        case Failure(e) => Failure(e)
        case Crashed(f) => Crashed(f);
    } else if c in OperatorChars {
      var (without, chars, types) := OperatorTable(c);
      var res := CreateSimpleToken(text, pos, without, chars, types);
      return match res
        case Success((t, q)) => Success((Some(t), q))
        case Failure(e) => Failure(e)
        case Crashed(f) => Crashed(f);
    } else if c == '/' {
      var start := pos;
      var p := Next(text, pos);
      var c1 := CharAt(text, p.index);
      if c1.None? {
        return Crashed(NullPointer);
      }
      if c1.value == '/' {
        while CharAt(text, p.index).Some? && CharAt(text, p.index).value != '\n'
          invariant SkipComment(text, p) == SkipComment(text, Next(text, pos))
          decreases |text| - p.index
        {
          p := Next(text, p);
        }
        return Success((None, Next(text, p)));
      } else if c1.value == '=' {
        var token := Token(DivideEquals, start, p, None);
        return Success((Some(token), Next(text, p)));
      } else {
        return Success((Some(TokenAt(Divide, p, None)), p));
      }
    } else if c == '.' {
      var start := pos;
      var p := Next(text, pos);
      var c1 := CharAt(text, p.index);
      if c1.None? {
        return Crashed(NullPointer);
      }
      if c1.value == '.' {
        p := Next(text, p);
        var c2 := CharAt(text, p.index);
        if c2.None? {
          return Crashed(NullPointer);
        }
        if c2.value == '.' {
          return Success((Some(Token(Spread, start, p, None)), p));
        }
        return Success((None, p));
      } else {
        return Success((Some(TokenAt(Dot, p, None)), p));
      }
    } else if c in SingleChars {
      return Success((Some(TokenAt(SingleKind(c), pos, None)), Next(text, pos)));
    } else if IsDigit(c) {
      var res := CreateNumber(text, pos);
      return Success((Some(res.0), res.1));
    } else if IsIdentifierChar(c) {
      var res := CreateIdentifier(text, pos);
      return Success((Some(res.0), res.1));
    } else {
      return Failure(ErrorAt(pos, "Unexpected character '" + [c] + "'"));
    }
  }

  /** `tokenize`: scan to the end of the input, then append EOF. */
  method Tokenize(text: string) returns (r: LexResult<seq<Token>>)
    ensures r == Lex(text)
  {
    var pos := PosAt(text, 0);
    var tokens: seq<Token> := [];
    while pos.index < |text|
      invariant pos.index >= 0
      invariant LexFrom(text, pos, tokens) == Lex(text)
      decreases |text| - pos.index
    {
      var res := Step(text, pos);
      match res {
        case Success((t, q)) =>
          if t.Some? {
            tokens := tokens + [t.value];
          }
          pos := q;
        case Failure(e) =>
          return Failure(e);
        case Crashed(f) =>
          return Crashed(f);
      }
    }
    var eof := TokenAt(EOF, pos, None);
    tokens := tokens + [eof];
    return Success(tokens);
  }
}

/** What the lexer guarantees about the tokens it produces and the positions it reports. */
module LexingProperties {
  import opened Wrappers
  import opened Positions
  import opened Tokens
  import opened Errors
  import opened Lexing

  /** Kinds the lexer can emit before EOF: everything but EOF itself and the kinds no character sequence yields. */
  predicate EmittableKind(k: TokenType)
  {
    k != EOF && k != Eq && k != Modulo && k != Char
  }

  /** Kinds emitted by the branches other than `createIdentifier`: emittable, and never Keyword. */
  predicate PlainKind(k: TokenType)
  {
    EmittableKind(k) && k != Keyword
  }

  /** A token the lexer can emit before EOF: an emittable kind, and a keyword always with the text of a listed keyword. */
  predicate Emittable(t: Token)
  {
    EmittableKind(t.kind) && (t.kind == Keyword ==> t.value.Some? && t.value.value in Keywords)
  }

  lemma OperatorTableEmittable(c: char)
    requires c in OperatorChars
    ensures PlainKind(OperatorTable(c).0)
    ensures forall k | k in OperatorTable(c).2 :: PlainKind(k)
  {
  }

  lemma OperatorEmitsEmittable(text: string, pos: Position, c: char)
    requires c in OperatorChars
    ensures OperatorSpec(text, pos, c).Success? && OperatorSpec(text, pos, c).value.0.Some? ==>
      PlainKind(OperatorSpec(text, pos, c).value.0.value.kind)
  {
    var (without, chars, types) := OperatorTable(c);
    OperatorTableEmittable(c);
    var r := SimpleSpec(text, pos, without, chars, types);
    assert OperatorSpec(text, pos, c) == Emitted(r);
  }

  lemma SingleKindEmittable(c: char)
    requires c in SingleChars
    ensures PlainKind(SingleKind(c))
  {
  }

  lemma SlashEmitsEmittable(text: string, pos: Position)
    requires pos.index >= 0
    ensures SlashSpec(text, pos).Success? && SlashSpec(text, pos).value.0.Some? ==>
      PlainKind(SlashSpec(text, pos).value.0.value.kind)
  {
  }

  lemma DotEmitsEmittable(text: string, pos: Position)
    requires pos.index >= 0
    ensures DotSpec(text, pos).Success? && DotSpec(text, pos).value.0.Some? ==>
      PlainKind(DotSpec(text, pos).value.0.value.kind)
  {
  }

  lemma IdentifierEmittable(text: string, pos: Position)
    ensures Emittable(IdentifierSpec(text, pos).0)
  {
    var (p, id) := ScanIdentifier(text, pos, "");
    assert IdentifierSpec(text, pos).0.kind == WordKind(id);
  }

  /** The turns that do not go through `createIdentifier` emit only plain kinds. */
  lemma PlainStepEmitsPlain(text: string, pos: Position)
    requires 0 <= pos.index < |text| && !IsIdentifierChar(text[pos.index])
    ensures StepSpec(text, pos).Success? && StepSpec(text, pos).value.0.Some? ==>
      PlainKind(StepSpec(text, pos).value.0.value.kind)
  {
    var c := text[pos.index];
    if c == '"' {
      assert StepSpec(text, pos) == Emitted(StringSpec(text, pos));
    } else if c in OperatorChars {
      assert StepSpec(text, pos) == OperatorSpec(text, pos, c);
      OperatorEmitsEmittable(text, pos, c);
    } else if c == '/' {
      assert StepSpec(text, pos) == SlashSpec(text, pos);
      SlashEmitsEmittable(text, pos);
    } else if c == '.' {
      assert StepSpec(text, pos) == DotSpec(text, pos);
      DotEmitsEmittable(text, pos);
    } else if c in SingleChars {
      SingleKindEmittable(c);
    }
  }

  /** A letter, '_' or '$' starts none of the other branches of `tokenize`. */
  lemma IdentifierCharStartsNothingElse(c: char)
    requires IsIdentifierChar(c)
    ensures c != ' ' && c != '\t' && c != '"' && c != '/' && c != '.' && !IsDigit(c)
    ensures c !in OperatorChars && c !in SingleChars
  {
  }

  lemma StepEmitsEmittable(text: string, pos: Position)
    requires 0 <= pos.index < |text|
    ensures StepSpec(text, pos).Success? && StepSpec(text, pos).value.0.Some? ==>
      Emittable(StepSpec(text, pos).value.0.value)
  {
    var c := text[pos.index];
    if IsIdentifierChar(c) {
      IdentifierCharStartsNothingElse(c);
      assert StepSpec(text, pos) == Emitted(Success(IdentifierSpec(text, pos)));
      IdentifierEmittable(text, pos);
    } else {
      PlainStepEmitsPlain(text, pos);
    }
  }

  lemma {:induction false} LexFromShape(text: string, pos: Position, acc: seq<Token>)
    requires pos.index >= 0
    requires forall i :: 0 <= i < |acc| ==> Emittable(acc[i])
    ensures LexFrom(text, pos, acc).Success? ==>
      var ts := LexFrom(text, pos, acc).value;
      && |ts| > 0 && ts[|ts| - 1].kind == EOF
      && forall i :: 0 <= i < |ts| - 1 ==> Emittable(ts[i])
    decreases |text| - pos.index
  {
    if pos.index < |text| {
      StepEmitsEmittable(text, pos);
      match StepSpec(text, pos)
      case Success((t, q)) =>
        LexFromShape(text, q, if t.Some? then acc + [t.value] else acc);
      case Failure(_) =>
      case Crashed(_) =>
    }
  }

  /**
   * A successful tokenisation ends with exactly one EOF token, and no token
   * before it is EOF, Eq ("=="), Modulo ("%") or Char: "=" is always a lone
   * Equals and "%" is an unexpected character. Every keyword token carries
   * the text of one of the listed keywords.
   */
  lemma LexEndsWithSingleEof(text: string)
    ensures Lex(text).Success? ==>
      var ts := Lex(text).value;
      && |ts| > 0 && ts[|ts| - 1].kind == EOF
      && (forall i :: 0 <= i < |ts| - 1 ==> ts[i].kind != EOF && ts[i].kind != Eq && ts[i].kind != Modulo)
      && (forall i :: 0 <= i < |ts| && ts[i].kind == Keyword ==> ts[i].value.Some? && ts[i].value.value in Keywords)
  {
    LexFromShape(text, PosAt(text, 0), []);
    if Lex(text).Success? {
      EmittableBeforeEof(Lex(text).value);
    }
  }

  /** A list of emittable tokens closed by EOF has no other EOF, no Eq, no Modulo, and keywords with listed texts. */
  lemma EmittableBeforeEof(ts: seq<Token>)
    requires |ts| > 0 && ts[|ts| - 1].kind == EOF
    requires forall i :: 0 <= i < |ts| - 1 ==> Emittable(ts[i])
    ensures forall i :: 0 <= i < |ts| - 1 ==> ts[i].kind != EOF && ts[i].kind != Eq && ts[i].kind != Modulo
    ensures forall i :: 0 <= i < |ts| && ts[i].kind == Keyword ==> ts[i].value.Some? && ts[i].value.value in Keywords
  {
    forall i | 0 <= i < |ts| && ts[i].kind == Keyword
      ensures ts[i].value.Some? && ts[i].value.value in Keywords
    {
      assert i < |ts| - 1 && Emittable(ts[i]);
    }
  }

  /** Number of newlines in `s`. */
  function Newlines(s: string): nat
  {
    if s == [] then 0 else Newlines(s[..|s| - 1]) + (if s[|s| - 1] == '\n' then 1 else 0)
  }

  /** Index of the last newline in `s`, or -1. */
  function LastNewline(s: string): (r: int)
    ensures -1 <= r < |s|
  {
    if s == [] then -1 else if s[|s| - 1] == '\n' then |s| - 1 else LastNewline(s[..|s| - 1])
  }

  /**
   * Line and column tracking: after `k` characters of the text the lexer's
   * position is at index `k`, on the line numbered by the newlines passed, and
   * in the column counted from just after the last newline.
   */
  lemma {:induction false} PositionTracksText(text: string, k: nat)
    requires k <= |text|
    ensures PosAt(text, k).index == k
    ensures PosAt(text, k).line == Newlines(text[..k])
    ensures PosAt(text, k).column == k - 1 - LastNewline(text[..k])
  {
    if k > 0 {
      PositionTracksText(text, k - 1);
      assert text[..k][..k - 1] == text[..k - 1];
    }
  }

  /** A position the lexer can actually reach: the one after `index` advances. */
  ghost predicate Reached(text: string, p: Position)
  {
    p.index >= 0 && p == PosAt(text, p.index)
  }

  lemma NextReached(text: string, p: Position)
    requires Reached(text, p)
    ensures Reached(text, Next(text, p))
  {
  }

  lemma {:induction false} NextNReached(text: string, p: Position, n: nat)
    requires Reached(text, p)
    ensures Reached(text, NextN(text, p, n))
    decreases n
  {
    if n > 0 {
      NextReached(text, p);
      NextNReached(text, Next(text, p), n - 1);
    }
  }

  lemma {:induction false} ScanNumberReached(text: string, p: Position, number: string, decimal: bool)
    requires Reached(text, p)
    ensures Reached(text, ScanNumber(text, p, number, decimal).0)
    decreases |text| - p.index
  {
    if CharAt(text, p.index).Some? {
      var c := text[p.index];
      if (IsDigit(c) || c == '.') && !(c == '.' && decimal) {
        ScanNumberReached(text, Next(text, p), number + [c], decimal || c == '.');
      }
    }
  }

  lemma {:induction false} ScanIdentifierReached(text: string, p: Position, id: string)
    requires Reached(text, p)
    ensures Reached(text, ScanIdentifier(text, p, id).0)
    decreases |text| - p.index
  {
    if CharAt(text, p.index).Some? && (IsIdentifierChar(text[p.index]) || IsDigit(text[p.index])) {
      ScanIdentifierReached(text, Next(text, p), id + [text[p.index]]);
    }
  }

  lemma {:induction false} ScanStringReached(text: string, p: Position, acc: string)
    requires Reached(text, p)
    ensures ScanString(text, p, acc).Success? ==> Reached(text, ScanString(text, p, acc).value.1)
    ensures ScanString(text, p, acc).Failure? ==>
      exists q :: Reached(text, q) && ScanString(text, p, acc).error.start == Some(q)
    decreases |text| - p.index
  {
    if CharAt(text, p.index).Some? {
      var c := text[p.index];
      if c == '\\' {
        var p1 := Next(text, p);
        if CharAt(text, p1.index).Some? {
          var e := text[p1.index];
          if Unescape(e).Some? {
            ScanStringReached(text, Next(text, p1), acc + [Unescape(e).value]);
          } else if e == 'u' {
            NextNReached(text, p1, 4);
            ScanStringReached(text, Next(text, NextN(text, p1, 4)), acc + "<?>");
          }
        }
      } else if c != '"' {
        ScanStringReached(text, Next(text, p), acc + [c]);
      }
    }
  }

  lemma {:induction false} SkipCommentReached(text: string, p: Position)
    requires Reached(text, p)
    ensures Reached(text, SkipComment(text, p))
    decreases |text| - p.index
  {
    if CharAt(text, p.index).Some? && text[p.index] != '\n' {
      SkipCommentReached(text, Next(text, p));
    }
  }

  /**
   * A token starts at a reached position and ends at one, or (for the
   * constructors without an explicit end) one column after its start.
   */
  ghost predicate TokenReached(text: string, t: Token)
  {
    Reached(text, t.start) && (Reached(text, t.end) || t.end == Advance(t.start, None))
  }

  lemma StringStepReached(text: string, pos: Position)
    requires 0 <= pos.index < |text| && Reached(text, pos)
    ensures StringSpec(text, pos).Success? ==>
      Reached(text, StringSpec(text, pos).value.1) && TokenReached(text, StringSpec(text, pos).value.0)
    ensures StringSpec(text, pos).Failure? ==>
      exists q :: Reached(text, q) && StringSpec(text, pos).error.start == Some(q)
  {
    var p1 := Next(text, pos);
    NextReached(text, pos);
    ScanStringReached(text, p1, "");
    var s := ScanString(text, p1, "");
    if s.Success? {
      NextReached(text, s.value.1);
    }
  }

  lemma OperatorStepReached(text: string, pos: Position, c: char)
    requires c in OperatorChars && pos.index >= 0 && Reached(text, pos)
    ensures OperatorSpec(text, pos, c).Success? ==>
      Reached(text, OperatorSpec(text, pos, c).value.1) && TokenReached(text, OperatorSpec(text, pos, c).value.0.value)
    ensures OperatorSpec(text, pos, c).Failure? ==>
      exists q :: Reached(text, q) && OperatorSpec(text, pos, c).error.start == Some(q)
  {
    var p1 := Next(text, pos);
    NextReached(text, pos);
    NextReached(text, p1);
  }

  lemma SlashStepReached(text: string, pos: Position)
    requires pos.index >= 0 && Reached(text, pos)
    ensures SlashSpec(text, pos).Success? ==> Reached(text, SlashSpec(text, pos).value.1)
    ensures SlashSpec(text, pos).Success? && SlashSpec(text, pos).value.0.Some? ==>
      TokenReached(text, SlashSpec(text, pos).value.0.value)
  {
    var p1 := Next(text, pos);
    NextReached(text, pos);
    NextReached(text, p1);
    SkipCommentReached(text, p1);
    NextReached(text, SkipComment(text, p1));
  }

  lemma DotStepReached(text: string, pos: Position)
    requires pos.index >= 0 && Reached(text, pos)
    ensures DotSpec(text, pos).Success? ==> Reached(text, DotSpec(text, pos).value.1)
    ensures DotSpec(text, pos).Success? && DotSpec(text, pos).value.0.Some? ==>
      TokenReached(text, DotSpec(text, pos).value.0.value)
  {
    var p1 := Next(text, pos);
    NextReached(text, pos);
    NextReached(text, p1);
  }

  lemma StepReached(text: string, pos: Position)
    requires 0 <= pos.index < |text| && Reached(text, pos)
    ensures StepSpec(text, pos).Success? ==> Reached(text, StepSpec(text, pos).value.1)
    ensures StepSpec(text, pos).Success? && StepSpec(text, pos).value.0.Some? ==>
      TokenReached(text, StepSpec(text, pos).value.0.value)
    ensures StepSpec(text, pos).Failure? ==>
      exists q :: Reached(text, q) && StepSpec(text, pos).error.start == Some(q)
  {
    var c := text[pos.index];
    var r := StepSpec(text, pos);
    NextReached(text, pos);
    if c == ' ' || c == '\t' {
    } else if c == '"' {
      assert r == Emitted(StringSpec(text, pos));
      StringStepReached(text, pos);
    } else if c in OperatorChars {
      assert r == OperatorSpec(text, pos, c);
      OperatorStepReached(text, pos, c);
    } else if c == '/' {
      assert r == SlashSpec(text, pos);
      SlashStepReached(text, pos);
    } else if c == '.' {
      assert r == DotSpec(text, pos);
      DotStepReached(text, pos);
    } else if c in SingleChars {
    } else if IsDigit(c) {
      assert r == Emitted(Success(NumberSpec(text, pos)));
      ScanNumberReached(text, pos, "", false);
      NextReached(text, ScanNumber(text, pos, "", false).0);
    } else if IsIdentifierChar(c) {
      assert r == Emitted(Success(IdentifierSpec(text, pos)));
      ScanIdentifierReached(text, pos, "");
    }
  }

  lemma {:induction false} LexFromReached(text: string, pos: Position, acc: seq<Token>)
    requires Reached(text, pos)
    requires forall i :: 0 <= i < |acc| ==> TokenReached(text, acc[i])
    ensures LexFrom(text, pos, acc).Success? ==>
      forall i :: 0 <= i < |LexFrom(text, pos, acc).value| ==> TokenReached(text, LexFrom(text, pos, acc).value[i])
    ensures LexFrom(text, pos, acc).Failure? ==>
      exists q :: Reached(text, q) && LexFrom(text, pos, acc).error.start == Some(q)
    decreases |text| - pos.index
  {
    if pos.index < |text| {
      StepReached(text, pos);
      match StepSpec(text, pos)
      case Success((t, q)) =>
        LexFromReached(text, q, if t.Some? then acc + [t.value] else acc);
      case Failure(_) =>
      case Crashed(_) =>
    }
  }

  /**
   * Every position the lexer reports, at the start of each token and of a
   * lexing error, is the position after some number of advances, so
   * `PositionTracksText` gives its true line and column; a token ends at such a
   * position or one column after its start.
   */
  lemma LexReportsReachedPositions(text: string)
    ensures Lex(text).Success? ==>
      forall i :: 0 <= i < |Lex(text).value| ==> TokenReached(text, Lex(text).value[i])
    ensures Lex(text).Failure? ==> exists q :: Reached(text, q) && Lex(text).error.start == Some(q)
  {
    LexFromReached(text, PosAt(text, 0), []);
  }

  /** Text that holds at most one '.'. */
  predicate AtMostOneDot(s: string)
  {
    forall i, j :: 0 <= i < j < |s| && s[i] == '.' ==> s[j] != '.'
  }

  lemma {:induction false} ScanNumberText(text: string, p: Position, number: string, decimal: bool)
    requires 0 <= p.index <= |text|
    requires decimal <==> '.' in number
    requires AtMostOneDot(number)
    ensures var (q, n, d) := ScanNumber(text, p, number, decimal);
      && p.index <= q.index <= |text|
      && n == number + text[p.index..q.index]
      && (d <==> '.' in n) && AtMostOneDot(n)
      && (forall i :: |number| <= i < |n| ==> (IsDigit(n[i]) || n[i] == '.'))
      && (q.index == |text| || !(IsDigit(text[q.index]) || text[q.index] == '.') || (text[q.index] == '.' && d))
      && (p.index < |text| && IsDigit(text[p.index]) ==> q.index > p.index)
    decreases |text| - p.index
  {
    if p.index < |text| {
      var c := text[p.index];
      if (IsDigit(c) || c == '.') && !(c == '.' && decimal) {
        var number' := number + [c];
        assert AtMostOneDot(number') by {
          forall i, j | 0 <= i < j < |number'| && number'[i] == '.'
            ensures number'[j] != '.'
          {
            if j == |number| {
              assert number[i] == '.';
            }
          }
        }
        ScanNumberText(text, Next(text, p), number', decimal || c == '.');
        var (q, n, d) := ScanNumber(text, Next(text, p), number', decimal || c == '.');
        assert n == number + text[p.index..q.index] by {
          assert text[p.index..q.index] == [c] + text[p.index + 1..q.index];
        }
      }
    }
  }

  /**
   * `createNumber`: the token's text is exactly the digits and the '.' read
   * from the input (at most one '.'); a following 'L' is consumed but left out of
   * the text and makes the kind Long; otherwise the kind is Double when the text
   * holds a '.', else Int.
   */
  lemma NumberToken(text: string, pos: Position)
    requires 0 <= pos.index < |text| && IsDigit(text[pos.index])
    ensures var (t, q) := NumberSpec(text, pos);
      && t.start == pos && t.value.Some?
      && var v := t.value.value;
      && 1 <= |v| && pos.index + |v| <= |text| && v == text[pos.index..pos.index + |v|]
      && IsDigit(v[0]) && (forall i :: 0 <= i < |v| ==> (IsDigit(v[i]) || v[i] == '.')) && AtMostOneDot(v)
      && (t.kind == Long <==> pos.index + |v| < |text| && text[pos.index + |v|] == 'L')
      && (t.kind == Long ==> q.index == pos.index + |v| + 1)
      && (t.kind != Long ==> q.index == pos.index + |v| && (t.kind == Double <==> '.' in v) && (t.kind == Int <==> '.' !in v))
  {
    ScanNumberText(text, pos, "", false);
  }

  lemma {:induction false} ScanIdentifierText(text: string, p: Position, id: string)
    requires 0 <= p.index <= |text|
    ensures var (q, n) := ScanIdentifier(text, p, id);
      && p.index <= q.index <= |text|
      && n == id + text[p.index..q.index]
      && (forall i :: p.index <= i < q.index ==> (IsIdentifierChar(text[i]) || IsDigit(text[i])))
      && (q.index == |text| || !(IsIdentifierChar(text[q.index]) || IsDigit(text[q.index])))
    decreases |text| - p.index
  {
    if p.index < |text| && (IsIdentifierChar(text[p.index]) || IsDigit(text[p.index])) {
      var c := text[p.index];
      ScanIdentifierText(text, Next(text, p), id + [c]);
      var (q, n) := ScanIdentifier(text, Next(text, p), id + [c]);
      assert text[p.index..q.index] == [c] + text[p.index + 1..q.index];
    }
  }

  /**
   * `createIdentifier`: the token's text is the longest run of letters, '_',
   * '$' and digits from the first character, and its kind is Keyword, Bool or
   * Identifier by list membership.
   */
  lemma IdentifierToken(text: string, pos: Position)
    requires 0 <= pos.index < |text| && IsIdentifierChar(text[pos.index])
    ensures var (t, q) := IdentifierSpec(text, pos);
      && pos.index < q.index <= |text|
      && t.start == pos && t.end == q && t.value == Some(text[pos.index..q.index])
      && (forall i :: pos.index <= i < q.index ==> (IsIdentifierChar(text[i]) || IsDigit(text[i])))
      && (q.index == |text| || !(IsIdentifierChar(text[q.index]) || IsDigit(text[q.index])))
      && t.kind == WordKind(text[pos.index..q.index])
  {
    ScanIdentifierText(text, pos, "");
    ScanIdentifierText(text, Next(text, pos), [text[pos.index]]);
    var (q, n) := ScanIdentifier(text, pos, "");
    assert n == text[pos.index..q.index];
  }

  /** Example of `WordKind` and `IdentifierToken`: "fn" is not a keyword, so it lexes as a plain identifier. */
  lemma FnIsAnIdentifier()
    ensures WordKind("fn") == Identifier
  {
    forall w | w in Keywords + Booleans
      ensures w != "fn"
    {
      assert |w| != 2 || w[0] != 'f';
    }
  }

  /** Example of `WordKind`: "var" lexes as a keyword. */
  lemma VarIsAKeyword()
    ensures WordKind("var") == Keyword
  {
    assert Keywords[6] == "var";
  }

  /** Example of `WordKind`: "true" and "false" lex as booleans. */
  lemma TrueAndFalseAreBooleans()
    ensures WordKind("true") == Bool && WordKind("false") == Bool
  {
    assert Booleans[0] == "true" && Booleans[1] == "false";
    forall w | w in Keywords
      ensures w != "true" && w != "false"
    {
      assert w[0] != 't' && (w[0] != 'f' || w[1] != 'a');
    }
  }

  lemma {:induction false} ScanPlainString(text: string, p: Position, acc: string, j: int)
    requires 0 <= p.index <= j <= |text|
    requires forall i :: p.index <= i < j ==> text[i] != '\\' && text[i] != '"'
    requires j == |text| || text[j] == '"'
    ensures ScanString(text, p, acc) == Success((acc + text[p.index..j], NextN(text, p, j - p.index)))
    decreases j - p.index
  {
    if p.index < j {
      var c := text[p.index];
      assert CharAt(text, p.index) == Some(c) && c != '\\' && c != '"';
      var p1 := Next(text, p);
      assert ScanString(text, p, acc) == ScanString(text, p1, acc + [c]);
      ScanPlainString(text, p1, acc + [c], j);
      assert ScanString(text, p1, acc + [c]) == Success(((acc + [c]) + text[p1.index..j], NextN(text, p1, j - p1.index)));
      assert text[p.index..j] == [c] + text[p1.index..j];
      assert acc + text[p.index..j] == (acc + [c]) + text[p1.index..j];
      assert NextN(text, p, j - p.index) == NextN(text, p1, j - p1.index);
    } else {
      assert acc + text[p.index..j] == acc;
      if j < |text| {
        assert CharAt(text, p.index) == Some('"');
      }
    }
  }

  /**
   * `createString` without escapes: the token's text is everything between the
   * opening quote and the closing one, or the end of the input when the string
   * is never closed (not an error); the closing quote is consumed.
   */
  lemma PlainStringToken(text: string, pos: Position, j: int)
    requires 0 <= pos.index < j <= |text|
    requires forall i :: pos.index < i < j ==> text[i] != '\\' && text[i] != '"'
    requires j == |text| || text[j] == '"'
    ensures StringSpec(text, pos).Success?
    ensures var (t, q) := StringSpec(text, pos).value;
      t.kind == String && t.start == pos && t.value == Some(text[pos.index + 1..j]) && q.index == j + 1
  {
    ScanPlainString(text, Next(text, pos), "", j);
    assert "" + text[pos.index + 1..j] == text[pos.index + 1..j];
  }

  /**
   * Escapes: \n, \t, \", \` and \' decode to one character; \u skips the next four
   * characters and stands for "<?>"; any other escape, a second backslash
   * included, fails, and so does a backslash at the end of the input.
   */
  lemma StringEscapes(text: string, p: Position, acc: string)
    requires 0 <= p.index < |text| && text[p.index] == '\\'
    ensures p.index + 1 == |text| ==>
      ScanString(text, p, acc) == Failure(ErrorAt(Next(text, p), "Unexpected end of input"))
    ensures p.index + 1 < |text| && text[p.index + 1] in "nt\"`'" ==>
      ScanString(text, p, acc) == ScanString(text, NextN(text, p, 2), acc + [Unescape(text[p.index + 1]).value])
    ensures p.index + 1 < |text| && text[p.index + 1] == 'u' ==>
      ScanString(text, p, acc) == ScanString(text, NextN(text, p, 6), acc + "<?>")
    ensures p.index + 1 < |text| && text[p.index + 1] !in "nt\"`'u" ==>
      ScanString(text, p, acc) == Failure(ErrorAt(Next(text, p), "Invalid escape sequence: \\" + [text[p.index + 1]]))
  {
    var p1 := Next(text, p);
    assert NextN(text, p, 2) == Next(text, p1);
    assert NextN(text, p, 6) == Next(text, NextN(text, p1, 4)) by {
      assert NextN(text, p, 6) == NextN(text, p1, 5);
      NextNSplit(text, p1, 4);
    }
  }

  lemma {:induction false} NextNSplit(text: string, p: Position, n: nat)
    ensures NextN(text, p, n + 1) == Next(text, NextN(text, p, n))
    decreases n
  {
    if n > 0 {
      NextNSplit(text, Next(text, p), n - 1);
    }
  }

  lemma BlankStep(text: string, p: Position, acc: seq<Token>)
    requires 0 <= p.index < |text| && (text[p.index] == ' ' || text[p.index] == '\t')
    ensures StepSpec(text, p) == Success((None, Next(text, p)))
    ensures LexFrom(text, p, acc) == LexFrom(text, Next(text, p), acc)
  {
  }

  lemma {:induction false} BlanksSkipped(text: string, k: nat, acc: seq<Token>)
    requires k <= |text|
    requires forall i :: k <= i < |text| ==> text[i] == ' ' || text[i] == '\t'
    ensures LexFrom(text, PosAt(text, k), acc) == Success(acc + [TokenAt(EOF, PosAt(text, |text|), None)])
    decreases |text| - k
  {
    var p := PosAt(text, k);
    if k < |text| {
      BlankStep(text, p, acc);
      BlanksSkipped(text, k + 1, acc);
      assert PosAt(text, k + 1) == Next(text, p);
    } else {
      assert p == PosAt(text, |text|);
    }
  }

  /** Input of nothing but spaces and tabs lexes to the single EOF token at its end. */
  lemma BlankInput(text: string)
    requires forall i :: 0 <= i < |text| ==> text[i] == ' ' || text[i] == '\t'
    ensures Lex(text).Success? && |Lex(text).value| == 1
    ensures Lex(text).value[0] == TokenAt(EOF, PosAt(text, |text|), None)
  {
    BlanksSkipped(text, 0, []);
  }

  lemma {:induction false} SkipCommentTo(text: string, k: nat, j: nat)
    requires k <= j <= |text|
    requires forall i :: k <= i < j ==> text[i] != '\n'
    requires j == |text| || text[j] == '\n'
    ensures SkipComment(text, PosAt(text, k)) == PosAt(text, j)
    decreases j - k
  {
    if k < j {
      SkipCommentTo(text, k + 1, j);
    }
  }

  lemma CommentStep(text: string, k: nat, j: nat)
    requires k + 2 <= j <= |text|
    requires text[k] == '/' && text[k + 1] == '/'
    requires forall i :: k + 2 <= i < j ==> text[i] != '\n'
    requires j == |text| || text[j] == '\n'
    ensures StepSpec(text, PosAt(text, k)) == Success((None, PosAt(text, j + 1)))
  {
    SkipCommentTo(text, k + 1, j);
    assert StepSpec(text, PosAt(text, k)) == SlashSpec(text, PosAt(text, k));
  }

  /**
   * A `//` comment emits nothing: lexing resumes after the newline that ends
   * it (or one past the end of the input when none does).
   */
  lemma CommentSkipped(text: string, k: nat, j: nat, acc: seq<Token>)
    requires k + 2 <= j <= |text|
    requires text[k] == '/' && text[k + 1] == '/'
    requires forall i :: k + 2 <= i < j ==> text[i] != '\n'
    requires j == |text| || text[j] == '\n'
    ensures LexFrom(text, PosAt(text, k), acc) == LexFrom(text, PosAt(text, j + 1), acc)
  {
    CommentStep(text, k, j);
  }

  /** A space or a tab emits nothing. */
  lemma BlankSkipped(text: string, k: nat, acc: seq<Token>)
    requires k < |text| && (text[k] == ' ' || text[k] == '\t')
    ensures LexFrom(text, PosAt(text, k), acc) == LexFrom(text, PosAt(text, k + 1), acc)
  {
  }

  /** An operator character that starts a token as the last character of the input fails. */
  lemma OperatorAtEndFails(text: string, pos: Position)
    requires pos.index == |text| - 1 && |text| > 0 && text[pos.index] in OperatorChars
    ensures StepSpec(text, pos) == Failure(ErrorAt(Next(text, pos), "Unexpected character 'null'"))
  {
    assert StepSpec(text, pos) == OperatorSpec(text, pos, text[pos.index]);
  }

  /**
   * A character outside every class, such as '%' or a newline, fails with
   * "Unexpected character" at its own position.
   */
  lemma UnexpectedCharacter(text: string, pos: Position)
    requires 0 <= pos.index < |text|
    requires text[pos.index] !in " \t\"/." + OperatorChars + SingleChars
    requires !IsDigit(text[pos.index]) && !IsIdentifierChar(text[pos.index])
    ensures StepSpec(text, pos) == Failure(ErrorAt(pos, "Unexpected character '" + [text[pos.index]] + "'"))
  {
  }

  lemma PercentAndNewlineUnexpected()
    ensures '%' !in " \t\"/." + OperatorChars + SingleChars && !IsDigit('%') && !IsIdentifierChar('%')
    ensures '\n' !in " \t\"/." + OperatorChars + SingleChars && !IsDigit('\n') && !IsIdentifierChar('\n')
  {
  }
}
