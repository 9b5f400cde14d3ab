# sk: a model of the lexer, parser and evaluator

sk is a small scripting language implemented in Java as a three-stage
interpreter:

- a lexer turns the source text into tokens that end in EOF;
- a recursive-descent parser with a mutable token cursor turns the tokens into nodes;
- a tree-walking interpreter dispatches each node to a handler. Handlers read
  and change a chain of variable tables and report through a RuntimeResult.

This project models those three stages and the runtime value classes in Dafny.
It proves what each of them does.

## Layout

| file | module | what it models |
|---|---|---|
| wrappers.dfy | Wrappers | `Option`, which stands for a Java reference that may be null |
| positions.dfy | Positions | `Position`, as a value |
| tokens.dfy | Tokens | `TokenType`, the `TokenTypes` tables and `Token` |
| errors.dfy | Errors | `SkError` and its subclasses' names, the Java exceptions (`Fault`) and `Exec`, the outcome of code that may throw one or reach a part that is not modelled |
| lexer.dfy | Lexing, LexingProperties | `Lexer`: one method per `create*` routine with its loop, each proved equal to a specification function, plus the lexer's properties |
| ast.dfy | Ast | the parse nodes and their spans |
| parse_result.dfy | ParseResults | `ParseResult` and the parser's error messages |
| grammar.dfy | Grammar | the parser's rules as functions over the token sequence |
| parser.dfy | Parsing | `Parser` as a class with `tokens`, `index` and `currentToken`; every rule is a method proved equal to its grammar function |
| javaint.dfy | JavaInt | Java `int`/`long` wrap-around, truncating division, decimal rendering and parsing |
| values.dfy | Values | the value classes, `toString`, `compare`, `equalTo`, `lessThan` and `greaterThan` |
| conversions.dfy | Conversions | the `into` tables, `TypeConverter` and `SkBool`'s logic |
| arithmetic.dfy | Arithmetic | `SkInt` arithmetic, `Utils.math`, `SkString` operations and `SkNumber` |
| objects.dfy | Objects | `SkObject` and `SkClass` as classes over their maps |
| scope.dfy | Scope | `VariableTable`, modelled as a class holding its chain of levels, innermost first |
| runtime_result.dfy | RuntimeResults | `RuntimeResult` and `VarResult` as classes, with the states their setters leave |
| semantics.dfy | Semantics | the interpreter as a function: each handler's result and the table chain it leaves |
| handler_properties.dfy | HandlerProperties | what each handler promises, stated over Semantics |
| interpreter.dfy | Interpreting | `Interpreter` and its handlers as methods over a `VariableTable`; each is proved to give what Semantics gives |
| pipeline.dfy | Pipeline | a property of lexer and parser together |

## How the model is built

- Where the Java code changes state step by step, the model is imperative
  Dafny: the lexer, the parser, the VariableTable, RuntimeResult, VarResult,
  SkObject, SkClass and the interpreter's handlers. Each method's `ensures`
  ties its result and its new state to a specification function. The
  properties the source promises are proved as lemmas about those functions.
- A Java exception is an `Abrupt` outcome naming the exception. Code that
  calls into parts that are not modelled gives an `Unmodelled` outcome.
  Examples are floating point and classes that are not part of this model.
- A Java call stack of unbounded depth is not modelled. The interpreter takes
  a `fuel` bound, and running out of fuel stands for the `StackOverflowError`
  that deep recursion meets.
- Java `int` and `long` values are bounded subset types of `int`. Every
  operation wraps explicitly, and division and remainder truncate toward zero
  as Java's do.

The model follows the code as written. Six consequences of the code that a
reader might not expect:

- Reassignment refuses a name only when the *current* table binds it
  (`table.containsHere(name)`, VarReassignHandler.java:57). Otherwise it puts
  the name in the current table (VarReassignHandler.java:62), so it behaves as
  a definition (`HandlerProperties.ReassignBehavesAsDefinition`).
- An unterminated string literal is not an error. The loop of `createString`
  runs while `currentChar != null`, and then builds the token
  (Lexer.java:264-301), so the string ends at the end of the input.
- The escape `\\` fails with "Invalid escape sequence". The escape table of
  `createString` has entries for `n`, `t`, `"`, `` ` ``, `'` and `u` only
  (Lexer.java:269-289).
- A newline outside strings and comments is an unexpected character. The
  branch chain of `tokenize` skips only `' '` and `'\t'` (Lexer.java:71), and
  no later branch takes `'\n'` (Lexer.java:150-157).
- `fn` is not a keyword. The parser asks `isCurrentTokenKeyword("fn")`
  (Parser.java:79), but the lexer's `KEYWORDS` list leaves `fn` out
  (Lexer.java:34-39). So the parser's function-definition rule can never be
  reached: `Pipeline.LexedTokensNeverDefineFunctions`.
- `..` followed by something other than a third dot emits no token. After the
  second dot, `tokenize` sets a token only when a third dot follows
  (Lexer.java:102-106).

## Model

| member | source | states |
|---|---|---|
| Positions.Fresh | src/main/java/com/zytekaron/sk/struct/Position.java:28-34 | a new position sits before the first character: index -1, line 0, column -1 |
| Positions.Advance | src/main/java/com/zytekaron/sk/struct/Position.java:43-51 | every step moves the index by one; a newline moves to the next line at column 0, any other character (null included) one column right |
| Tokens.DisplayNames | src/main/java/com/zytekaron/sk/struct/TokenType.java:41-88 | POWER displays as "**", SPREAD as "...", MODULO as "%", EQ as "==" and EOF as "EOF" |
| Tokens.Classifications | src/main/java/com/zytekaron/sk/struct/TokenTypes.java:24-31 | POWER is in its own table and not among OPERATORS; every binary operator is an operator; every unary operator is an operator or NOT; NOT and EQ are not operators |
| Tokens.TokenAt | src/main/java/com/zytekaron/sk/struct/Token.java:28-36 | a token built without an end ends one index and one column after its start, on the same line |
| Tokens.ToString | src/main/java/com/zytekaron/sk/struct/Token.java:53-60 | operators and symbols print as their kind only; other tokens print their value in parentheses after the kind, or the kind alone when the value is null |
| Tokens.ToStringKeepsValue | src/main/java/com/zytekaron/sk/struct/Token.java:53-60 | outside operators and symbols, two tokens of one kind that print alike carry the same value |
| Errors.Spanning | src/main/java/com/zytekaron/sk/types/error/SkError.java:32-38 | the error keeps the name, the two positions and the details it is given |
| Errors.OfToken | src/main/java/com/zytekaron/sk/types/error/SkError.java:40-46 | the error's span is the token's start and end |
| Errors.ToString | src/main/java/com/zytekaron/sk/types/error/SkError.java:77-80 | the text is the name, then ": ", then the details, and nothing else |
| Lexing.CharAt | src/main/java/com/zytekaron/sk/lex/Lexer.java:51-58 | the current character is the text's character at the index, and null exactly when the index is outside the text |
| Lexing.Next | src/main/java/com/zytekaron/sk/lex/Lexer.java:51-58 | each `advance` moves the index exactly one place on |
| Lexing.PosAt | src/main/java/com/zytekaron/sk/lex/Lexer.java:46-58 | after the constructor's advance and `k` further ones the index is `k` |
| Lexing.ErrorAt | src/main/java/com/zytekaron/sk/lex/Lexer.java:185 | a lexing error's span is the single current position |
| Lexing.FirstMatch | src/main/java/com/zytekaron/sk/lex/Lexer.java:189-195 | the index found is the first one holding the character; none is found exactly when the character is absent |
| Lexing.SimpleSpec | src/main/java/com/zytekaron/sk/lex/Lexer.java:179-199 | at the end of the input the result is the "Unexpected character 'null'" error; otherwise a token starting at the operator whose kind is the one paired with the next character (which is consumed), or the plain kind when that character is not listed |
| Lexing.CreateSimpleToken | src/main/java/com/zytekaron/sk/lex/Lexer.java:175-199 | the loop over the alternatives gives what SimpleSpec describes |
| Lexing.ScanNumber | src/main/java/com/zytekaron/sk/lex/Lexer.java:208-217 | the scan never moves backwards |
| Lexing.ScanIdentifier | src/main/java/com/zytekaron/sk/lex/Lexer.java:240-243 | the identifier scan never moves backwards |
| Lexing.WordKind | src/main/java/com/zytekaron/sk/lex/Lexer.java:245-253 | a word is a keyword exactly when it is in the keyword list, a boolean exactly when it is in the boolean list and not a keyword, and an identifier otherwise |
| Lexing.Unescape | src/main/java/com/zytekaron/sk/lex/Lexer.java:270-279 | exactly the letters n, t, ", ` and ' are single-character escapes |
| Lexing.ScanString | src/main/java/com/zytekaron/sk/lex/Lexer.java:264-297 | the string scan never throws and never moves backwards |
| Lexing.StringSpec | src/main/java/com/zytekaron/sk/lex/Lexer.java:257-302 | a string token never throws and consumes at least both quotes' places |
| Lexing.SkipComment | src/main/java/com/zytekaron/sk/lex/Lexer.java:86-88 | the comment scan never moves backwards |
| Lexing.OperatorTable | src/main/java/com/zytekaron/sk/lex/Lexer.java:76-81 | each operator character has as many follow-up characters as follow-up kinds |
| Lexing.Emitted | src/main/java/com/zytekaron/sk/lex/Lexer.java:159-167 | a token result is added as the turn's token, and an error or a crash ends the scan with that same error or crash |
| Lexing.SlashSpec | src/main/java/com/zytekaron/sk/lex/Lexer.java:82-95 | the '/' branch always advances and never reports a lexing error (past the end of the input it throws) |
| Lexing.DotSpec | src/main/java/com/zytekaron/sk/lex/Lexer.java:99-109 | the '.' branch always advances and never reports a lexing error (past the end of the input it throws) |
| Lexing.OperatorSpec | src/main/java/com/zytekaron/sk/lex/Lexer.java:76-81 | an operator branch that succeeds always advances |
| Lexing.StepSpec | src/main/java/com/zytekaron/sk/lex/Lexer.java:71-158 | every successful turn of the scan loop advances the position |
| Lexing.CreateNumber | src/main/java/com/zytekaron/sk/lex/Lexer.java:201-232 | the digit loop gives what NumberSpec describes |
| Lexing.CreateIdentifier | src/main/java/com/zytekaron/sk/lex/Lexer.java:234-255 | the identifier loop gives what IdentifierSpec describes |
| Lexing.CreateString | src/main/java/com/zytekaron/sk/lex/Lexer.java:257-302 | the string loop gives what StringSpec describes |
| Lexing.Step | src/main/java/com/zytekaron/sk/lex/Lexer.java:68-167 | one turn of the branch chain gives what StepSpec describes |
| Lexing.Tokenize | src/main/java/com/zytekaron/sk/lex/Lexer.java:60-173 | the scan loop and the final EOF give what Lex describes |
| LexingProperties.OperatorTableEmittable | src/main/java/com/zytekaron/sk/lex/Lexer.java:76-81 | every kind in the operator table is one the lexer may emit before EOF |
| LexingProperties.OperatorEmitsEmittable | src/main/java/com/zytekaron/sk/lex/Lexer.java:76-81 | an operator branch never emits EOF, Eq, Modulo or Char |
| LexingProperties.SingleKindEmittable | src/main/java/com/zytekaron/sk/lex/Lexer.java:96-149 | a single-character token is never EOF, Eq, Modulo or Char |
| LexingProperties.StepEmitsEmittable | src/main/java/com/zytekaron/sk/lex/Lexer.java:71-158 | no turn of the scan loop emits EOF, Eq, Modulo or Char |
| LexingProperties.LexFromShape | src/main/java/com/zytekaron/sk/lex/Lexer.java:67-172 | from any point, a successful scan ends with EOF and adds no EOF, Eq, Modulo or Char token before it |
| LexingProperties.LexEndsWithSingleEof | src/main/java/com/zytekaron/sk/lex/Lexer.java:60-173 | a successful `tokenize` ends with exactly one EOF, and no earlier token is EOF, Eq or Modulo |
| LexingProperties.PositionTracksText | src/main/java/com/zytekaron/sk/struct/Position.java:43-51 | after k characters the position is at index k, its line counts the newlines passed, and its column counts from just after the last newline |
| LexingProperties.LexFromReached | src/main/java/com/zytekaron/sk/lex/Lexer.java:67-172 | every token position and every error position the scan reports is one the cursor actually reaches |
| LexingProperties.LexReportsReachedPositions | src/main/java/com/zytekaron/sk/lex/Lexer.java:60-173 | all positions reported by `tokenize`, in tokens or in the error, are positions of the cursor |
| LexingProperties.NumberToken | src/main/java/com/zytekaron/sk/lex/Lexer.java:201-232 | a number token's text is the run of digits and at most one '.' from its start; a following 'L' is consumed and makes it Long, otherwise it is Double exactly when it holds a '.', else Int |
| LexingProperties.ScanIdentifierText | src/main/java/com/zytekaron/sk/lex/Lexer.java:240-243 | the identifier scan stops at the first character that is neither a letter, '_', '$' nor a digit, and collects exactly the characters passed |
| LexingProperties.IdentifierToken | src/main/java/com/zytekaron/sk/lex/Lexer.java:234-255 | an identifier token's text is the longest run of identifier characters and digits, and its kind is WordKind of that text |
| LexingProperties.FnIsAnIdentifier | src/main/java/com/zytekaron/sk/lex/Lexer.java:34-39 | example of WordKind and IdentifierToken: "fn" is not in the keyword list, so it lexes as a plain identifier |
| LexingProperties.VarIsAKeyword | src/main/java/com/zytekaron/sk/lex/Lexer.java:34-39 | example of WordKind: "var" lexes as a keyword |
| LexingProperties.TrueAndFalseAreBooleans | src/main/java/com/zytekaron/sk/lex/Lexer.java:40 | example of WordKind: "true" and "false" lex as booleans, not keywords |
| LexingProperties.ScanPlainString | src/main/java/com/zytekaron/sk/lex/Lexer.java:264-297 | without backslashes, the string scan collects everything up to the next quote or the end of the input |
| LexingProperties.PlainStringToken | src/main/java/com/zytekaron/sk/lex/Lexer.java:257-302 | a string without escapes yields its text between the quotes (an unclosed string runs to the end of the input without an error), and the closing quote is consumed |
| LexingProperties.StringEscapes | src/main/java/com/zytekaron/sk/lex/Lexer.java:265-290 | \n, \t, \", \` and \' decode to one character; \u skips four characters and stands for "<?>"; any other escape, and a backslash at the end of the input, fail with the messages of the source |
| LexingProperties.BlanksSkipped | src/main/java/com/zytekaron/sk/lex/Lexer.java:71-73 | a tail of spaces and tabs adds nothing before EOF |
| LexingProperties.BlankInput | src/main/java/com/zytekaron/sk/lex/Lexer.java:60-173 | blank input lexes to the single EOF token at its end |
| LexingProperties.SkipCommentTo | src/main/java/com/zytekaron/sk/lex/Lexer.java:86-88 | the comment scan stops at the next newline or at the end of the input |
| LexingProperties.CommentStep | src/main/java/com/zytekaron/sk/lex/Lexer.java:82-89 | a "//" comment emits nothing and the scan resumes after the newline that ends it |
| LexingProperties.CommentSkipped | src/main/java/com/zytekaron/sk/lex/Lexer.java:82-89 | lexing from a "//" comment gives what lexing from just after its newline gives |
| LexingProperties.BlankSkipped | src/main/java/com/zytekaron/sk/lex/Lexer.java:71-73 | a space or tab emits nothing |
| LexingProperties.OperatorAtEndFails | src/main/java/com/zytekaron/sk/lex/Lexer.java:184-187 | an operator as the last character of the input fails with "Unexpected character 'null'" |
| LexingProperties.UnexpectedCharacter | src/main/java/com/zytekaron/sk/lex/Lexer.java:154-158 | a character no branch accepts fails with the "Unexpected character" error at its own position |
| LexingProperties.PercentAndNewlineUnexpected | src/main/java/com/zytekaron/sk/lex/Lexer.java:71-158 | '%' and a newline outside strings and comments are characters no branch accepts |
| Lexing.NumberSpec | src/main/java/com/zytekaron/sk/lex/Lexer.java:201-232 | a number token starts where the digits start and ends where the scan stopped, always carries its text, and is an Int, Long or Double; its text and kind are stated by LexingProperties.NumberToken |
| Lexing.IdentifierSpec | src/main/java/com/zytekaron/sk/lex/Lexer.java:234-255 | an identifier-shaped token starts at the word, ends where the scan stopped, carries the word, and is a keyword, a boolean or an identifier as WordKind of the word decides |
| Lexing.LexFrom | src/main/java/com/zytekaron/sk/lex/Lexer.java:67-172 | a successful scan keeps the tokens already collected, in order, at its front, adds at least one token and ends with EOF |
| Lexing.Lex | src/main/java/com/zytekaron/sk/lex/Lexer.java:60-173 | a successful `tokenize` gives a non-empty list that ends with EOF |
| Ast.Between | src/main/java/com/zytekaron/sk/parse/nodes/Node.java:42-45 | a node built from two positions spans exactly them |
| Ast.TokenNode | src/main/java/com/zytekaron/sk/parse/nodes/Node.java:52-55 | a node built from a token spans exactly that token |
| Ast.FromTokenTo | src/main/java/com/zytekaron/sk/parse/nodes/Node.java:57-60 | a node built from a token and a node starts at the token and ends where the node ends |
| Ast.SpanOf | src/main/java/com/zytekaron/sk/parse/nodes/Node.java:47-50 | a node built from another node copies its span |
| Ast.SetEnd | src/main/java/com/zytekaron/sk/parse/nodes/Node.java:62-64 | `setEnd` changes the end and nothing else |
| Ast.BinaryOperation | src/main/java/com/zytekaron/sk/parse/nodes/BinaryOperationNode.java:28-33 | a binary operation spans from its left operand's start to its right operand's end and keeps both operands and the operator |
| Ast.FunctionDefine | src/main/java/com/zytekaron/sk/parse/nodes/FunctionDefineNode.java:30-41 | a function definition starts at its name and ends at the name without parameters, else where the last parameter ends |
| Ast.FunctionParameter | src/main/java/com/zytekaron/sk/parse/nodes/FunctionParameterNode.java:29-34 | a parameter spans from its name to its default's end, and without a default it cannot be built at all |
| Ast.Scope | src/main/java/com/zytekaron/sk/parse/nodes/ScopeNode.java:29-33 | a scope never carries a span |
| Ast.ShowBinaryOperation | src/main/java/com/zytekaron/sk/parse/nodes/BinaryOperationNode.java:35-38 | the rendering is "BinOp(", the left operand, the operator and the right operand separated by spaces, then ")" |
| Ast.ShowParameter | src/main/java/com/zytekaron/sk/parse/nodes/FunctionParameterNode.java:36-40 | the rendering is "FnParam(", "..." for a spread, the name, " = " and the default when there is one, and ")", so its length is the sum of theirs, and it ends with ")" |
| Ast.ShowParameterOpens | src/main/java/com/zytekaron/sk/parse/nodes/FunctionParameterNode.java:36-40 | the rendering opens with "FnParam(..." for a spread, and otherwise with "FnParam(" followed by the name token |
| Ast.ShowParameterCloses | src/main/java/com/zytekaron/sk/parse/nodes/FunctionParameterNode.java:36-40 | with a default, the rendering ends with " = ", the default and ")" |
| ParseResults.WantedText | src/main/java/com/zytekaron/sk/parse/Parser.java:106 | each expected token has a name in the messages |
| ParseResults.Quoted | src/main/java/com/zytekaron/sk/parse/Parser.java:106 | a token in a message is its rendering between single quotes |
| ParseResults.Append | src/main/java/com/zytekaron/sk/parse/Parser.java:106 | a message is its fixed prefix followed by what was found |
| ParseResults.Message | src/main/java/com/zytekaron/sk/parse/Parser.java:72 | every parser message ends with the quoted token it complains about, except the `var` message, which ends with the token's kind (Parser.java:345) |
| ParseResults.MissingNamesWanted | src/main/java/com/zytekaron/sk/parse/Parser.java:106 | a message about a missing token names that token right after "Expected " |
| ParseResults.Report | src/main/java/com/zytekaron/sk/types/error/SkError.java:40-46 | a parse error is a ParsingError spanning the token it was raised on, with the complaint's message |
| ParseResults.ParseResult.Register | src/main/java/com/zytekaron/sk/struct/result/ParseResult.java:33-39 | registering adds the child's advancements and takes over the child's error only when the child failed |
| ParseResults.ParseResult.RegisterAdvancement | src/main/java/com/zytekaron/sk/struct/result/ParseResult.java:41-43 | counting a token adds one advancement and changes nothing else |
| ParseResults.ParseResult.SetSuccess | src/main/java/com/zytekaron/sk/struct/result/ParseResult.java:45-48 | `success(node)` records the node and keeps any error already present |
| ParseResults.ParseResult.Failure | src/main/java/com/zytekaron/sk/struct/result/ParseResult.java:50-56 | `failure(e)` installs the error when there is none yet or nothing was consumed, and otherwise keeps the earlier one |
| ParseResults.FailureIsSticky | src/main/java/com/zytekaron/sk/struct/result/ParseResult.java:29-56 | no operation of a ParseResult clears an error once it is there |
| ParseResults.RegisterCounts | src/main/java/com/zytekaron/sk/struct/result/ParseResult.java:33-39 | advancements of registered children add up, and the last failing child's error is the one kept |
| Grammar.Cur | src/main/java/com/zytekaron/sk/parse/Parser.java:46-54 | the current token is the one at the index, or the last one once the index has run past the end |
| Grammar.BeforeEnd | src/main/java/com/zytekaron/sk/parse/Parser.java:46-54 | on a token list ending in EOF, a current token that is not EOF has a successor |
| Grammar.LevelRank | src/main/java/com/zytekaron/sk/parse/Parser.java:505-533 | the suppliers of `binaryOperationNode` are ranked for termination |
| Grammar.Parse | src/main/java/com/zytekaron/sk/parse/Parser.java:56-68 | an empty program gives a null node without consuming anything; a successful parse gives a node and stops on EOF |
| Grammar.Statements | src/main/java/com/zytekaron/sk/parse/Parser.java:61-67 | the statement loop stops at the first failure or on EOF, and a success always has a node; which node it keeps is stated by GrammarProperties.StatementsKeepsLast |
| Grammar.Primary | src/main/java/com/zytekaron/sk/parse/Parser.java:70-115 | a statement fails at EOF without consuming anything; a successful one consumes at least one token and ends with ';' |
| Grammar.Statement | src/main/java/com/zytekaron/sk/parse/Parser.java:79-103 | each statement form moves forward and a successful one consumes at least one token |
| Grammar.DefineVariable | src/main/java/com/zytekaron/sk/parse/Parser.java:340-367 | `defineVariable` moves forward and a successful one consumes at least one token; the node it builds is stated by GrammarProperties.DefineVariableCases |
| Grammar.DefineFunction | src/main/java/com/zytekaron/sk/parse/Parser.java:369-423 | `defineFunction` moves forward and a successful one consumes at least one token |
| Grammar.FunctionBody | src/main/java/com/zytekaron/sk/parse/Parser.java:409-422 | the end of a function definition moves forward and a successful one consumes at least one token |
| Grammar.ParameterList | src/main/java/com/zytekaron/sk/parse/Parser.java:387-407 | the parameter list never moves the cursor back, and stops on a real token when it succeeds |
| Grammar.Parameters | src/main/java/com/zytekaron/sk/parse/Parser.java:388-400 | the parameter loop never moves the cursor back, and stops on a real token when it succeeds |
| Grammar.ParametersStep | src/main/java/com/zytekaron/sk/parse/Parser.java:389-399 | one turn of the parameter loop: a parameter parsed is appended and the loop goes on; a failure ends it with that error |
| Grammar.ParametersStop | src/main/java/com/zytekaron/sk/parse/Parser.java:388-392 | the parameter loop stops on ')' where it stands or right after it |
| Grammar.Parameter | src/main/java/com/zytekaron/sk/parse/Parser.java:425-458 | `functionParameter` moves forward and a successful one consumes at least one token |
| Grammar.NamedParameter | src/main/java/com/zytekaron/sk/parse/Parser.java:434-458 | the rest of a parameter after '...' moves forward and a successful one consumes at least one token |
| Grammar.ParameterDefault | src/main/java/com/zytekaron/sk/parse/Parser.java:443-457 | the default value part never moves the cursor back |
| Grammar.Scope | src/main/java/com/zytekaron/sk/parse/Parser.java:460-473 | `scope` moves forward and a successful one consumes at least one token |
| Grammar.StrictScope | src/main/java/com/zytekaron/sk/parse/Parser.java:475-503 | `strictScope` moves forward and a successful one consumes at least one token |
| Grammar.ScopeRest | src/main/java/com/zytekaron/sk/parse/Parser.java:484-502 | the rest of a braced scope never moves the cursor back and stops on a real token when it succeeds |
| Grammar.ScopeBody | src/main/java/com/zytekaron/sk/parse/Parser.java:485-493 | the statement loop of a scope never moves the cursor back |
| Grammar.ScopeBodyStep | src/main/java/com/zytekaron/sk/parse/Parser.java:486-492 | one turn of the statement loop: a statement parsed is appended, a failure ends the loop with that error |
| Grammar.Expression | src/main/java/com/zytekaron/sk/parse/Parser.java:117-133 | `expression` fails at EOF without consuming anything; otherwise it moves forward and a success consumes at least one token; the tree it builds is stated by GrammarProperties.ExpressionShape |
| Grammar.CompExpr | src/main/java/com/zytekaron/sk/parse/Parser.java:135-154 | `compExpr` fails at EOF without consuming, and a success consumes at least one token; the tree it builds is stated by GrammarProperties.CompExprShape |
| Grammar.Arithmetic | src/main/java/com/zytekaron/sk/parse/Parser.java:156-158 | `arithmetic` fails at EOF without consuming, and a success consumes at least one token; the tree it builds is stated by GrammarProperties.ArithmeticShape |
| Grammar.Term | src/main/java/com/zytekaron/sk/parse/Parser.java:160-162 | `term` fails at EOF without consuming, and a success consumes at least one token; the tree it builds is stated by GrammarProperties.TermShape |
| Grammar.Factor | src/main/java/com/zytekaron/sk/parse/Parser.java:164-185 | `factor` fails at EOF without consuming, and a success consumes at least one token; the tree it builds is stated by GrammarProperties.FactorShape |
| Grammar.Power | src/main/java/com/zytekaron/sk/parse/Parser.java:187-189 | `power` fails at EOF without consuming, and a success consumes at least one token; the tree it builds is stated by GrammarProperties.PowerShape |
| Grammar.Operand | src/main/java/com/zytekaron/sk/parse/Parser.java:505-512 | every supplier fails at EOF without consuming, and a success consumes at least one token |
| Grammar.Binary | src/main/java/com/zytekaron/sk/parse/Parser.java:509-533 | `binaryOperationNode` fails at EOF without consuming, and a success consumes at least one token; the tree it builds is stated by GrammarProperties.BinaryChain |
| Grammar.BinaryRest | src/main/java/com/zytekaron/sk/parse/Parser.java:518-532 | the operator loop never moves the cursor back and stops on a real token when it succeeds |
| Grammar.BinaryRestStep | src/main/java/com/zytekaron/sk/parse/Parser.java:518-530 | one turn of the operator loop makes the tree so far the left operand of a new operation node |
| Grammar.BinaryRestStop | src/main/java/com/zytekaron/sk/parse/Parser.java:518 | the operator loop stops on a token that is not one of its operators, with the tree built so far |
| Grammar.Atom | src/main/java/com/zytekaron/sk/parse/Parser.java:191-302 | `atom` fails at EOF without consuming, and a success consumes at least one token |
| Grammar.Parenthesized | src/main/java/com/zytekaron/sk/parse/Parser.java:274-290 | a parenthesised expression moves forward and a success consumes at least one token |
| Grammar.IdentifierForms | src/main/java/com/zytekaron/sk/parse/Parser.java:210-273 | the identifier forms move forward and a success consumes at least one token; the tree it builds is stated by GrammarProperties.IdentifierFormsDispatch |
| Grammar.Reassignment | src/main/java/com/zytekaron/sk/parse/Parser.java:214-225 | a reassignment moves forward and a success consumes at least one token |
| Grammar.ElementAccess | src/main/java/com/zytekaron/sk/parse/Parser.java:227-242 | an element access moves forward and a success consumes at least one token |
| Grammar.Call | src/main/java/com/zytekaron/sk/parse/Parser.java:244-269 | a call moves forward and a success consumes at least one token |
| Grammar.Arguments | src/main/java/com/zytekaron/sk/parse/Parser.java:247-259 | the argument and element loops never move the cursor back and stop on a real token when they succeed |
| Grammar.ArgumentsStep | src/main/java/com/zytekaron/sk/parse/Parser.java:248-258 | one turn of the argument loop: an expression parsed is appended, a failure ends the loop with that error |
| Grammar.ArrayLiteral | src/main/java/com/zytekaron/sk/parse/Parser.java:304-338 | `arrayLiteral` fails at EOF without consuming, and a success consumes at least one token |
| Grammar.ArrayElements | src/main/java/com/zytekaron/sk/parse/Parser.java:311-337 | the rest of an array literal moves forward and a success consumes at least one token |
| Pipeline.LexedTokensNeverDefineFunctions | src/main/java/com/zytekaron/sk/parse/Parser.java:79-80 | what the lexer produces is a token list the parser accepts, on which `isCurrentTokenKeyword` never throws and never sees "fn", so `defineFunction` is unreachable from source text |
| GrammarProperties.AllStatements | src/main/java/com/zytekaron/sk/parse/Parser.java:60-67 | the list of every statement a program's loop parses: each one that succeeds is kept, a failure ends the list with that error, and a successful list is non-empty and stops on EOF |
| GrammarProperties.StatementsKeepsLast | src/main/java/com/zytekaron/sk/parse/Parser.java:60-67 | the statement loop stops where the full list stops and fails exactly when it fails, with the same error; on success its node is the last statement parsed, the earlier ones being discarded |
| GrammarProperties.LeftChainExtends | src/main/java/com/zytekaron/sk/parse/Parser.java:518-530 | a left chain over a left chain over a base is a left chain over that base |
| GrammarProperties.BinaryRestChain | src/main/java/com/zytekaron/sk/parse/Parser.java:518-532 | the operator loop builds a left-nested chain: each new node has one of the loop's operators, the tree so far on its left and a value of the right-hand supplier on its right; it stops only on a token that is not one of its operators |
| GrammarProperties.BinaryChain | src/main/java/com/zytekaron/sk/parse/Parser.java:509-533 | `binaryOperationNode` gives a left-nested chain over the first supplier's result and stops on a token that is not one of its operators |
| GrammarProperties.ExpressionShape | src/main/java/com/zytekaron/sk/parse/Parser.java:117-133 | AND and OR bind loosest and associate to the left: an expression is a left chain of them over comparison expressions |
| GrammarProperties.CompExprShape | src/main/java/com/zytekaron/sk/parse/Parser.java:135-154 | after NOT, a comparison expression is NOT applied to the comparison expression that follows; otherwise it is a left chain of the comparison operators over arithmetic expressions |
| GrammarProperties.ArithmeticShape | src/main/java/com/zytekaron/sk/parse/Parser.java:156-158 | PLUS and MINUS associate to the left: an arithmetic expression is a left chain of them over terms |
| GrammarProperties.TermShape | src/main/java/com/zytekaron/sk/parse/Parser.java:160-162 | MULTIPLY, DIVIDE and MODULO associate to the left: a term is a left chain of them over factors |
| GrammarProperties.FactorShape | src/main/java/com/zytekaron/sk/parse/Parser.java:164-185 | a factor starting with PLUS, MINUS or NOT is that operator applied to the factor after it; any other factor is a power |
| GrammarProperties.FactorStopsOffPower | src/main/java/com/zytekaron/sk/parse/Parser.java:164-189 | a factor never stops on POWER |
| GrammarProperties.PowerRestOnce | src/main/java/com/zytekaron/sk/parse/Parser.java:187-189 | inside `power` the operator loop turns once: the factor on the right of POWER has already taken every further POWER |
| GrammarProperties.PowerShape | src/main/java/com/zytekaron/sk/parse/Parser.java:187-189 | a power is its atom alone when no POWER follows the atom; otherwise it is exactly one node with the atom on its left and the factor after POWER on its right, so POWER nests to the right |
| GrammarProperties.IdentifierFormsDispatch | src/main/java/com/zytekaron/sk/parse/Parser.java:210-272 | after an identifier, '=' gives a reassignment of that name to the expression that follows; a token other than '=', '[' and '(' gives a plain access of the name, one token long |
| GrammarProperties.IdentifierFormsCall | src/main/java/com/zytekaron/sk/parse/Parser.java:244-269 | after an identifier, '(' gives a call of that name with the arguments parsed up to ')', which is consumed |
| GrammarProperties.IdentifierFormsElement | src/main/java/com/zytekaron/sk/parse/Parser.java:227-242 | after an identifier, '[' gives an element access of that name whose element is exactly the expression parsed from the '[' on (so an array literal), and which ends one past the ']' that must follow it; a failing element fails with its own error, a missing ']' fails on the token found |
| GrammarProperties.DefineVariableCases | src/main/java/com/zytekaron/sk/parse/Parser.java:340-366 | `var` followed by anything but an identifier fails on that token with the "Expected identifier" message; `var NAME` declares NAME without an initial value, two tokens on; `var NAME = e` assigns the expression that follows, and fails exactly when it fails |
| Parsing.Parser.constructor | src/main/java/com/zytekaron/sk/parse/Parser.java:41-44 | a new parser stands on the first token |
| Parsing.Parser.Advance | src/main/java/com/zytekaron/sk/parse/Parser.java:46-54 | `advance` counts one token on the result and moves one place on; past the end the current token stays the last one |
| Parsing.Parser.Parse | src/main/java/com/zytekaron/sk/parse/Parser.java:56-68 | `parse` reports exactly the outcome of Grammar.Parse and leaves the cursor where it says |
| Parsing.Parser.PrimaryExpression | src/main/java/com/zytekaron/sk/parse/Parser.java:70-115 | reports the outcome of Grammar.Primary, and the result counts exactly the tokens the cursor passed |
| Parsing.Parser.Statement | src/main/java/com/zytekaron/sk/parse/Parser.java:79-103 | reports the outcome of Grammar.Statement and counts exactly the tokens passed |
| Parsing.Parser.Expression | src/main/java/com/zytekaron/sk/parse/Parser.java:117-133 | reports the outcome of Grammar.Expression and counts exactly the tokens passed |
| Parsing.Parser.CompExpr | src/main/java/com/zytekaron/sk/parse/Parser.java:135-154 | reports the outcome of Grammar.CompExpr and counts exactly the tokens passed |
| Parsing.Parser.Arithmetic | src/main/java/com/zytekaron/sk/parse/Parser.java:156-158 | reports the outcome of Grammar.Arithmetic and counts exactly the tokens passed |
| Parsing.Parser.Term | src/main/java/com/zytekaron/sk/parse/Parser.java:160-162 | reports the outcome of Grammar.Term and counts exactly the tokens passed |
| Parsing.Parser.Factor | src/main/java/com/zytekaron/sk/parse/Parser.java:164-185 | reports the outcome of Grammar.Factor and counts exactly the tokens passed |
| Parsing.Parser.Power | src/main/java/com/zytekaron/sk/parse/Parser.java:187-189 | reports the outcome of Grammar.Power and counts exactly the tokens passed |
| Parsing.Parser.Operand | src/main/java/com/zytekaron/sk/parse/Parser.java:512 | a supplier call reports the outcome of the rule it stands for |
| Parsing.Parser.Binary | src/main/java/com/zytekaron/sk/parse/Parser.java:509-533 | `binaryOperationNode` reports the outcome of Grammar.Binary and counts exactly the tokens passed |
| Parsing.Parser.BinaryLoop | src/main/java/com/zytekaron/sk/parse/Parser.java:518-532 | the operator loop reports the outcome of Grammar.BinaryRest, counting on from the result it was given |
| Parsing.Parser.BinaryTurn | src/main/java/com/zytekaron/sk/parse/Parser.java:519-529 | one turn of the operator loop advances, and either leaves a tree from which the loop gives the same outcome or reports the loop's failure |
| Parsing.Parser.Atom | src/main/java/com/zytekaron/sk/parse/Parser.java:191-302 | reports the outcome of Grammar.Atom and counts exactly the tokens passed |
| Parsing.Parser.Parenthesized | src/main/java/com/zytekaron/sk/parse/Parser.java:274-290 | reports the outcome of Grammar.Parenthesized and counts exactly the tokens passed |
| Parsing.Parser.IdentifierForms | src/main/java/com/zytekaron/sk/parse/Parser.java:210-273 | reports the outcome of Grammar.IdentifierForms and counts exactly the tokens passed |
| Parsing.Parser.Reassignment | src/main/java/com/zytekaron/sk/parse/Parser.java:214-225 | reports the outcome of Grammar.Reassignment, counting on from the result it was given |
| Parsing.Parser.ElementAccess | src/main/java/com/zytekaron/sk/parse/Parser.java:227-242 | reports the outcome of Grammar.ElementAccess, counting on from the result it was given |
| Parsing.Parser.Call | src/main/java/com/zytekaron/sk/parse/Parser.java:244-269 | reports the outcome of Grammar.Call, counting on from the result it was given |
| Parsing.Parser.ArrayLiteral | src/main/java/com/zytekaron/sk/parse/Parser.java:304-338 | reports the outcome of Grammar.ArrayLiteral and counts exactly the tokens passed |
| Parsing.Parser.ArrayElements | src/main/java/com/zytekaron/sk/parse/Parser.java:311-337 | reports the outcome of Grammar.ArrayElements and counts exactly the tokens passed |
| Parsing.Parser.Elements | src/main/java/com/zytekaron/sk/parse/Parser.java:315-327 | the element loop collects the nodes Grammar.Arguments gives, or its error, counting exactly the tokens passed |
| Parsing.Parser.DefineVariable | src/main/java/com/zytekaron/sk/parse/Parser.java:340-367 | reports the outcome of Grammar.DefineVariable and counts exactly the tokens passed |
| Parsing.Parser.DefineFunction | src/main/java/com/zytekaron/sk/parse/Parser.java:369-423 | reports the outcome of Grammar.DefineFunction and counts exactly the tokens passed |
| Parsing.Parser.FunctionBody | src/main/java/com/zytekaron/sk/parse/Parser.java:409-422 | reports the outcome of Grammar.FunctionBody, counting on from the result it was given |
| Parsing.Parser.ParameterList | src/main/java/com/zytekaron/sk/parse/Parser.java:387-407 | collects the parameters Grammar.ParameterList gives, or its error, counting exactly the tokens passed |
| Parsing.Parser.ParameterLoop | src/main/java/com/zytekaron/sk/parse/Parser.java:388-400 | the parameter loop collects what Grammar.Parameters gives, counting exactly the tokens passed |
| Parsing.Parser.FunctionParameter | src/main/java/com/zytekaron/sk/parse/Parser.java:425-458 | reports the outcome of Grammar.Parameter and counts exactly the tokens passed |
| Parsing.Parser.NamedParameter | src/main/java/com/zytekaron/sk/parse/Parser.java:434-458 | reports the outcome of Grammar.NamedParameter, counting on from the result it was given |
| Parsing.Parser.ParameterDefault | src/main/java/com/zytekaron/sk/parse/Parser.java:443-457 | reports the outcome of Grammar.ParameterDefault, counting on from the result it was given |
| Parsing.Parser.Scope | src/main/java/com/zytekaron/sk/parse/Parser.java:460-473 | reports the outcome of Grammar.Scope and counts exactly the tokens passed |
| Parsing.Parser.StrictScope | src/main/java/com/zytekaron/sk/parse/Parser.java:475-503 | reports the outcome of Grammar.StrictScope and counts exactly the tokens passed |
| Parsing.Parser.ScopeRest | src/main/java/com/zytekaron/sk/parse/Parser.java:484-502 | reports the outcome of Grammar.ScopeRest, counting on from the result it was given |
| Parsing.Parser.ScopeStatements | src/main/java/com/zytekaron/sk/parse/Parser.java:485-493 | the statement loop collects what Grammar.ScopeBody gives, counting exactly the tokens passed |
| Parsing.TurnOutcome | src/main/java/com/zytekaron/sk/parse/Parser.java:519-529 | one turn of the operator loop, seen from its right operand: a right operand that parses makes a new node with the tree so far on the left and lets the loop go on from there; a failing one ends the loop with its error |
| JavaInt.Wrap32 | src/main/java/com/zytekaron/sk/types/SkInt.java:88-114 | an `int` result is the exact one when it fits and otherwise the 32-bit value congruent to it modulo 2^32 |
| JavaInt.Wrap64 | src/main/java/com/zytekaron/sk/types/SkInt.java:92-94 | a `long` result is the exact one when it fits and otherwise the 64-bit value congruent to it modulo 2^64 |
| JavaInt.QuotRem | src/main/java/com/zytekaron/sk/types/SkInt.java:124-138 | Java's truncating `/` and `%`: quotient times divisor plus remainder is the dividend, the remainder is smaller than the divisor and has the dividend's sign |
| JavaInt.QuotOverflow | src/main/java/com/zytekaron/sk/types/SkInt.java:124-126 | the only `int` quotient that leaves the `int` range is the least `int` divided by -1 |
| JavaInt.Digits | src/main/java/com/zytekaron/sk/types/SkInt.java:162-165 | the digits of a number: non-empty, decimal, no leading zero, more than one exactly from 10 on |
| JavaInt.DecimalText | src/main/java/com/zytekaron/sk/types/SkInt.java:162-165 | `Integer.toString` is never empty |
| JavaInt.ParseDecimal | src/main/java/com/zytekaron/sk/types/SkNumber.java:55-70 | `parseInt`/`parseLong` accept only numbers within the type's bounds |
| JavaInt.ParseInt | src/main/java/com/zytekaron/sk/struct/TypeConverter.java:43-46 | `Integer.parseInt` gives only values of `int` |
| JavaInt.ParseLong | src/main/java/com/zytekaron/sk/types/SkNumber.java:61-63 | `Long.parseLong` gives only values of `long` |
| JavaInt.DigitsRoundTrip | src/main/java/com/zytekaron/sk/types/SkInt.java:162-165 | the digits of `n` denote `n` |
| JavaInt.CanonicalDigits | src/main/java/com/zytekaron/sk/types/SkInt.java:162-165 | a digit string without a leading zero is the rendering of the number it denotes |
| JavaInt.ParseRendering | src/main/java/com/zytekaron/sk/types/SkNumber.java:55-70 | parsing the rendering of any number within the bounds gives it back |
| JavaInt.IntRoundTrip | src/main/java/com/zytekaron/sk/struct/TypeConverter.java:43-46 | `Integer.parseInt(Integer.toString(x)) == x` for every `int` |
| JavaInt.RenderingOfParse | src/main/java/com/zytekaron/sk/types/SkNumber.java:55-70 | a canonical decimal within the bounds parses to a number that renders as the same text |
| Values.Entries | src/main/java/com/zytekaron/sk/types/object/SkString.java:28-34 | exactly strings, arrays, functions and objects are SkObjects, and all but objects have an empty entry map |
| Values.CompareEntries | src/main/java/com/zytekaron/sk/types/SkObject.java:43-50 | an object compares 0 only against an SkObject whose entry map equals its own |
| Values.EqualTo | src/main/java/com/zytekaron/sk/types/SkValue.java:34-36 | `equalTo` is true exactly when `compare` gives 0 |
| Values.LessThan | src/main/java/com/zytekaron/sk/types/SkValue.java:38-40 | `lessThan` is true exactly when `compare` is negative |
| Values.GreaterThan | src/main/java/com/zytekaron/sk/types/SkValue.java:42-44 | `greaterThan` is true exactly when `compare` is positive |
| Values.ComparisonsAreZeroOrOne | src/main/java/com/zytekaron/sk/types/SkValue.java:34-44 | every modelled `compare` is 0 or 1, so `lessThan` is never true and `greaterThan` negates `equalTo` |
| Values.NullEqualsOnlyNull | src/main/java/com/zytekaron/sk/types/SkNull.java:30-33 | null equals exactly another SkNull |
| Values.ScalarsEqualEverything | src/main/java/com/zytekaron/sk/types/SkInt.java:48-51 | ints, doubles, booleans, characters, strings and errors compare 0 against every value |
| Values.EqualityIsNotSymmetric | src/main/java/com/zytekaron/sk/types/SkNull.java:30-33 | an int equals null, but null does not equal an int |
| Values.EmptyObjectsAreEqual | src/main/java/com/zytekaron/sk/types/SkObject.java:43-50 | any two SkObjects with empty maps (strings, arrays, functions, empty objects) are equal |
| Values.ObjectsEqualOnlyObjects | src/main/java/com/zytekaron/sk/types/SkObject.java:43-50 | an SkObject is never equal to null or to a value that is not an SkObject |
| Values.SharedTypeTags | src/main/java/com/zytekaron/sk/types/SkChar.java:25-28 | strings, arrays and plain objects carry the tag "Object"; characters carry "Int" like ints |
| Values.ShowArray | src/main/java/com/zytekaron/sk/types/object/SkArray.java:19-22 | an array whose elements render has a rendering: "[]" when empty, "[null]" for one null element |
| Conversions.NullInto | src/main/java/com/zytekaron/sk/types/SkNull.java:25-28 | every conversion of null throws |
| Conversions.IntInto | src/main/java/com/zytekaron/sk/types/SkInt.java:31-46 | an int converts into string, int, long, double and boolean (`value != 0`), and throws "Class conversion not defined" for any other class |
| Conversions.BoolInto | src/main/java/com/zytekaron/sk/types/SkBool.java:27-42 | a boolean converts into string, int, long, double and boolean, and throws for any other class |
| Conversions.PrimitiveBoolInto | src/main/java/com/zytekaron/sk/types/primitive/SkBool.java:26-47 | the converter map never throws and gives a value exactly for int, long, double, boolean and char |
| Conversions.CharInto | src/main/java/com/zytekaron/sk/types/SkChar.java:30-47 | a character converts into each of the six listed classes and throws for any other |
| Conversions.PrimitiveCharInto | src/main/java/com/zytekaron/sk/types/primitive/SkChar.java:28-49 | the converter map never throws and gives a value exactly for the five classes it lists |
| Conversions.DoubleInto | src/main/java/com/zytekaron/sk/types/SkDouble.java:31-46 | a double converts into a copy of itself and throws for char and unlisted classes |
| Conversions.ParseBoolean | src/main/java/com/zytekaron/sk/types/SkBool.java:49-52 | `fromString` is true exactly for "true" in any letter case |
| Conversions.StringToInt | src/main/java/com/zytekaron/sk/struct/TypeConverter.java:43-46 | `stringToInt` succeeds exactly on the ASCII decimal text `Integer.parseInt` accepts (an optional sign, digits, a value within `int`), with that value, and otherwise throws NumberFormatException |
| Conversions.StringInto | src/main/java/com/zytekaron/sk/types/object/SkString.java:36-49 | a string converts into itself, into an int by `stringToInt`, into a boolean by `fromString`, and throws for long, char and unlisted classes |
| Conversions.Into | src/main/java/com/zytekaron/sk/types/SkObject.java:52-55 | converting a Java null throws NullPointerException; SkObjects other than strings and errors convert into null |
| Conversions.IntoBool | src/main/java/com/zytekaron/sk/types/SkBool.java:54-68 | the operand of `and`/`or` is a boolean's own value, and a Java null throws |
| Conversions.And | src/main/java/com/zytekaron/sk/types/SkBool.java:54-60 | `and` succeeds exactly when the operand converts, and is the conjunction |
| Conversions.Or | src/main/java/com/zytekaron/sk/types/SkBool.java:62-68 | `or` succeeds exactly when the operand converts, and is the disjunction |
| Conversions.Not | src/main/java/com/zytekaron/sk/types/SkBool.java:80-82 | `not` is the other boolean |
| Conversions.ToSkString | src/main/java/com/zytekaron/sk/struct/TypeConverter.java:30-36 | null becomes "null"; any other value becomes a string exactly when it has a rendering |
| Conversions.FalseLike | src/main/java/com/zytekaron/sk/struct/TypeConverter.java:65-77 | `valueToBool` is false exactly for the int 0, a zero double and the empty string |
| Conversions.IntoBoolIsTruthiness | src/main/java/com/zytekaron/sk/struct/TypeConverter.java:65-77 | for ints and booleans, converting into a boolean agrees with `valueToBool` |
| Conversions.StringTruthinessDiffers | src/main/java/com/zytekaron/sk/types/object/SkString.java:45-46 | for strings it does not: "false" converts to false but is true-like |
| Conversions.IntoStringIsShow | src/main/java/com/zytekaron/sk/types/SkValue.java:46-48 | converting into a string gives the value's `toString` |
| Conversions.IntStringRoundTrip | src/main/java/com/zytekaron/sk/types/object/SkString.java:41-42 | an int converted into a string converts back into the same int |
| Conversions.BoolStringRoundTrip | src/main/java/com/zytekaron/sk/types/SkBool.java:29-31 | a boolean converted into a string converts back into the same boolean |
| Conversions.BoolTablesDiffer | src/main/java/com/zytekaron/sk/types/primitive/SkBool.java:26-32 | the two boolean tables disagree on long, string and char |
| Conversions.CharTablesAgreeAndDiffer | src/main/java/com/zytekaron/sk/types/primitive/SkChar.java:28-34 | the two character tables agree on int, double, boolean and char and disagree on long and string |
| Conversions.AndOrAlwaysConvert | src/main/java/com/zytekaron/sk/types/SkBool.java:54-68 | `and`/`or` convert the operand even when the result is decided: null, SkNull and SkObject operands throw |
| Arithmetic.MathOperand | src/main/java/com/zytekaron/sk/struct/Utils.java:28-45 | `Utils.math` selects an overload exactly for number operands, the one matching the operand's kind and value |
| Arithmetic.IntWithInt | src/main/java/com/zytekaron/sk/types/SkInt.java:88-150 | int with int gives an int, throws ArithmeticException exactly for `/` and `%` by zero, and leaves `**` to `Math.pow` |
| Arithmetic.RemainderFits | src/main/java/com/zytekaron/sk/types/SkInt.java:136-138 | the remainder of two ints is an int |
| Arithmetic.IntWithLong | src/main/java/com/zytekaron/sk/types/SkInt.java:92-154 | int with long gives a long, throws exactly for `/` and `%` by zero |
| Arithmetic.LongRemainderFits | src/main/java/com/zytekaron/sk/types/SkInt.java:140-142 | the remainder of an int by a long is a long |
| Arithmetic.IntOp | src/main/java/com/zytekaron/sk/types/SkInt.java:53-84 | `+` with a string concatenates the int's text; otherwise the operand's kind picks the overload, and null results exactly for operands of no number kind |
| Arithmetic.NumberOp | src/main/java/com/zytekaron/sk/types/SkNumber.java:30-40 | a number's operation is the int one for ints |
| Arithmetic.StringAdd | src/main/java/com/zytekaron/sk/types/object/SkString.java:56-58 | string `+` is the string followed by the operand's rendering; a Java null throws |
| Arithmetic.StringMultiply | src/main/java/com/zytekaron/sk/types/object/SkString.java:60-72 | string `*` by an int throws IllegalArgumentException for a negative count, throws OutOfMemoryError when the result would pass `String.repeat`'s size limit of 2^31-1 stored bytes (one per character for Latin-1 text, two per UTF-16 code unit otherwise), repeats the string otherwise, and gives null for operands of other kinds |
| Arithmetic.DotIndex | src/main/java/com/zytekaron/sk/types/SkNumber.java:43 | the first '.' of the text, if any |
| Arithmetic.ParseDouble | src/main/java/com/zytekaron/sk/types/SkNumber.java:64-66 | a decimal literal reads as the double it denotes |
| Arithmetic.FromToken | src/main/java/com/zytekaron/sk/types/SkNumber.java:55-70 | INT and LONG tokens read exactly when their text parses, other non-number tokens give null, and rejected text throws NumberFormatException |
| Arithmetic.FromString | src/main/java/com/zytekaron/sk/types/SkNumber.java:42-53 | text with '.' reads as a double, without 'L' as an int when it parses; a failure throws NumberFormatException |
| Arithmetic.IntArithmeticWraps | src/main/java/com/zytekaron/sk/types/SkInt.java:88-114 | int `+`, `-`, `*` are exact when the result fits and congruent modulo 2^32 always |
| Arithmetic.DivisionOverflow | src/main/java/com/zytekaron/sk/types/SkInt.java:124-138 | the least int divided by -1 wraps to itself, with remainder 0 |
| Arithmetic.DivisionIsTruncating | src/main/java/com/zytekaron/sk/types/SkInt.java:124-126 | every other int division is exact truncating division |
| Arithmetic.DivisionIdentity | src/main/java/com/zytekaron/sk/types/SkInt.java:124-138 | `(a / b) * b + a % b == a` in 32-bit arithmetic for every non-zero divisor |
| Arithmetic.RemainderSign | src/main/java/com/zytekaron/sk/types/SkInt.java:136-138 | the remainder has the dividend's sign and is smaller than the divisor |
| Arithmetic.IntLongWidens | src/main/java/com/zytekaron/sk/types/SkInt.java:92-94 | int plus long is the exact long sum when it fits |
| Arithmetic.IntConcatenation | src/main/java/com/zytekaron/sk/types/SkInt.java:54-57 | int plus string is the int's text, which reads back as the int, followed by the string |
| Arithmetic.IntWithNonNumber | src/main/java/com/zytekaron/sk/struct/Utils.java:28-45 | an int with an operand of no number kind (a string aside for `+`) gives null |
| Arithmetic.RepeatContents | src/main/java/com/zytekaron/sk/types/object/SkString.java:78-80 | `repeat(n)` has `n` times the length, starts with the string and has period its length |
| Arithmetic.RepeatAdds | src/main/java/com/zytekaron/sk/types/object/SkString.java:78-80 | repeating `m` then `n` times is repeating `m + n` times |
| Arithmetic.StringMultiplyRepeats | src/main/java/com/zytekaron/sk/types/object/SkString.java:60-65 | a string times `n >= 0` throws OutOfMemoryError exactly when the repetition passes the size limit of 2^31-1 stored bytes, counted in UTF-16 code units for text beyond Latin-1, and is otherwise `n` copies of it |
| Arithmetic.StringAddStrings | src/main/java/com/zytekaron/sk/types/object/SkString.java:56-58 | a string plus a string is their concatenation |
| Arithmetic.IntTokenRoundTrip | src/main/java/com/zytekaron/sk/types/SkNumber.java:58-60 | a canonical INT token reads as an int that renders as the token's text |
| Arithmetic.LongTokenRoundTrip | src/main/java/com/zytekaron/sk/types/SkNumber.java:61-63 | the same for LONG tokens |
| Arithmetic.IntRenderingReadsBack | src/main/java/com/zytekaron/sk/types/SkNumber.java:58-60 | an int's text as an INT token reads back as the int |
| Arithmetic.LongSuffixAlwaysFails | src/main/java/com/zytekaron/sk/types/SkNumber.java:46-48 | `fromString` of text ending in 'L' without '.' always throws, since `parseLong` rejects the suffix |
| Arithmetic.FromStringReadsInts | src/main/java/com/zytekaron/sk/types/SkNumber.java:49-52 | `fromString` reads an int's text back as the int |
| Values.TypeName | src/main/java/com/zytekaron/sk/types/SkObject.java:26 | the type tag: an instance of a class is tagged with the class's name; strings, arrays and functions are "Object"; every other value has one of the fixed tags null, Int, Long, Double, Boolean, Object and Error |
| Values.Compare | src/main/java/com/zytekaron/sk/types/SkObject.java:44-50 | `compare` gives only 0 or 1; ints, doubles, booleans, chars, strings and errors give 0 against anything; it is undecided only for a long, or for two objects whose entry maps are equal |
| Conversions.ValueToBool | src/main/java/com/zytekaron/sk/struct/TypeConverter.java:65-77 | only an int, a double or a string can be false-like; a string is true-like exactly when it is non-empty, an int exactly when it is not 0 |
| JavaInt.Quot | src/main/java/com/zytekaron/sk/types/SkInt.java:124-126 | Java's `/` truncates toward zero: the quotient times the divisor is at most the dividend in magnitude and within one divisor of it, and a non-zero quotient is negative exactly when the signs differ |
| JavaInt.Rem | src/main/java/com/zytekaron/sk/types/SkInt.java:136-138 | Java's `%`: the remainder is smaller than the divisor in magnitude and a non-zero remainder has the dividend's sign |
| Arithmetic.RepeatedFits | src/main/java/com/zytekaron/sk/types/object/SkString.java:60-64 | a repetition that does not throw gives a string of at most 2^31-1 characters |
| Arithmetic.OverlongRepeatThrows | src/main/java/com/zytekaron/sk/types/object/SkString.java:60-64 | repeating a string of two or more characters into more than 2^31-1 characters throws OutOfMemoryError |
| Arithmetic.RepeatTooLong | src/main/java/com/zytekaron/sk/types/object/SkString.java:60-64 | example of OverlongRepeatThrows: "ab" times 1500000000 throws OutOfMemoryError |
| Arithmetic.SurrogatePairRepeatThrows | src/main/java/com/zytekaron/sk/types/object/SkString.java:60-64 | a character past U+FFFF is four stored bytes, so six hundred million copies of it throw OutOfMemoryError though they are fewer than 2^31-1 characters |
| Arithmetic.Utf16Units | src/main/java/com/zytekaron/sk/types/object/SkString.java:60-64 | a string has at least one and at most two UTF-16 code units per character |
| Objects.ComputeIfAbsent | src/main/java/com/zytekaron/sk/types/SkObject.java:31-41 | `computeIfAbsent` keeps a present non-null value, inserts a computed non-null value, and leaves the map alone when the computed value is null |
| Objects.SkClass.Unnamed | src/main/java/com/zytekaron/sk/types/SkClass.java:31-33 | a class with no parent, named "UnnamedClass", with no methods |
| Objects.SkClass.constructor | src/main/java/com/zytekaron/sk/types/SkClass.java:47-50 | a class with the given parent and name and no methods |
| Objects.SkClass.GetMethod | src/main/java/com/zytekaron/sk/types/SkClass.java:39-41 | a name the class does not have gives null |
| Objects.SkClass.AddMethod | src/main/java/com/zytekaron/sk/types/SkClass.java:43-45 | binds the name, replacing what it had, and changes no other method |
| Objects.SkObject.constructor | src/main/java/com/zytekaron/sk/types/SkObject.java:25-29 | the object has the given class and entry map |
| Objects.SkObject.Snapshot | src/main/java/com/zytekaron/sk/types/SkObject.java:25-29 | the object as a value carries its entry map |
| Objects.SkObject.TypeName | src/main/java/com/zytekaron/sk/types/SkObject.java:26 | the tag is "Object" without a class and the class's name otherwise |
| Objects.SkObject.Get | src/main/java/com/zytekaron/sk/types/SkObject.java:31-33 | `get` is `computeIfAbsent` with a new SkNull |
| Objects.SkObject.Put | src/main/java/com/zytekaron/sk/types/SkObject.java:35-37 | `put` overwrites the entry, changes no other, and returns the previous value |
| Objects.SkObject.Find | src/main/java/com/zytekaron/sk/types/SkObject.java:39-41 | `find` is `computeIfAbsent` with an SkNull without a class and the class's method otherwise |
| Objects.GetInsertsNull | src/main/java/com/zytekaron/sk/types/SkObject.java:31-33 | `get` never returns null and adds exactly the key when it was absent |
| Objects.ComputeIfAbsentSettles | src/main/java/com/zytekaron/sk/types/SkObject.java:39-41 | once `get` or `find` returned a value, repeating it returns the same value and changes nothing |
| Objects.ComputeIfAbsentLeavesOthers | src/main/java/com/zytekaron/sk/types/SkObject.java:31-41 | `get` and `find` change no other entry |
| Scope.Empty | src/main/java/com/zytekaron/sk/struct/VariableTable.java:27-29 | a new table has no variables and is mutable |
| Scope.FindTable | src/main/java/com/zytekaron/sk/struct/VariableTable.java:75-83 | `findTable` gives the nearest table that has the name, and none exactly when no table has it |
| Scope.ChainPut | src/main/java/com/zytekaron/sk/struct/VariableTable.java:39-41 | `put` changes the current table's binding of the name and nothing else |
| Scope.RemoveAt | src/main/java/com/zytekaron/sk/struct/VariableTable.java:48-50 | removing a name from one table changes no other table |
| Scope.VariableTable.constructor | src/main/java/com/zytekaron/sk/struct/VariableTable.java:31-33 | a table without a parent: one empty level |
| Scope.VariableTable.WithParent | src/main/java/com/zytekaron/sk/struct/VariableTable.java:35-37 | an empty table in front of the parent's chain |
| Scope.VariableTable.Put | src/main/java/com/zytekaron/sk/struct/VariableTable.java:39-41 | binds the name in the current table and returns what that table had under it |
| Scope.VariableTable.Delete | src/main/java/com/zytekaron/sk/struct/VariableTable.java:43-53 | refuses when no table has the name or the current table is immutable; otherwise the owning table deletes it unless that table is immutable |
| Scope.ContainsSomewhere | src/main/java/com/zytekaron/sk/struct/VariableTable.java:55-61 | `contains` holds exactly when some table on the chain has the name, exactly when `findTable` finds one |
| Scope.GetIsNearestValue | src/main/java/com/zytekaron/sk/struct/VariableTable.java:67-73 | `get` gives the value of the nearest table binding the name to a non-null value, and null when there is none |
| Scope.PutThenGet | src/main/java/com/zytekaron/sk/struct/VariableTable.java:39-41 | after `put(n, v)` the current table has `n` and `get(n)` is `v` |
| Scope.PutNullFallsThrough | src/main/java/com/zytekaron/sk/struct/VariableTable.java:67-73 | a name bound to null in the current table still reads the parents' value |
| Scope.PutLeavesOthers | src/main/java/com/zytekaron/sk/struct/VariableTable.java:39-41 | `put` leaves `get`, `contains` and `containsHere` of every other name as they were |
| Scope.DeleteRemovesNearest | src/main/java/com/zytekaron/sk/struct/VariableTable.java:43-53 | a refused deletion changes nothing; a deletion is made exactly when the name is found and neither table is immutable, and removes it from the nearest table only |
| Scope.DeleteUncovers | src/main/java/com/zytekaron/sk/struct/VariableTable.java:43-53 | after a deletion the name is still visible exactly when a table farther out also has it |
| Scope.ImmutableNeverSet | src/main/java/com/zytekaron/sk/struct/VariableTable.java:29 | `put` and `delete` keep every table mutable, so on such chains `delete` succeeds exactly when `contains` holds |
| RuntimeResults.Cleared | src/main/java/com/zytekaron/sk/struct/result/RuntimeResult.java:31-37 | `reset` leaves every field null or false |
| RuntimeResults.Succeeded | src/main/java/com/zytekaron/sk/struct/result/RuntimeResult.java:57-61 | `success(v)` leaves a cleared result holding `v` |
| RuntimeResults.Failed | src/main/java/com/zytekaron/sk/struct/result/RuntimeResult.java:51-55 | `failure(e)` leaves a cleared result holding the error |
| RuntimeResults.Returned | src/main/java/com/zytekaron/sk/struct/result/RuntimeResult.java:63-67 | `successReturn(v)` leaves a cleared result holding the return value |
| RuntimeResults.Continued | src/main/java/com/zytekaron/sk/struct/result/RuntimeResult.java:69-73 | `successContinue` leaves a cleared result with the continue flag |
| RuntimeResults.Broken | src/main/java/com/zytekaron/sk/struct/result/RuntimeResult.java:75-79 | `successBreak` leaves a cleared result with the break flag |
| RuntimeResults.Registered | src/main/java/com/zytekaron/sk/struct/result/RuntimeResult.java:43-49 | `register` takes the child's four signal fields and keeps its own result |
| RuntimeResults.RuntimeResult.constructor | src/main/java/com/zytekaron/sk/struct/result/RuntimeResult.java:24-29 | a new result is cleared |
| RuntimeResults.RuntimeResult.Reset | src/main/java/com/zytekaron/sk/struct/result/RuntimeResult.java:31-37 | the result is cleared |
| RuntimeResults.RuntimeResult.Register | src/main/java/com/zytekaron/sk/struct/result/RuntimeResult.java:43-49 | takes over the child's signals and returns the child's value |
| RuntimeResults.RuntimeResult.Failure | src/main/java/com/zytekaron/sk/struct/result/RuntimeResult.java:51-55 | the result is cleared and holds the error |
| RuntimeResults.RuntimeResult.Succeed | src/main/java/com/zytekaron/sk/struct/result/RuntimeResult.java:57-61 | the result is cleared and holds the value |
| RuntimeResults.RuntimeResult.SucceedReturn | src/main/java/com/zytekaron/sk/struct/result/RuntimeResult.java:63-67 | the result is cleared and holds the return value |
| RuntimeResults.RuntimeResult.SucceedContinue | src/main/java/com/zytekaron/sk/struct/result/RuntimeResult.java:69-73 | the result is cleared and signals continue |
| RuntimeResults.RuntimeResult.SucceedBreak | src/main/java/com/zytekaron/sk/struct/result/RuntimeResult.java:75-79 | the result is cleared and signals break |
| RuntimeResults.VarResult.constructor | src/main/java/com/zytekaron/sk/struct/result/VarResult.java:23-24 | a new VarResult holds no error |
| RuntimeResults.VarResult.SetSuccess | src/main/java/com/zytekaron/sk/struct/result/VarResult.java:30-32 | `setSuccess` changes nothing |
| RuntimeResults.VarResult.Failure | src/main/java/com/zytekaron/sk/struct/result/VarResult.java:34-37 | `failure(e)` stores the error |
| RuntimeResults.SuccessAndFailure | src/main/java/com/zytekaron/sk/struct/result/RuntimeResult.java:39-83 | after `success(v)` nothing signals and the value is `v`; after `failure(e)` the result signals and is not a success |
| RuntimeResults.ControlSignals | src/main/java/com/zytekaron/sk/struct/result/RuntimeResult.java:69-83 | continue and break signal without an error; a return signals exactly when its value is not null |
| RuntimeResults.SettersAreDistinct | src/main/java/com/zytekaron/sk/struct/result/RuntimeResult.java:51-79 | results left by different setters differ |
| RuntimeResults.RegisterPropagates | src/main/java/com/zytekaron/sk/struct/result/RuntimeResult.java:43-49 | `register` passes on the child's signal and success, and registering a child twice is the same as once |
| RuntimeResults.RegisterForgets | src/main/java/com/zytekaron/sk/struct/result/RuntimeResult.java:43-49 | what `register` leaves does not depend on the signals the result had before |
| RuntimeResults.VarSuccessInverted | src/main/java/com/zytekaron/sk/struct/result/VarResult.java:26-28 | VarResult's `success()` is false for a new result and true once it holds an error |
| Scope.ChainGet | src/main/java/com/zytekaron/sk/struct/VariableTable.java:67-73 | a name bound to a non-null value in the current table reads that value; any value read comes from a table on the chain that has the name |
| Scope.ChainDelete | src/main/java/com/zytekaron/sk/struct/VariableTable.java:43-53 | a deletion is made only when some table has the name and the current table is mutable; a refused one leaves the chain as it was; either way the chain keeps its length and every table its mutability |
| Semantics.MissingHandler | src/main/java/com/zytekaron/sk/interpret/Interpreter.java:57-59 | a node class without a handler throws a RuntimeException |
| Semantics.AtNode | src/main/java/com/zytekaron/sk/types/error/SkRuntimeError.java:41-44 | an SkRuntimeError built from a node is a RuntimeError that spans the node and carries the details |
| Semantics.Propagated | src/main/java/com/zytekaron/sk/interpret/handlers/BinaryOperationHandler.java:48-52 | a handler that returns after registering a signalling child passes the child's signal on and holds no value |
| Semantics.SucceedWith | src/main/java/com/zytekaron/sk/interpret/handlers/NumberHandler.java:33-36 | a handler that returns a value (the SkValue handlers) succeeds exactly when the value is computed, with that value |
| Semantics.HandleNumber | src/main/java/com/zytekaron/sk/interpret/handlers/UnaryOperationHandler.java:76-88 | `+` keeps a number and `!` gives a coercion error value |
| Semantics.HandleBoolean | src/main/java/com/zytekaron/sk/interpret/handlers/UnaryOperationHandler.java:90-102 | `!` negates a boolean; `+` and `-` give a coercion error value |
| Semantics.InvertNumber | src/main/java/com/zytekaron/sk/interpret/handlers/UnaryOperationHandler.java:104-115 | an int is multiplied by -1 as SkInt does it; a long throws |
| Semantics.Operate | src/main/java/com/zytekaron/sk/interpret/handlers/BinaryOperationHandler.java:63-73 | a null result and an ArithmeticException both become a failure at the node; any value succeeds |
| Semantics.ParamsLoop | src/main/java/com/zytekaron/sk/interpret/handlers/FunctionDefineHandler.java:59-74 | a loop that finishes has built one parameter per node, with the node's name and spread flag |
| Semantics.Required | src/main/java/com/zytekaron/sk/interpret/handlers/FunctionCallHandler.java:111-117 | `min` counts the leading parameters without a default: all before it have none, the one at it has one |
| Semantics.ArgsLoop | src/main/java/com/zytekaron/sk/interpret/handlers/FunctionCallHandler.java:71-78 | a loop that finishes has one value per argument node |
| HandlerProperties.NullNodeFails | src/main/java/com/zytekaron/sk/interpret/Interpreter.java:52-54 | a null node fails whatever the fuel and changes nothing |
| HandlerProperties.UnregisteredClassesFail | src/main/java/com/zytekaron/sk/interpret/Interpreter.java:55-59 | a node whose class has no handler throws "missing Node handler" naming the class and changes nothing |
| HandlerProperties.RegistryNamesHandledClasses | src/main/java/com/zytekaron/sk/interpret/Interpreter.java:30-49 | the node kinds with a handler are exactly those whose classes the constructor registers |
| HandlerProperties.UnregisteredClasses | src/main/java/com/zytekaron/sk/interpret/Interpreter.java:30-49 | scopes, characters, element accesses, object literals, declarations and parameters have no handler |
| HandlerProperties.NumberLiteral | src/main/java/com/zytekaron/sk/interpret/handlers/NumberHandler.java:33-36 | a number literal evaluates to `fromToken` of its token and touches no variable |
| HandlerProperties.IntLiteralRendersBack | src/main/java/com/zytekaron/sk/interpret/handlers/NumberHandler.java:33-36 | an INT literal with canonical text in range evaluates to an int that renders as that text |
| HandlerProperties.BoolLiteral | src/main/java/com/zytekaron/sk/interpret/handlers/BoolHandler.java:33-37 | a boolean literal is true exactly when its text is "true" in any case, and touches no variable |
| HandlerProperties.EmptyArray | src/main/java/com/zytekaron/sk/interpret/handlers/ArrayHandler.java:42-59 | an empty array literal is an empty array |
| HandlerProperties.ArrayReturnsFirstOrdinary | src/main/java/com/zytekaron/sk/interpret/handlers/ArrayHandler.java:48-53 | when the first element's result does not signal, the literal is that result and no further element is visited |
| HandlerProperties.ArrayNeverSignals | src/main/java/com/zytekaron/sk/interpret/handlers/ArrayHandler.java:48-58 | an array literal never passes a signal on |
| HandlerProperties.ArrayOfSignals | src/main/java/com/zytekaron/sk/interpret/handlers/ArrayHandler.java:48-58 | when every element signals, the literal is the array of their results in order, in the chain the last element left |
| HandlerProperties.ObjectKeys | src/main/java/com/zytekaron/sk/interpret/handlers/ObjectHandler.java:48-55 | the object loop, when it succeeds, has exactly the keys gathered and those still to visit |
| HandlerProperties.ObjectLiteral | src/main/java/com/zytekaron/sk/interpret/handlers/ObjectHandler.java:42-59 | a successful object literal has exactly the literal's keys, no class, and the tag "Object" |
| HandlerProperties.EntriesAreNormal | src/main/java/com/zytekaron/sk/interpret/handlers/ObjectHandler.java:48-55 | entry results that do not signal come from visits that completed normally, no more of them than entries |
| HandlerProperties.GatheredKeys | src/main/java/com/zytekaron/sk/interpret/handlers/ObjectHandler.java:54 | putting the visited entries adds exactly their keys |
| HandlerProperties.GatheredKeeps | src/main/java/com/zytekaron/sk/interpret/handlers/ObjectHandler.java:54 | putting the visited entries leaves every other key as it was |
| HandlerProperties.GatheredValue | src/main/java/com/zytekaron/sk/interpret/handlers/ObjectHandler.java:49-54 | with distinct keys, the `i`th visited key is bound to the value of the `i`th entry's visit |
| HandlerProperties.GatheredObject | src/main/java/com/zytekaron/sk/interpret/handlers/ObjectHandler.java:47-55 | gathering every entry from an empty map gives exactly the literal's keys, each bound to its own entry's value |
| HandlerProperties.ObjectFromOrdinary | src/main/java/com/zytekaron/sk/interpret/handlers/ObjectHandler.java:48-58 | from entry `k` on, entries that do not signal give the object of the gathered values, in the chain the last entry left |
| HandlerProperties.ObjectFromSignal | src/main/java/com/zytekaron/sk/interpret/handlers/ObjectHandler.java:48-53 | from entry `k` on, the first signalling entry ends the loop with its run, propagated |
| HandlerProperties.ObjectOfOrdinary | src/main/java/com/zytekaron/sk/interpret/handlers/ObjectHandler.java:42-59 | when no entry signals, the literal is an object with no class that has exactly the literal's keys, each bound to the result of visiting its own entry, in the chain the last entry left |
| HandlerProperties.ObjectReturnsFirstSignal | src/main/java/com/zytekaron/sk/interpret/handlers/ObjectHandler.java:48-53 | the first entry that signals ends the literal: an abrupt completion as it is, any other signal propagated from the chain that entry left; no later entry is visited |
| HandlerProperties.LeftSignalSkipsRight | src/main/java/com/zytekaron/sk/interpret/handlers/BinaryOperationHandler.java:48-52 | a signalling left operand is passed on and the right operand is not visited |
| HandlerProperties.RightSignalPropagates | src/main/java/com/zytekaron/sk/interpret/handlers/BinaryOperationHandler.java:54-58 | a signalling right operand is passed on, in the chain the left operand left, and no operation is performed |
| HandlerProperties.OperandsInOrder | src/main/java/com/zytekaron/sk/interpret/handlers/BinaryOperationHandler.java:45-74 | the left operand is visited first, the right one in the chain it left, and the operation applies to their values |
| HandlerProperties.OnlyArithmeticOperators | src/main/java/com/zytekaron/sk/interpret/handlers/BinaryOperationHandler.java:76-93 | only `+ - * / % **` are binary operations; any other operator throws, naming it |
| HandlerProperties.IntArithmetic | src/main/java/com/zytekaron/sk/interpret/handlers/BinaryOperationHandler.java:95-114 | int `+ - *` at the node wrap around at 32 bits |
| HandlerProperties.DivisionByZeroFails | src/main/java/com/zytekaron/sk/interpret/handlers/BinaryOperationHandler.java:70-73 | int division and remainder by zero fail at the node |
| HandlerProperties.IntWithOtherFails | src/main/java/com/zytekaron/sk/interpret/handlers/BinaryOperationHandler.java:65-68 | an int with an operand of no number kind and no string gives null, which fails at the node |
| HandlerProperties.StringConcatenation | src/main/java/com/zytekaron/sk/interpret/handlers/BinaryOperationHandler.java:95-103 | a string plus a string concatenates, a string plus an int appends the int's decimal text, and an int plus a string prefixes it |
| HandlerProperties.StringRepetition | src/main/java/com/zytekaron/sk/interpret/handlers/BinaryOperationHandler.java:121-124 | a string times a non-negative int repeats it when the result is within `String.repeat`'s limit of 2^31-1 stored bytes (counted per UTF-16 code unit beyond Latin-1) and throws OutOfMemoryError past it; a negative count throws IllegalArgumentException |
| HandlerProperties.NonStringLeftIsStringified | src/main/java/com/zytekaron/sk/interpret/handlers/BinaryOperationHandler.java:105 | a left operand that is neither a number nor a string is added as its string form |
| HandlerProperties.NonNumberLeftIsErrorValue | src/main/java/com/zytekaron/sk/interpret/handlers/BinaryOperationHandler.java:108-150 | `- / % **`, and `*` without a string, on a left operand that is not a number give an error value naming its type, not a failure |
| HandlerProperties.NullLeftThrows | src/main/java/com/zytekaron/sk/interpret/handlers/BinaryOperationHandler.java:95-150 | a null left operand throws, whatever the operator |
| HandlerProperties.UnaryOperandSignalPropagates | src/main/java/com/zytekaron/sk/interpret/handlers/UnaryOperationHandler.java:55-59 | a signalling operand is passed on and the operator is not applied |
| HandlerProperties.IntNegation | src/main/java/com/zytekaron/sk/interpret/handlers/UnaryOperationHandler.java:104-108 | `-` of an int negates it with wrap-around, so the least int is its own negation; `+` keeps it |
| HandlerProperties.LongNegationThrows | src/main/java/com/zytekaron/sk/interpret/handlers/UnaryOperationHandler.java:112-114 | `-` of a long throws |
| HandlerProperties.StringOperandIsParsed | src/main/java/com/zytekaron/sk/interpret/handlers/UnaryOperationHandler.java:64-66 | a string operand is read as a number first: an int's text behaves as the int |
| HandlerProperties.NonNumericStringThrows | src/main/java/com/zytekaron/sk/interpret/handlers/UnaryOperationHandler.java:64-66 | a string that is not ASCII decimal text of an `int` throws NumberFormatException |
| HandlerProperties.BooleanOperators | src/main/java/com/zytekaron/sk/interpret/handlers/UnaryOperationHandler.java:90-102 | `!` negates a boolean; `+` and `-` give an error value, not a failure |
| HandlerProperties.NotOnNumberIsErrorValue | src/main/java/com/zytekaron/sk/interpret/handlers/UnaryOperationHandler.java:83-84 | `!` of a number gives an error value, not a failure |
| HandlerProperties.OtherOperandsFail | src/main/java/com/zytekaron/sk/interpret/handlers/UnaryOperationHandler.java:69-72 | any other operand fails from the operator to the end of the operand, naming its type; null throws |
| HandlerProperties.OnlyUnaryOperators | src/main/java/com/zytekaron/sk/interpret/handlers/UnaryOperationHandler.java:85-87 | an operator other than `+ - !` throws, naming the operator |
| HandlerProperties.VarAccessReadsOnly | src/main/java/com/zytekaron/sk/interpret/handlers/VarAccessHandler.java:36-51 | an access reads the nearest value and changes nothing; it fails exactly when no table has the name |
| HandlerProperties.DeclareBindsNull | src/main/java/com/zytekaron/sk/interpret/handlers/VarDeclareHandler.java:35-48 | a declaration binds a new SkNull in the current table; a name it already has gives an error value and changes nothing |
| HandlerProperties.AssignBindsInCurrentTable | src/main/java/com/zytekaron/sk/interpret/handlers/VarAssignHandler.java:40-55 | a definition binds the value in the current table even when a parent has the name, and gives an error value when the current table has it |
| HandlerProperties.AssignIgnoresFailure | src/main/java/com/zytekaron/sk/interpret/handlers/VarAssignHandler.java:46-47 | a failing value still defines the name, bound to the failed result's null value |
| HandlerProperties.AssignWithoutValueFails | src/main/java/com/zytekaron/sk/interpret/handlers/VarAssignHandler.java:46-47 | a definition without a value fails as a visit of null does |
| HandlerProperties.ReassignBehavesAsDefinition | src/main/java/com/zytekaron/sk/interpret/handlers/VarReassignHandler.java:42-64 | a reassignment passes a signalling value on, refuses a name the current table has, and binds any other in the current table |
| HandlerProperties.DeleteRemovesNearestOnly | src/main/java/com/zytekaron/sk/interpret/handlers/VarDeleteHandler.java:40-56 | a deletion gives an error value and changes nothing when no table has the name or the current table is immutable; otherwise it gives the value and removes the name from the nearest table unless that one is immutable |
| HandlerProperties.BeforeStep | src/main/java/com/zytekaron/sk/interpret/handlers/FunctionDefineHandler.java:96-108 | the flags after parameter `i` are those before it or what `i` itself is |
| HandlerProperties.ValidateFromFindsFirst | src/main/java/com/zytekaron/sk/interpret/handlers/FunctionDefineHandler.java:90-113 | from index `i` on, the check reports the first misplaced parameter, or none |
| HandlerProperties.MisplacedIffDisordered | src/main/java/com/zytekaron/sk/interpret/handlers/FunctionDefineHandler.java:90-113 | no parameter is misplaced exactly when spread parameters and parameters with a default both come last |
| HandlerProperties.ValidationIff | src/main/java/com/zytekaron/sk/interpret/handlers/FunctionDefineHandler.java:90-113 | a definition's parameters pass exactly when well ordered; otherwise the error is at the first misplaced one |
| HandlerProperties.ArityWindow | src/main/java/com/zytekaron/sk/interpret/handlers/FunctionCallHandler.java:111-127 | a call passes the count check exactly when the argument count lies between `min` and `max` |
| HandlerProperties.RequiredOfWellOrdered | src/main/java/com/zytekaron/sk/interpret/handlers/FunctionCallHandler.java:111-117 | for well-ordered parameters `min` is the number without a default |
| HandlerProperties.RequiredReadsDefaultsOnly | src/main/java/com/zytekaron/sk/interpret/handlers/FunctionCallHandler.java:111-122 | the count check reads only the defaults: names and spread flags change nothing |
| HandlerProperties.SpreadTakesOneArgument | src/main/java/com/zytekaron/sk/interpret/handlers/FunctionCallHandler.java:111-127 | a function of one spread parameter without default takes exactly one argument |
| HandlerProperties.WrongCountThrows | src/main/java/com/zytekaron/sk/interpret/handlers/FunctionCallHandler.java:124-127 | as written, a count outside the window throws NullPointerException |
| HandlerProperties.SmallCallsThrow | src/main/java/com/zytekaron/sk/interpret/handlers/FunctionCallHandler.java:129-134 | as written, every call within the window with fewer than ten parameters or arguments throws IndexOutOfBoundsException |
| HandlerProperties.AsWrittenPassesOnlyLargeCalls | src/main/java/com/zytekaron/sk/interpret/handlers/FunctionCallHandler.java:108-137 | as written the check passes a call only when the corrected check does and there are at least ten parameters and arguments |
| HandlerProperties.NullaryCallThrows | src/main/java/com/zytekaron/sk/interpret/handlers/FunctionCallHandler.java:129-134 | a function without parameters called without arguments throws as written and is accepted by the corrected check |
| HandlerProperties.PlainParametersVisitNothing | src/main/java/com/zytekaron/sk/interpret/handlers/FunctionDefineHandler.java:60-74 | parameters without defaults visit nothing: the loop ends in its starting chain with one parameter per node |
| HandlerProperties.DefineBindsFunction | src/main/java/com/zytekaron/sk/interpret/handlers/FunctionDefineHandler.java:49-88 | well-ordered parameters and a scope body bind the function in the current table and return it; misplaced parameters fail and bind nothing |
| HandlerProperties.BuiltFromStep | src/main/java/com/zytekaron/sk/interpret/handlers/FunctionDefineHandler.java:72-73 | a parameter with the node's name and spread flag, without a default where the node has none, extends what the loop has built |
| HandlerProperties.ParamsFromSignal | src/main/java/com/zytekaron/sk/interpret/handlers/FunctionDefineHandler.java:60-74 | from node `k` on, the first default that signals stops the parameter loop with its run, propagated |
| HandlerProperties.DefineReturnsFirstSignal | src/main/java/com/zytekaron/sk/interpret/handlers/FunctionDefineHandler.java:59-74 | a definition whose default signals returns that signal (an abrupt completion as it is, any other propagated), visits no later default and binds nothing: the chain is the one that default's visit left |
| HandlerProperties.SpreadBeforeOrdinaryReported | src/main/java/com/zytekaron/sk/interpret/handlers/FunctionDefineHandler.java:96-101 | without defaults, the only misplacement is an ordinary parameter after a spread one, and the check reports it |
| HandlerProperties.MisplacedPlainParametersChangeNothing | src/main/java/com/zytekaron/sk/interpret/handlers/FunctionDefineHandler.java:77-80 | such a definition fails and leaves the chain as it was |
| HandlerProperties.CallUndefinedFails | src/main/java/com/zytekaron/sk/interpret/handlers/FunctionCallHandler.java:57-60 | calling a name no table has fails at the name's token and changes nothing |
| HandlerProperties.CallNonFunctionFails | src/main/java/com/zytekaron/sk/interpret/handlers/FunctionCallHandler.java:63-67 | calling a name bound to anything but a function fails and visits no argument |
| HandlerProperties.CallRunsBodyInCallerTable | src/main/java/com/zytekaron/sk/interpret/handlers/FunctionCallHandler.java:86-106 | the body runs in the caller's own table after the arguments: no table is added and no argument is bound |
| HandlerProperties.BodyGivesNull | src/main/java/com/zytekaron/sk/interpret/handlers/FunctionCallHandler.java:90-106 | a body that does not signal gives a new SkNull |
| HandlerProperties.ArgsFromOrdinary | src/main/java/com/zytekaron/sk/interpret/handlers/FunctionCallHandler.java:71-78 | from argument `k` on, arguments that do not signal finish the loop with their values in order, in the chain the last one left |
| HandlerProperties.ResultsStep | src/main/java/com/zytekaron/sk/interpret/handlers/FunctionCallHandler.java:77 | the values of the runs are the first one's value followed by the rest's |
| HandlerProperties.AppendOne | src/main/java/com/zytekaron/sk/interpret/handlers/FunctionCallHandler.java:77 | appending one value and then the rest is appending them together |
| HandlerProperties.ArgsFromSignal | src/main/java/com/zytekaron/sk/interpret/handlers/FunctionCallHandler.java:72-76 | from argument `k` on, the first argument that signals stops the loop with its own run |
| HandlerProperties.BodyFromOrdinary | src/main/java/com/zytekaron/sk/interpret/handlers/FunctionCallHandler.java:93-105 | from statement `k` on, statements that do not signal give a new SkNull in the chain the last one left |
| HandlerProperties.BodyFromSignal | src/main/java/com/zytekaron/sk/interpret/handlers/FunctionCallHandler.java:94-100 | from statement `k` on, the first statement that signals ends the body with its own run |
| HandlerProperties.CallReturnsFirstSignal | src/main/java/com/zytekaron/sk/interpret/handlers/FunctionCallHandler.java:70-78 | the arguments are visited in order, each in the chain the one before left; the first that signals is the call's result as it is, and neither the count check nor the body is reached |
| HandlerProperties.CallOfOrdinaryArguments | src/main/java/com/zytekaron/sk/interpret/handlers/FunctionCallHandler.java:70-87 | when no argument signals, the count check sees one value per argument and the body runs in the chain the last argument left; a count out of range fails there |
| HandlerProperties.BodyOfOrdinary | src/main/java/com/zytekaron/sk/interpret/handlers/FunctionCallHandler.java:90-106 | a body whose statements do not signal gives a new SkNull in the chain the last statement left |
| HandlerProperties.BodyReturnsFirstSignal | src/main/java/com/zytekaron/sk/interpret/handlers/FunctionCallHandler.java:94-100 | the statements run in order, each in the chain the one before left, and the first that signals is the body's result as it is |
| HandlerProperties.EmptyFunctionGivesNull | src/main/java/com/zytekaron/sk/interpret/handlers/FunctionCallHandler.java:49-106 | example of BodyOfOrdinary: a function without parameters and with an empty body, called without arguments, gives SkNull and changes nothing |
| Interpreting.Interpreter.Visit | src/main/java/com/zytekaron/sk/interpret/Interpreter.java:51-61 | `visit` does exactly what Semantics.Visit says, on the table's chain before and after |
| Interpreting.Interpreter.HandleValue | src/main/java/com/zytekaron/sk/interpret/Interpreter.java:30-49 | the literal and variable handlers do what Semantics.Visit says |
| Interpreting.Interpreter.HandleOperation | src/main/java/com/zytekaron/sk/interpret/Interpreter.java:41-48 | the reassignment, function and operation handlers do what Semantics.Visit says |
| Interpreting.Interpreter.HandleVarAccess | src/main/java/com/zytekaron/sk/interpret/handlers/VarAccessHandler.java:36-51 | the access handler does what Semantics.HandleVarAccess says |
| Interpreting.Interpreter.HandleVarDelete | src/main/java/com/zytekaron/sk/interpret/handlers/VarDeleteHandler.java:40-56 | the delete handler does what Semantics.HandleVarDelete says |
| Interpreting.Interpreter.HandleVarDeclare | src/main/java/com/zytekaron/sk/interpret/handlers/VarDeclareHandler.java:35-48 | the declare handler does what Semantics.HandleVarDeclare says |
| Interpreting.Interpreter.HandleVarAssign | src/main/java/com/zytekaron/sk/interpret/handlers/VarAssignHandler.java:40-55 | the definition handler does what Semantics.HandleVarAssign says |
| Interpreting.Interpreter.HandleVarReassign | src/main/java/com/zytekaron/sk/interpret/handlers/VarReassignHandler.java:42-64 | the reassignment handler does what Semantics.HandleVarReassign says |
| Interpreting.Interpreter.HandleUnary | src/main/java/com/zytekaron/sk/interpret/handlers/UnaryOperationHandler.java:49-74 | the unary handler does what Semantics.HandleUnary says |
| Interpreting.Interpreter.HandleBinary | src/main/java/com/zytekaron/sk/interpret/handlers/BinaryOperationHandler.java:45-74 | the binary handler does what Semantics.HandleBinary says |
| Interpreting.Interpreter.HandleArray | src/main/java/com/zytekaron/sk/interpret/handlers/ArrayHandler.java:42-59 | the array loop does what Semantics.ArrayLoop says |
| Interpreting.Interpreter.HandleObject | src/main/java/com/zytekaron/sk/interpret/handlers/ObjectHandler.java:42-59 | the object loop does what Semantics.HandleObject says, in the given iteration order |
| Interpreting.Interpreter.HandleFunctionDefine | src/main/java/com/zytekaron/sk/interpret/handlers/FunctionDefineHandler.java:49-88 | the definition handler does what Semantics.HandleFunctionDefine says |
| Interpreting.Interpreter.CheckOrder | src/main/java/com/zytekaron/sk/interpret/handlers/FunctionDefineHandler.java:90-113 | the one-pass loop gives Semantics.ValidateParameters, whose meaning HandlerProperties.ValidationIff states |
| Interpreting.Interpreter.HandleFunctionCall | src/main/java/com/zytekaron/sk/interpret/handlers/FunctionCallHandler.java:49-88 | the call handler does what Semantics.HandleFunctionCall says |
| Interpreting.Interpreter.Execute | src/main/java/com/zytekaron/sk/interpret/handlers/FunctionCallHandler.java:90-106 | the body loop does what Semantics.BodyLoop says |
| Interpreting.Interpreter.CheckArity | src/main/java/com/zytekaron/sk/interpret/handlers/FunctionCallHandler.java:108-128 | the corrected count check gives Semantics.ValidateCall, whose window HandlerProperties.ArityWindow states |
| Semantics.Visit | src/main/java/com/zytekaron/sk/interpret/Interpreter.java:51-61 | visiting any node, whatever it does, leaves a chain of as many tables as it was given: visits open no scope that outlives them |
| Semantics.HandleVarAccess | src/main/java/com/zytekaron/sk/interpret/handlers/VarAccessHandler.java:36-51 | an access changes no table, and succeeds exactly when some table on the chain has the name |
| Semantics.HandleVarDelete | src/main/java/com/zytekaron/sk/interpret/handlers/VarDeleteHandler.java:40-56 | a deletion never fails and never signals a return, break or continue, even when it is refused; the chain keeps its length |
| Semantics.HandleVarDeclare | src/main/java/com/zytekaron/sk/interpret/handlers/VarDeclareHandler.java:35-48 | a declaration always succeeds and leaves the name bound in the current table; the tables farther out are untouched |
| Semantics.HandleVarAssign | src/main/java/com/zytekaron/sk/interpret/handlers/VarAssignHandler.java:40-55 | a definition whose value completes without a signal succeeds and binds the name in the current table; the chain keeps its length |
| Semantics.HandleVarReassign | src/main/java/com/zytekaron/sk/interpret/handlers/VarReassignHandler.java:42-64 | a reassignment that does not signal binds the name in the current table to exactly the value it reports; the chain keeps its length |
| Semantics.HandleUnary | src/main/java/com/zytekaron/sk/interpret/handlers/UnaryOperationHandler.java:49-74 | the operator changes no table: the chain afterwards is the one the operand's visit left |
| Semantics.Unary | src/main/java/com/zytekaron/sk/interpret/handlers/UnaryOperationHandler.java:61-73 | a null operand throws NullPointerException; the operator never signals a return, break or continue; an operand that is neither a number, a string nor a boolean is a failure |
| Semantics.HandleBinary | src/main/java/com/zytekaron/sk/interpret/handlers/BinaryOperationHandler.java:45-74 | a binary operation that succeeds without a signal always has a value; the chain keeps its length |
| Semantics.Execute | src/main/java/com/zytekaron/sk/interpret/handlers/BinaryOperationHandler.java:76-93 | any operator but PLUS, MINUS, MULTIPLY, DIVIDE, MODULO and POWER throws "Invalid operation passed: " and the operator; for those six a null left operand throws NullPointerException |
| Semantics.AddValues | src/main/java/com/zytekaron/sk/interpret/handlers/BinaryOperationHandler.java:95-106 | a null left operand throws; a string on the left gives a string that starts with it; any other non-number on the left is turned into a string first, so the result is a string |
| Semantics.Arith | src/main/java/com/zytekaron/sk/interpret/handlers/BinaryOperationHandler.java:108-150 | a null left operand throws NullPointerException; a left operand that is not a number gives an error value at the node instead of computing |
| Semantics.ArrayLoop | src/main/java/com/zytekaron/sk/interpret/handlers/ArrayHandler.java:42-59 | the element loop keeps the chain's length |
| Semantics.HandleObject | src/main/java/com/zytekaron/sk/interpret/handlers/ObjectHandler.java:42-59 | an object literal keeps the chain's length |
| Semantics.ObjectLoop | src/main/java/com/zytekaron/sk/interpret/handlers/ObjectHandler.java:46-57 | the entry loop keeps the chain's length |
| Semantics.HandleFunctionDefine | src/main/java/com/zytekaron/sk/interpret/handlers/FunctionDefineHandler.java:49-88 | a definition that succeeds without a signal gives a function value and binds the name in the current table to exactly that value; the chain keeps its length |
| Semantics.ValidateParameters | src/main/java/com/zytekaron/sk/interpret/handlers/FunctionDefineHandler.java:90-113 | the order check only ever reports a RuntimeError with one of its two messages, and accepts any list of plain parameters |
| Semantics.ValidateFrom | src/main/java/com/zytekaron/sk/interpret/handlers/FunctionDefineHandler.java:94-112 | from any point, the check reports only the two order errors, and nothing when no spread or default has been seen and none follows |
| Semantics.ValidateCallAsWritten | src/main/java/com/zytekaron/sk/interpret/handlers/FunctionCallHandler.java:108-134 | the count check as written completes exactly when the count is within the window and both the parameters and the arguments number at least ten, and then reports nothing; otherwise it throws |
| Semantics.ValidateCall | src/main/java/com/zytekaron/sk/interpret/handlers/FunctionCallHandler.java:108-128 | the corrected count check reports nothing exactly when the count lies between `min` and `max`, and otherwise a RuntimeError that carries no position |
| Semantics.BodyLoop | src/main/java/com/zytekaron/sk/interpret/handlers/FunctionCallHandler.java:90-106 | the body loop keeps the chain's length |
| Semantics.HandleFunctionCall | src/main/java/com/zytekaron/sk/interpret/handlers/FunctionCallHandler.java:49-88 | calling a name no table has changes nothing and fails; the chain keeps its length. The call uses the corrected count check Semantics.ValidateCall, not the arity loop as written (see Findings) |
| HandlerProperties.SignalsAreNormal | src/main/java/com/zytekaron/sk/interpret/handlers/ArrayHandler.java:46-56 | element results that all signal all come from visits that completed normally |
| HandlerProperties.OrdinaryAreNormal | src/main/java/com/zytekaron/sk/interpret/handlers/FunctionCallHandler.java:71-78 | results that do not signal come from visits that completed normally, no more of them than nodes |
| HandlerProperties.LastEnvRest | src/main/java/com/zytekaron/sk/interpret/handlers/FunctionCallHandler.java:71-78 | the chain after a run of visits is the one after all but its first, started where the first left off |

## Left out

- Main.java is not part of this model: it loads resources, prints to the console and runs a read-eval-print loop on standard input. Only its hand-off from lexer to parser is stated, in `Pipeline.LexedTokensNeverDefineFunctions`.
- Floating point: a double is a symbolic `Float` recording its literal text or its integer origin. `Math.pow`, `Double.parseDouble`, SkDouble arithmetic and the SkDouble `into` paths that read the value give `Unmodelled`. The "is zero" test inside truthiness is a parameter of `Conversions.ValueToBool`.
- SkLong is not part of this model. A long's arithmetic, negation and conversions give `Unmodelled`. Its `compare` gives no answer, and its type tag is taken to be "Long".
- Semantics.InvertNumber, Semantics.HandleBoolean, Arithmetic.MathOperand, Arithmetic.IntOp, Arithmetic.StringMultiply, HandlerProperties.StringRepetition and Conversions.StringInto: the model has one value hierarchy, while the source has two, `types.*` and `types.primitive.*`, whose classes are distinct. NumberHandler and BoolHandler build `types.SkInt`, `types.SkDouble` and `types.SkBool`, but several tests name the other classes:
  - `invertNumber` tests `primitive.SkInt` and `primitive.SkDouble` (UnaryOperationHandler.java:106-114), so in the source `-1` throws "Invalid SkNumber type passed...";
  - `handle` tests `primitive.SkBool` (UnaryOperationHandler.java:67), so in the source `!true` fails with "Expected number or string type";
  - `Utils.math` tests the primitive classes (Utils.java:32-43), so in the source `1 + 2` selects no overload, gets null and fails with "An error occurred whilst performing this operation.";
  - SkInt's string test names `types.SkString` (SkInt.java:55).
  - SkString's `into` compares the target with `primitive.SkInt`, `primitive.SkDouble` and `primitive.SkBool` (SkString.java:39-48), so in the source `into(types.SkBool)` throws "Class conversion not defined for type SkBool";
  - SkString's `multiply` tests `primitive.SkInt` and `primitive.SkDouble` (SkString.java:60-71), so in the source `"ab" * 3` gets null (BinaryOperationHandler.java:123) and fails with "An error occurred whilst performing this operation.".
  The model reads each of these tests as a test of the one class of that name, so these operations compute instead of failing. The `types.primitive` classes and `types.SkString` are not part of this model otherwise.
- Arithmetic.StringMultiply: the OutOfMemoryError that `String.repeat` throws is modelled only for its own size check, a result of more than 2^31-1 stored bytes. Heap exhaustion below that size depends on the JVM's memory and is not modelled.
- JavaInt.ParseDecimal: a digit is one of the ASCII characters '0' to '9'. `Integer.parseInt` and `Long.parseLong` read each digit with `Character.digit`, which also accepts every other Unicode decimal digit (Arabic-Indic, Devanagari, fullwidth and the rest) with its numeric value. The model rejects text that uses such digits with a NumberFormatException, where Java would read the number. Which characters count depends on the JDK's Unicode version, so the model keeps to ASCII. The lexer's own digit test is ASCII in the source too (Lexer.java:32), so lexing is not affected.
- JavaInt.ParseInt: reads ASCII digits only, as JavaInt.ParseDecimal does, so text with other Unicode decimal digits is rejected where Java reads it.
- JavaInt.ParseLong: reads ASCII digits only, as JavaInt.ParseDecimal does, so text with other Unicode decimal digits is rejected where Java reads it.
- Conversions.StringToInt: reads ASCII digits only, as JavaInt.ParseDecimal does, so text with other Unicode decimal digits is rejected where Java reads it.
- Arithmetic.FromString: reads ASCII digits only, as JavaInt.ParseDecimal does, so text with other Unicode decimal digits is rejected where Java reads it.
- HandlerProperties.NonNumericStringThrows: reads ASCII digits only, as JavaInt.ParseDecimal does, so text with other Unicode decimal digits is rejected where Java reads it.
- Strings are sequences of Unicode scalar values, not of UTF-16 code units. Java counts a character past U+FFFF twice: in `length`, in `charAt` indices, and in the lexer's positions inside a string literal. The model counts it once. Only the size check of `String.repeat` (`Arithmetic.StoredLength`) counts UTF-16 code units.
- Semantics.HandleVarAssign, HandlerProperties.AssignBindsInCurrentTable and HandlerProperties.AssignIgnoresFailure: VarAssignHandler.java:47 stores what `interpreter.visit` returns, a RuntimeResult, in an SkValue variable. The model reads this as the value the visited result holds, whether or not that result signals, and binds that value. `AssignIgnoresFailure` rests on this reading: a failing initial value gives a null value, which is then bound.
- Semantics.ParamsLoop: its own contract states only the shape of the finished and stopped loop and the chain's length. Adding more to the mutually recursive evaluator functions makes the rest of the recursion too costly to verify, so the promise that the first signalling default stops the loop is stated by `HandlerProperties.ParamsFromSignal` and `HandlerProperties.DefineReturnsFirstSignal`.
- Semantics.ArgsLoop: its own contract states only the shape of the result and the chain's length, for the reason given for Semantics.ParamsLoop; `HandlerProperties.ArgsFromSignal` and `HandlerProperties.ArgsFromOrdinary` state that the first signalling argument is returned as is and that otherwise every value is gathered in order.
- Semantics.ObjectLoop: its own contract states only the chain's length, for the reason given for Semantics.ParamsLoop; `HandlerProperties.ObjectFromSignal` and `HandlerProperties.ObjectFromOrdinary` state the first-signal result and the gathered values.
- Semantics.HandleObject: its own contract states only the chain's length; `HandlerProperties.ObjectReturnsFirstSignal` and `HandlerProperties.ObjectOfOrdinary` state the first-signal result and the value bound to each key.
- Semantics.HandleFunctionDefine: its own contract states only the successful case and the chain's length; `HandlerProperties.DefineReturnsFirstSignal` states that a signalling default is returned and nothing is bound.
- Semantics.BodyLoop: its own contract states only the chain's length; `HandlerProperties.BodyReturnsFirstSignal` and `HandlerProperties.BodyOfOrdinary` state that the first signalling statement is returned as is and that otherwise the body gives a new SkNull.
- Semantics.HandleFunctionCall: its own contract states only the undefined-name case and the chain's length; `HandlerProperties.CallReturnsFirstSignal` and `HandlerProperties.CallOfOrdinaryArguments` state the first-signal result and the count check and body run after ordinary arguments.
- HandlerProperties.ObjectKeys: states only the keys of a successful loop; the values and the signalling case are stated by `HandlerProperties.ObjectFromOrdinary` and `HandlerProperties.ObjectFromSignal`.
- HandlerProperties.ObjectLiteral: states only the keys and the tag of a successful literal; `HandlerProperties.ObjectOfOrdinary` states each key's value and `HandlerProperties.ObjectReturnsFirstSignal` the signalling case.
- HandlerProperties.DefineBindsFunction: assumes the parameter loop finished; `HandlerProperties.DefineReturnsFirstSignal` states the case of a signalling default.
- HandlerProperties.CallRunsBodyInCallerTable: assumes the argument loop finished; `HandlerProperties.CallReturnsFirstSignal` states the case of a signalling argument.
- HandlerProperties.BodyGivesNull: states only the non-signalling half; `HandlerProperties.BodyReturnsFirstSignal` states that the first signalling statement is returned.
- Semantics.Visit: visiting a null node throws a RuntimeException whose message is "Found null node or context". The source appends " (", the node, ", ", the context and ")" (Interpreter.java:53); Context and its `toString` are not part of this model, so the model leaves that suffix out.
- `toString` of a double, a function and a runtime error is not modelled (`Values.Show` gives None). A runtime error's text is built from the interpreter `Context`, which is not part of this model. Operations that need one of these texts give `Unmodelled`.
- SkRuntimeError's context and traceback are left out. A runtime error keeps only its name, its span and its details. `SkError.raise` prints to the console and is left out.
- StringHandler and ReturnHandler are not part of this model. Visiting a string literal or a return statement gives `Unmodelled`.
- ObjectHandler and VarDeclareHandler are registered for no node class in `Interpreter`'s constructor. They are modelled as operations of their own (`Interpreting.Interpreter.HandleObject`, `Interpreting.Interpreter.HandleVarDeclare`), and `visit` reports the missing handler for them.
- The HashMap iteration order of an object literal is a parameter, `order`, which names every key once.
- BoolHandler's cast of the node to a string node and the handlers' casts of a definition node's children are taken to succeed. The node kinds carry the fields the casts read.
- A handler that returns an SkValue instead of a RuntimeResult is modelled as returning `success(value)`. The value and the table are the same either way.
- A token whose text is Java null where a handler reads a name gives `Unmodelled`. The lexer always gives names text.
- A bounded call depth (`fuel`) stands for the Java stack: a visit with no fuel left is a `StackOverflowError`.
- Position.file is dropped, so an error keeps only index, line and column. Only error printing reads the file name. `copy` needs no operation of its own, because a Position is a value.
- Position aliasing in the lexer is not modelled. The lexer hands tokens its live Position object, which every later `advance` moves: single-character tokens take it as their start (and `Token` derives their end from it), and every multi-character token takes it as its end (Lexer.java:91, 105, 221, 227, 229, 248-252 and 300). Once `tokenize` returns, all of those positions read as the lexer's final position. The lexing errors at Lexer.java:268 and 288 keep it as their end too. The model gives every start and every end the value it had when the token or error was made.
- Node.setEnd is a function returning the node with the new end (`Ast.SetEnd`). Callers only use the node they made, so no node is shared while it changes.
- ParseResult is a value datatype that each update replaces. Every rule creates its own result, and callers only read the ones they are handed.
- A VariableTable holds the whole chain it sees. Two tables that share one parent object are not modelled: a change made through one is not seen by the other.
- The lexer reads the character after '/' or '.' through a `Character`. At the end of the input that read unboxes a null, which is modelled as a `Crashed(NullPointer)` result of `Lexing.SlashSpec` and `Lexing.DotSpec` rather than a lexing error.
- SkLexingError is not part of this model; its kind name is taken to be "LexingError", following the other two error classes.
- Lower-casing and character codes are ASCII and Unicode scalar values; there is no locale.
- BinaryOperationHandler's `and`, `or`, `equals` and `notEquals` helpers cannot be reached from `execute` and are left out.
- `toString` of nodes, functions and arrays is modelled only for the formats the messages and `into(String)` use (`Ast.ShowBinaryOperation`, `Ast.ShowParameter`, `Values.ShowArray`).
- `Values.Show` has no row of its own: `Values.ShowArray` and `Conversions.IntoStringIsShow` state its properties.

## Findings

| source | as written | input that shows it | evidently intended | confidence | as-written member | corrected member |
|---|---|---|---|---|---|---|
| src/main/java/com/zytekaron/sk/interpret/handlers/FunctionCallHandler.java:129-134 | after the count check, a loop reads parameters and arguments 0 to 9 whatever their number, so any call with fewer than ten throws IndexOutOfBoundsException | a function with no parameters called with no arguments | the loop is a placeholder for type checks, so a call whose count is in range proceeds to the body | not executed | Semantics.ValidateCallAsWritten, HandlerProperties.NullaryCallThrows, HandlerProperties.SmallCallsThrow | Semantics.ValidateCall, Interpreting.Interpreter.CheckArity, HandlerProperties.ArityWindow, HandlerProperties.AsWrittenPassesOnlyLargeCalls |
| src/main/java/com/zytekaron/sk/interpret/handlers/FunctionCallHandler.java:124-127 | a count outside `[min, max]` builds the error from a `(Node) null`, whose constructor reads the node's start and throws NullPointerException | a one-parameter function without a default called with no arguments | a RuntimeError "Expected min to max args, instead got n" | not executed | Semantics.ValidateCallAsWritten, HandlerProperties.WrongCountThrows | Semantics.ValidateCall, HandlerProperties.WrongCountThrows |
