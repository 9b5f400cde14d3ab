/**
 * How the lexer's output meets the parser's expectations (Main.java runs
 * the lexer and hands its tokens to the parser).
 */
module Pipeline {
  import opened Tokens
  import opened Lexing
  import opened LexingProperties
  import opened Grammar

  /**
   * A successful tokenisation is a token list the parser accepts (EOF last),
   * and on it `isCurrentTokenKeyword` never meets a keyword without text and
   * never sees the keyword "fn": the lexer emits "fn" as an identifier, so the
   * `defineFunction` branch of `primaryExpression` is unreachable from source text.
   */
  lemma LexedTokensNeverDefineFunctions(text: string, i: nat)
    requires Lex(text).Success?
    ensures var ts := Lex(text).value;
      WellFormed(ts) && !KeywordWithoutText(ts, i) && !IsKeyword(ts, i, "fn")
  {
    LexEndsWithSingleEof(text);
    FnIsAnIdentifier();
  }
}
