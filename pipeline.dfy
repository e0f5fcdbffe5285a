/**
 * The parser pulling its tokens from the lexer: what parser::next() sees
 * is what lexer::next_token() returns, one call at a time.
 */
module Pipeline {
  import opened Wrappers
  import opened Tokens
  import opened Expressions
  import opened Lexing
  import opened Parsing

  /**
   * Whatever the input, the parser stops on or before the first End or Error
   * token the lexer returns, so it never asks for a token the lexer would
   * produce after one of those.
   */
  lemma ParserStaysWithinLexedTokens(input: seq<byte>)
    ensures ExpressionAt(Tokenize(input), 0).next < |Tokenize(input)|
  {
    var toks := Tokenize(input);
    var last := |toks| - 1;
    assert TokenAt(toks, last) == toks[last] && !(toks[last].Identifier? || toks[last].Operator?);
  }

  /** `a && !b` is read as AND(a, NOT b). */
  lemma LexAndParseExample()
    ensures Parse(Tokenize(ExampleInput())) == Some(Bin(And, Id("a"), Not(Id("b"))))
  {
    LexExample();
    var toks := ExampleTokens();
    assert UnaryAt(toks, 2) == Parsed(Some(Not(Id("b"))), 4);
    assert MulAt(toks, 2) == Parsed(Some(Not(Id("b"))), 4);
    assert MulAt(toks, 0) == Parsed(Some(Bin(And, Id("a"), Not(Id("b")))), 4);
  }
}
