/**
 * Source positions and the lexical tokens the lexer hands to the parser
 * (include/position.hpp, include/token.hpp, src/token.cpp).
 */
module Tokens {
  import opened Wrappers

  /** A (line, column) pair; both start at 1. The source stores them as uint32. */
  datatype Position = Position(line: nat, column: nat)

  /** A (start, end) span of positions. */
  datatype Location = Location(start: Position, end: Position)

  /** token::type */
  datatype TokenType = ErrorType | IdentifierType | OperatorType | EndType

  /** token_operator::kind */
  datatype OperatorKind = AmperAmper | PipePipe | Exclam | LParen | RParen

  /**
   * The closed set of token variants. Every variant carries the location it
   * was built with; `loc` is token::loc() and `name`/`kind` are the accessors
   * of the identifier and operator variants.
   */
  datatype Token =
    | Error(loc: Location)
    | Identifier(loc: Location, name: string)
    | Operator(loc: Location, kind: OperatorKind)
    | End(loc: Location)

  /** The virtual type() of each token variant. */
  function TypeOf(t: Token): (ty: TokenType)
    ensures ty == ErrorType <==> t.Error?
    ensures ty == IdentifierType <==> t.Identifier?
    ensures ty == OperatorType <==> t.Operator?
    ensures ty == EndType <==> t.End?
  {
    match t
    case Error(_) => ErrorType
    case Identifier(_, _) => IdentifierType
    case Operator(_, _) => OperatorType
    case End(_) => EndType
  }

  /**
   * match_operator_kind: the token itself when it is an operator of the
   * given kind, nothing otherwise.
   */
  function MatchOperatorKind(t: Token, kind: OperatorKind): (r: Option<Token>)
    ensures r.Some? <==> t.Operator? && t.kind == kind
    ensures r.Some? ==> r.value == t
  {
    match t
    case Operator(_, k) => if k != kind then None else Some(t)
    case _ => None
  }
}
