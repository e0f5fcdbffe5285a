/**
 * The recursive-descent parser of src/parser.cpp.
 *
 * The lexer the parser pulls from is a sequence of tokens; reading past its
 * end yields End, as the lexer keeps returning End once it has. The parser
 * never moves past an End or Error token, so the tokens LexAll returns are
 * all it can ever see. Each parse_* method is proved against a function of
 * the tokens and the index of the current token.
 */
module Parsing {
  import opened Wrappers
  import opened Tokens
  import opened Expressions

  /** What a parse step returns (nullptr is None) and where it leaves the current token. */
  datatype Parsed = Parsed(expr: Option<Expr>, next: nat)

  /** The location used for tokens past the end of the sequence. */
  const Nowhere := Location(Position(1, 1), Position(1, 1))

  /** The token at index i; End past the end. */
  function TokenAt(toks: seq<Token>, i: nat): Token
  {
    if i < |toks| then toks[i] else End(Nowhere)
  }

  /** Tokens left from index i on. */
  function Left(toks: seq<Token>, i: nat): nat
  {
    if i < |toks| then |toks| - i else 0
  }

  /** Every token from i up to j was an identifier or an operator. */
  predicate OnlyLexemes(toks: seq<Token>, i: nat, j: nat)
  {
    forall k | i <= k < j :: TokenAt(toks, k).Identifier? || TokenAt(toks, k).Operator?
  }

  /**
   * What every parse step guarantees: it never goes back, never consumes an
   * End or Error token, and consumes at least one token when it succeeds.
   */
  predicate Advances(toks: seq<Token>, i: nat, r: Parsed)
  {
    && i <= r.next
    && OnlyLexemes(toks, i, r.next)
    && (r.expr.Some? ==> i < r.next)
  }

  /** parse_expression */
  function ExpressionAt(toks: seq<Token>, i: nat): (r: Parsed)
    ensures Advances(toks, i, r)
    decreases Left(toks, i), 5
  {
    AddAt(toks, i)
  }

  /** parse_add_expression: `||` over `&&`, right-recursive. */
  function AddAt(toks: seq<Token>, i: nat): (r: Parsed)
    ensures Advances(toks, i, r)
    decreases Left(toks, i), 4
  {
    var left := MulAt(toks, i);
    if left.expr.None? then Parsed(None, left.next)
    else if MatchOperatorKind(TokenAt(toks, left.next), PipePipe).None? then left
    else
      var right := AddAt(toks, left.next + 1);
      if right.expr.None? then Parsed(None, right.next)
      else Parsed(Some(MakeBinary(Or, left.expr.value, right.expr.value)), right.next)
  }

  /** parse_mul_expression: `&&` over unary expressions, right-recursive. */
  function MulAt(toks: seq<Token>, i: nat): (r: Parsed)
    ensures Advances(toks, i, r)
    decreases Left(toks, i), 3
  {
    var left := UnaryAt(toks, i);
    if left.expr.None? then Parsed(None, left.next)
    else if MatchOperatorKind(TokenAt(toks, left.next), AmperAmper).None? then left
    else
      var right := MulAt(toks, left.next + 1);
      if right.expr.None? then Parsed(None, right.next)
      else Parsed(Some(MakeBinary(And, left.expr.value, right.expr.value)), right.next)
  }

  /** parse_unary_expression: `!` wraps the next unary expression in NOT. */
  function UnaryAt(toks: seq<Token>, i: nat): (r: Parsed)
    ensures Advances(toks, i, r)
    decreases Left(toks, i), 2
  {
    var t := TokenAt(toks, i);
    match Tokens.TypeOf(t)
    case IdentifierType => IdentifierAt(toks, i)
    case OperatorType =>
      if MatchOperatorKind(t, Exclam).None? then PrimaryAt(toks, i)
      else
        var inner := UnaryAt(toks, i + 1);
        if inner.expr.None? then Parsed(None, inner.next)
        else Parsed(Some(MakeUnary(inner.expr.value)), inner.next)
    case _ => PrimaryAt(toks, i)
  }

  /** parse_primary_expression: an identifier or a parenthesised expression. */
  function PrimaryAt(toks: seq<Token>, i: nat): (r: Parsed)
    ensures Advances(toks, i, r)
    decreases Left(toks, i), 1
  {
    var t := TokenAt(toks, i);
    match Tokens.TypeOf(t)
    case IdentifierType => IdentifierAt(toks, i)
    case OperatorType =>
      if MatchOperatorKind(t, LParen).None? then Parsed(None, i)
      else
        var inner := ExpressionAt(toks, i + 1);
        if MatchOperatorKind(TokenAt(toks, inner.next), RParen).None? then Parsed(None, inner.next)
        else Parsed(inner.expr, inner.next + 1)
    case _ => Parsed(None, i)
  }

  /** parse_identifier_expression */
  function IdentifierAt(toks: seq<Token>, i: nat): (r: Parsed)
    ensures Advances(toks, i, r)
    ensures r.expr.Some? <==> TokenAt(toks, i).Identifier?
    ensures r.expr.Some? ==> r == Parsed(Some(Id(TokenAt(toks, i).name)), i + 1)
    ensures r.expr.None? ==> r.next == i
    decreases Left(toks, i), 0
  {
    match TokenAt(toks, i)
    case Identifier(_, name) => Parsed(Some(MakeIdentifier(name)), i + 1)
    case _ => Parsed(None, i)
  }

  // The parser object.

  class Parser {
    const tokens: seq<Token>
    /** How many tokens next() has pulled from the lexer. */
    var pulled: nat
    /** current_token */
    var current: Token

    ghost predicate Valid()
      reads this
    {
      pulled >= 1 && current == TokenAt(tokens, pulled - 1)
    }

    /** The index of the current token. */
    function Index(): nat
      reads this
      requires Valid()
    {
      pulled - 1
    }

    /** The constructor pulls exactly one token, so a current token always exists. */
    constructor (tokens: seq<Token>)
      ensures Valid() && this.tokens == tokens && pulled == 1
    {
      this.tokens := tokens;
      pulled := 0;
      current := End(Nowhere);
      new;
      Next();
    }

    /** next(): replace the current token by the lexer's next one. */
    method Next()
      modifies this
      ensures pulled == old(pulled) + 1 && current == TokenAt(tokens, old(pulled))
    {
      current := TokenAt(tokens, pulled);
      pulled := pulled + 1;
    }

    method ParseExpression() returns (e: Option<Expr>)
      requires Valid()
      modifies this
      ensures Valid() && Parsed(e, Index()) == ExpressionAt(tokens, old(Index()))
      decreases Left(tokens, pulled - 1), 5
    {
      e := ParseAdd();
    }

    method ParseAdd() returns (e: Option<Expr>)
      requires Valid()
      modifies this
      ensures Valid() && Parsed(e, Index()) == AddAt(tokens, old(Index()))
      decreases Left(tokens, pulled - 1), 4
    {
      var left := ParseMul();
      if left.None? {
        return None;
      }
      if MatchOperatorKind(current, PipePipe).None? {
        return left;
      }
      Next();
      var right := ParseAdd();
      if right.None? {
        return None;
      }
      return Some(MakeBinary(Or, left.value, right.value));
    }

    method ParseMul() returns (e: Option<Expr>)
      requires Valid()
      modifies this
      ensures Valid() && Parsed(e, Index()) == MulAt(tokens, old(Index()))
      decreases Left(tokens, pulled - 1), 3
    {
      var left := ParseUnary();
      if left.None? {
        return None;
      }
      if MatchOperatorKind(current, AmperAmper).None? {
        return left;
      }
      Next();
      var right := ParseMul();
      if right.None? {
        return None;
      }
      return Some(MakeBinary(And, left.value, right.value));
    }

    method ParseUnary() returns (e: Option<Expr>)
      requires Valid()
      modifies this
      ensures Valid() && Parsed(e, Index()) == UnaryAt(tokens, old(Index()))
      decreases Left(tokens, pulled - 1), 2
    {
      match Tokens.TypeOf(current) {
        case IdentifierType =>
          e := ParseIdentifier();
          return;
        case OperatorType =>
          if MatchOperatorKind(current, Exclam).Some? {
            Next();
            var inner := ParseUnary();
            if inner.None? {
              return None;
            }
            return Some(MakeUnary(inner.value));
          }
        case _ =>
      }
      e := ParsePrimary();
    }

    method ParsePrimary() returns (e: Option<Expr>)
      requires Valid()
      modifies this
      ensures Valid() && Parsed(e, Index()) == PrimaryAt(tokens, old(Index()))
      decreases Left(tokens, pulled - 1), 1
    {
      match Tokens.TypeOf(current) {
        case IdentifierType =>
          e := ParseIdentifier();
        case OperatorType =>
          if MatchOperatorKind(current, LParen).None? {
            return None;
          }
          Next();
          var inner := ParseExpression();
          if MatchOperatorKind(current, RParen).None? {
            return None;
          }
          Next();
          return inner;
        case _ =>
          return None;
      }
    }

    method ParseIdentifier() returns (e: Option<Expr>)
      requires Valid()
      modifies this
      ensures Valid() && Parsed(e, Index()) == IdentifierAt(tokens, old(Index()))
      decreases Left(tokens, pulled - 1), 0
    {
      match current {
        case Identifier(_, name) =>
          Next();
          return Some(MakeIdentifier(name));
        case _ =>
          return None;
      }
    }
  }

  // Properties of the grammar.

  function Ident(name: string): Token { Identifier(Nowhere, name) }

  /** The token is the operator kind, wherever it was read. */
  predicate IsOperator(t: Token, kind: OperatorKind)
  {
    t.Operator? && t.kind == kind
  }
  function Op(kind: OperatorKind): Token { Operator(Nowhere, kind) }

  /** Parsing the whole sequence, as main does with parse_expression. */
  function Parse(toks: seq<Token>): (r: Option<Expr>)
    ensures r.Some? ==> |toks| > 0 && (toks[0].Identifier? || toks[0].Operator?)
  {
    var p := ExpressionAt(toks, 0);
    assert p.expr.Some? ==> TokenAt(toks, 0).Identifier? || TokenAt(toks, 0).Operator?;
    p.expr
  }

  /** A token that cannot start an operand makes every level fail without consuming it. */
  lemma NoOperandAtBadToken(toks: seq<Token>, i: nat)
    requires var t := TokenAt(toks, i);
      t.Error? || t.End? || IsOperator(t, AmperAmper) || IsOperator(t, PipePipe) || IsOperator(t, RParen)
    ensures UnaryAt(toks, i) == Parsed(None, i)
    ensures MulAt(toks, i) == Parsed(None, i)
    ensures ExpressionAt(toks, i) == Parsed(None, i)
  {
  }

  /** An operand followed by anything other than `&&` or `||` is the whole expression. */
  lemma OperandAloneIsExpression(toks: seq<Token>, i: nat)
    requires UnaryAt(toks, i).expr.Some?
    requires var t := TokenAt(toks, UnaryAt(toks, i).next);
      !IsOperator(t, AmperAmper) && !IsOperator(t, PipePipe)
    ensures ExpressionAt(toks, i) == UnaryAt(toks, i)
  {
    assert MulAt(toks, i) == UnaryAt(toks, i);
  }

  /** A `||` whose right operand is missing makes the whole disjunction fail. */
  lemma MissingRightOperandFails(toks: seq<Token>, i: nat)
    requires MulAt(toks, i).expr.Some?
    requires IsOperator(TokenAt(toks, MulAt(toks, i).next), PipePipe)
    requires AddAt(toks, MulAt(toks, i).next + 1).expr.None?
    ensures AddAt(toks, i).expr.None?
  {
  }

  /** A `&&` whose right operand is missing makes the whole conjunction fail. */
  lemma MissingRightConjunctFails(toks: seq<Token>, i: nat)
    requires UnaryAt(toks, i).expr.Some?
    requires IsOperator(TokenAt(toks, UnaryAt(toks, i).next), AmperAmper)
    requires MulAt(toks, UnaryAt(toks, i).next + 1).expr.None?
    ensures MulAt(toks, i).expr.None?
  {
  }

  /** Parentheses only group: the result is the inner expression, with no node of its own. */
  lemma ParenthesesAddNoNode(toks: seq<Token>, i: nat)
    requires IsOperator(TokenAt(toks, i), LParen)
    ensures var inner := ExpressionAt(toks, i + 1);
      PrimaryAt(toks, i).expr.Some? <==> inner.expr.Some? && IsOperator(TokenAt(toks, inner.next), RParen)
    ensures PrimaryAt(toks, i).expr.Some? ==> PrimaryAt(toks, i).expr == ExpressionAt(toks, i + 1).expr
  {
  }

  /** `||` groups to the right. */
  lemma ParseOrGroupsRight()
    ensures Parse([Ident("a"), Op(PipePipe), Ident("b"), Op(PipePipe), Ident("c")])
      == Some(Bin(Or, Id("a"), Bin(Or, Id("b"), Id("c"))))
  {
    var toks := [Ident("a"), Op(PipePipe), Ident("b"), Op(PipePipe), Ident("c")];
    assert AddAt(toks, 4) == Parsed(Some(Id("c")), 5);
    assert AddAt(toks, 2) == Parsed(Some(Bin(Or, Id("b"), Id("c"))), 5);
  }

  /** `&&` binds tighter than `||` on either side. */
  lemma ParseAndBindsTighter()
    ensures Parse([Ident("a"), Op(AmperAmper), Ident("b"), Op(PipePipe), Ident("c")])
      == Some(Bin(Or, Bin(And, Id("a"), Id("b")), Id("c")))
    ensures Parse([Ident("a"), Op(PipePipe), Ident("b"), Op(AmperAmper), Ident("c")])
      == Some(Bin(Or, Id("a"), Bin(And, Id("b"), Id("c"))))
  {
    var t1 := [Ident("a"), Op(AmperAmper), Ident("b"), Op(PipePipe), Ident("c")];
    assert MulAt(t1, 2) == Parsed(Some(Id("b")), 3);
    assert MulAt(t1, 0) == Parsed(Some(Bin(And, Id("a"), Id("b"))), 3);
    assert AddAt(t1, 4) == Parsed(Some(Id("c")), 5);
    var t2 := [Ident("a"), Op(PipePipe), Ident("b"), Op(AmperAmper), Ident("c")];
    assert MulAt(t2, 0) == Parsed(Some(Id("a")), 1);
    assert MulAt(t2, 4) == Parsed(Some(Id("c")), 5);
    assert MulAt(t2, 2) == Parsed(Some(Bin(And, Id("b"), Id("c"))), 5);
  }

  /** Negations nest, and parentheses override precedence. */
  lemma ParseNegationAndParentheses()
    ensures Parse([Op(Exclam), Op(Exclam), Ident("a")]) == Some(Not(Not(Id("a"))))
    ensures Parse([Op(LParen), Ident("a"), Op(PipePipe), Ident("b"), Op(RParen), Op(AmperAmper), Ident("c")])
      == Some(Bin(And, Bin(Or, Id("a"), Id("b")), Id("c")))
  {
    var t1 := [Op(Exclam), Op(Exclam), Ident("a")];
    assert UnaryAt(t1, 1) == Parsed(Some(Not(Id("a"))), 3);
    var t2 := [Op(LParen), Ident("a"), Op(PipePipe), Ident("b"), Op(RParen), Op(AmperAmper), Ident("c")];
    assert AddAt(t2, 3) == Parsed(Some(Id("b")), 4);
    assert AddAt(t2, 1) == Parsed(Some(Bin(Or, Id("a"), Id("b"))), 4);
    assert UnaryAt(t2, 0) == Parsed(Some(Bin(Or, Id("a"), Id("b"))), 5);
    assert MulAt(t2, 6) == Parsed(Some(Id("c")), 7);
  }

  /** Inputs the parser rejects. */
  lemma ParseRejects()
    ensures Parse([Op(LParen), Ident("a"), Op(AmperAmper), Ident("b")]) == None
    ensures Parse([Op(LParen), Op(RParen)]) == None
    ensures Parse([Ident("a"), Op(AmperAmper)]) == None
    ensures Parse([Op(Exclam)]) == None
    ensures Parse([]) == None
  {
    NoOperandAtBadToken([Op(LParen), Op(RParen)], 1);
  }

  /** Only what precedes the first token the grammar cannot continue with is looked at. */
  lemma TrailingTokensAreIgnored()
    ensures Parse([Ident("a"), Ident("b")]) == Some(Id("a"))
    ensures Parse([Ident("a"), Op(RParen)]) == Some(Id("a"))
  {
  }

  // Rendering an expression as tokens, and parsing it back.

  function OperatorOf(op: BinaryKind): OperatorKind
  {
    match op
    case And => AmperAmper
    case Or => PipePipe
  }

  /**
   * The tokens of an expression, parenthesising exactly the operands that
   * are binary.
   */
  function Render(e: Expr): (toks: seq<Token>)
    ensures |toks| > 0
    decreases e, 0
  {
    match e
    case Id(name) => [Ident(name)]
    case Not(x) => [Op(Exclam)] + Operand(x)
    case Bin(op, l, r) => Operand(l) + [Op(OperatorOf(op))] + Operand(r)
  }

  function Operand(e: Expr): (toks: seq<Token>)
    ensures |toks| > 0
    decreases e, 1
  {
    if e.Bin? then [Op(LParen)] + Render(e) + [Op(RParen)] else Render(e)
  }

  /** The tokens from index i on start with part. */
  predicate At(toks: seq<Token>, i: nat, part: seq<Token>)
  {
    i + |part| <= |toks| && toks[i..i + |part|] == part
  }

  lemma AtSplit(toks: seq<Token>, i: nat, a: seq<Token>, b: seq<Token>)
    requires At(toks, i, a + b)
    ensures At(toks, i, a) && At(toks, i + |a|, b)
  {
    assert toks[i..i + |a|] == (a + b)[..|a|];
    assert toks[i + |a|..i + |a| + |b|] == (a + b)[|a|..];
  }

  lemma AtToken(toks: seq<Token>, i: nat, t: Token)
    requires At(toks, i, [t])
    ensures TokenAt(toks, i) == t
  {
    assert toks[i] == toks[i..i + 1][0];
  }

  /** A rendered operand parses back as a unary expression. */
  lemma {:induction false} OperandParses(toks: seq<Token>, i: nat, e: Expr)
    requires At(toks, i, Operand(e))
    ensures UnaryAt(toks, i) == Parsed(Some(e), i + |Operand(e)|)
    decreases e, if e.Bin? then 3 else 0
  {
    match e
    case Id(name) =>
      assert Operand(e) == [Ident(name)];
      AtToken(toks, i, Ident(name));
    case Not(x) =>
      assert Operand(e) == [Op(Exclam)] + Operand(x);
      AtSplit(toks, i, [Op(Exclam)], Operand(x));
      AtToken(toks, i, Op(Exclam));
      OperandParses(toks, i + 1, x);
    case Bin(_, _, _) =>
      var body := Render(e);
      assert Operand(e) == [Op(LParen)] + body + [Op(RParen)];
      AtSplit(toks, i, [Op(LParen)] + body, [Op(RParen)]);
      AtSplit(toks, i, [Op(LParen)], body);
      AtToken(toks, i, Op(LParen));
      AtToken(toks, i + 1 + |body|, Op(RParen));
      AddParses(toks, i + 1, e);
      assert ExpressionAt(toks, i + 1) == Parsed(Some(e), i + 1 + |body|);
      assert PrimaryAt(toks, i) == Parsed(Some(e), i + 2 + |body|);
  }

  /** A rendered operand followed by a token other than `&&` parses back at the `&&` level. */
  lemma {:induction false} MulOperandParses(toks: seq<Token>, i: nat, e: Expr)
    requires At(toks, i, Operand(e))
    requires !IsOperator(TokenAt(toks, i + |Operand(e)|), AmperAmper)
    ensures MulAt(toks, i) == Parsed(Some(e), i + |Operand(e)|)
    decreases e, if e.Bin? then 4 else 1
  {
    OperandParses(toks, i, e);
    MulOfOneOperand(toks, i);
  }

  /** A rendered conjunction or operand, followed by a token other than `&&`, parses back. */
  lemma {:induction false} MulParses(toks: seq<Token>, i: nat, e: Expr)
    requires !(e.Bin? && e.op == Or)
    requires At(toks, i, Render(e))
    requires !IsOperator(TokenAt(toks, i + |Render(e)|), AmperAmper)
    ensures MulAt(toks, i) == Parsed(Some(e), i + |Render(e)|)
    decreases e, 1
  {
    match e
    case Bin(op, l, r) =>
      var a, b := Operand(l), Operand(r);
      assert Render(e) == a + [Op(AmperAmper)] + b;
      AtSplit(toks, i, a + [Op(AmperAmper)], b);
      AtSplit(toks, i, a, [Op(AmperAmper)]);
      AtToken(toks, i + |a|, Op(AmperAmper));
      OperandParses(toks, i, l);
      MulOperandParses(toks, i + |a| + 1, r);
      MulOfTwoOperands(toks, i, l, r, i + |a|, i + |Render(e)|);
    case _ =>
      OperandParses(toks, i, e);
      MulOfOneOperand(toks, i);
  }

  /** `l && r` where `l` parses as a unary expression and `r` at the `&&` level. */
  lemma MulOfTwoOperands(toks: seq<Token>, i: nat, l: Expr, r: Expr, j: nat, k: nat)
    requires UnaryAt(toks, i) == Parsed(Some(l), j)
    requires IsOperator(TokenAt(toks, j), AmperAmper)
    requires MulAt(toks, j + 1) == Parsed(Some(r), k)
    ensures MulAt(toks, i) == Parsed(Some(Bin(And, l, r)), k)
  {
  }

  /** A unary expression with no `&&` after it is the whole conjunction. */
  lemma MulOfOneOperand(toks: seq<Token>, i: nat)
    requires UnaryAt(toks, i).expr.Some?
    requires !IsOperator(TokenAt(toks, UnaryAt(toks, i).next), AmperAmper)
    ensures MulAt(toks, i) == UnaryAt(toks, i)
  {
  }

  /** A rendered expression followed by a token other than `&&` and `||` parses back. */
  lemma {:induction false} AddParses(toks: seq<Token>, i: nat, e: Expr)
    requires At(toks, i, Render(e))
    requires var t := TokenAt(toks, i + |Render(e)|); !IsOperator(t, AmperAmper) && !IsOperator(t, PipePipe)
    ensures AddAt(toks, i) == Parsed(Some(e), i + |Render(e)|)
    decreases e, 2
  {
    if e.Bin? && e.op == Or {
      var a, b := Operand(e.left), Operand(e.right);
      assert Render(e) == a + [Op(PipePipe)] + b;
      AtSplit(toks, i, a + [Op(PipePipe)], b);
      AtSplit(toks, i, a, [Op(PipePipe)]);
      AtToken(toks, i + |a|, Op(PipePipe));
      var j, k := i + |a|, i + |Render(e)|;
      MulOperandParses(toks, i, e.left);
      MulOperandParses(toks, j + 1, e.right);
      AddOfTwoOperands(toks, i, e.left, e.right, j, k);
    } else {
      MulParses(toks, i, e);
      AddOfOneOperand(toks, i);
    }
  }

  /** `l || r` where both operands parse at the `&&` level and no `||` follows. */
  lemma AddOfTwoOperands(toks: seq<Token>, i: nat, l: Expr, r: Expr, j: nat, k: nat)
    requires MulAt(toks, i) == Parsed(Some(l), j)
    requires IsOperator(TokenAt(toks, j), PipePipe)
    requires MulAt(toks, j + 1) == Parsed(Some(r), k)
    requires !IsOperator(TokenAt(toks, k), PipePipe)
    ensures AddAt(toks, i) == Parsed(Some(Bin(Or, l, r)), k)
  {
    assert AddAt(toks, j + 1) == Parsed(Some(r), k);
  }

  /** An operand at the `&&` level with no `||` after it is the whole disjunction. */
  lemma AddOfOneOperand(toks: seq<Token>, i: nat)
    requires MulAt(toks, i).expr.Some?
    requires !IsOperator(TokenAt(toks, MulAt(toks, i).next), PipePipe)
    ensures AddAt(toks, i) == MulAt(toks, i)
  {
  }

  /** Parsing inverts rendering: every expression is read back from its tokens. */
  lemma ParseInvertsRender(e: Expr)
    ensures ExpressionAt(Render(e) + [End(Nowhere)], 0) == Parsed(Some(e), |Render(e)|)
    ensures Parse(Render(e) + [End(Nowhere)]) == Some(e)
  {
    var toks := Render(e) + [End(Nowhere)];
    AtSplit(toks, 0, Render(e), [End(Nowhere)]);
    AtToken(toks, |Render(e)|, End(Nowhere));
    AddParses(toks, 0, e);
  }
}
