/**
 * The tree rewriter of src/simplifier.cpp: double-negation elimination,
 * De Morgan's laws pushed through NOT, and X op X -> X.
 *
 * Simplify and its three per-kind overloads model the code as written. The
 * binary overload returns a clone of the ORIGINAL node when the simplified
 * children differ, so its children stay unsimplified. SimplifyFixed is the
 * evidently intended rewriter that rebuilds the node from the simplified
 * children; it is idempotent, while Simplify is not.
 */
module Simplifier {
  import opened Expressions

  /** Number of identifier and binary nodes. NOT nodes do not count. */
  function Weight(e: Expr): nat
  {
    match e
    case Bin(_, l, r) => 1 + Weight(l) + Weight(r)
    case Not(x) => Weight(x)
    case Id(_) => 1
  }

  /** Number of nodes of any kind. */
  function Size(e: Expr): nat
  {
    match e
    case Bin(_, l, r) => 1 + Size(l) + Size(r)
    case Not(x) => 1 + Size(x)
    case Id(_) => 1
  }

  /** The connective De Morgan's laws turn `op` into under a negation. */
  function Dual(op: BinaryKind): BinaryKind
  {
    if op == And then Or else And
  }

  /**
   * simplify(const expression&): dispatch on the node kind.
   *
   * The recursion is not structural: the unary overload simplifies the
   * negation of a child of an already simplified tree. It terminates because
   * no rewrite increases Weight, and every recursive call either lowers
   * Weight or keeps it and lowers Size.
   */
  function Simplify(e: Expr): (r: Expr)
    ensures Weight(r) <= Weight(e)
    ensures r.Not? ==> r.inner.Id?
    decreases Weight(e), Size(e), 1
  {
    match TypeOf(e)
    case IdentifierType => SimplifyIdentifier(e)
    case BinaryType => SimplifyBinary(e)
    case UnaryType => SimplifyUnary(e)
  }

  /** simplify(const expression_unary&) */
  function SimplifyUnary(e: Expr): (r: Expr)
    requires e.Not?
    ensures Weight(r) <= Weight(e)
    ensures r.Not? ==> r.inner.Id?
    decreases Weight(e), Size(e), 0
  {
    var simpInner := Simplify(e.inner);
    match simpInner
    case Not(y) =>
      Clone(y)
    case Bin(op, a, b) =>
      var simpLeft := Simplify(MakeUnary(Clone(a)));
      var simpRight := Simplify(MakeUnary(Clone(b)));
      if op == And then MakeBinary(Or, simpLeft, simpRight)
      else MakeBinary(And, simpLeft, simpRight)
    case Id(_) =>
      MakeUnary(simpInner)
  }

  /** simplify(const expression_binary&), as written. */
  function SimplifyBinary(e: Expr): (r: Expr)
    requires e.Bin?
    ensures Weight(r) <= Weight(e)
    ensures r.Not? ==> r.inner.Id?
    decreases Weight(e), Size(e), 0
  {
    var simpLeft := Simplify(e.left);
    var simpRight := Simplify(e.right);
    if Equals(simpLeft, simpRight) then simpLeft
    else Clone(e)
  }

  /** simplify(const expression_identifier&) */
  function SimplifyIdentifier(e: Expr): (r: Expr)
    requires e.Id?
    ensures r.Id? && r.name == e.name
  {
    Clone(e)
  }

  // The rewrite rules, one lemma each.

  /** An identifier simplifies to an equal identifier. */
  lemma SimplifyKeepsIdentifier(name: string)
    ensures Simplify(Id(name)) == Id(name)
  {
  }

  /** X op X -> X: equal simplified operands collapse to the left one. */
  lemma SimplifyCollapsesEqualOperands(op: BinaryKind, l: Expr, r: Expr)
    requires Simplify(l) == Simplify(r)
    ensures Simplify(Bin(op, l, r)) == Simplify(l)
  {
  }

  /** Distinct simplified operands: the original node is kept, children untouched. */
  lemma SimplifyKeepsDistinctOperands(op: BinaryKind, l: Expr, r: Expr)
    requires Simplify(l) != Simplify(r)
    ensures Simplify(Bin(op, l, r)) == Bin(op, l, r)
  {
  }

  /** Double negation: NOT over a simplified NOT Y yields Y. */
  lemma SimplifyEliminatesDoubleNegation(x: Expr)
    requires Simplify(x).Not?
    ensures Simplify(Not(x)) == Simplify(x).inner
  {
  }

  /** De Morgan: NOT over a simplified A op B yields the dual of the simplified negations. */
  lemma SimplifyAppliesDeMorgan(x: Expr)
    requires Simplify(x).Bin?
    ensures var s := Simplify(x);
      Simplify(Not(x)) == Bin(Dual(s.op), Simplify(Not(s.left)), Simplify(Not(s.right)))
  {
  }

  /** NOT over a simplified identifier stays a negated identifier. */
  lemma SimplifyKeepsNegatedIdentifier(x: Expr)
    requires Simplify(x).Id?
    ensures Simplify(Not(x)) == Not(Simplify(x))
  {
  }

  /** Every rewrite is a law of boolean logic, so the value never changes. */
  lemma {:induction false} SimplifyPreservesMeaning(e: Expr, truths: set<string>)
    ensures Eval(Simplify(e), truths) == Eval(e, truths)
    decreases Weight(e), Size(e)
  {
    match e
    case Id(_) =>
    case Bin(op, l, r) =>
      SimplifyPreservesMeaning(l, truths);
      SimplifyPreservesMeaning(r, truths);
    case Not(x) =>
      SimplifyPreservesMeaning(x, truths);
      var s := Simplify(x);
      if s.Bin? {
        SimplifyPreservesMeaning(Not(s.left), truths);
        SimplifyPreservesMeaning(Not(s.right), truths);
      }
  }

  /** Worked examples of the rules, as the code computes them. */
  lemma SimplifyExamples()
    ensures Simplify(Not(Not(Id("a")))) == Id("a")
    ensures Simplify(Not(Bin(And, Id("a"), Id("b")))) == Bin(Or, Not(Id("a")), Not(Id("b")))
    ensures Simplify(Bin(And, Id("a"), Id("a"))) == Id("a")
    ensures Simplify(Bin(Or, Id("a"), Id("a"))) == Id("a")
    ensures Simplify(Not(Bin(Or, Id("a"), Bin(And, Id("a"), Id("b")))))
         == Bin(And, Not(Id("a")), Bin(Or, Not(Id("a")), Not(Id("b"))))
  {
  }

  /**
   * The code as written leaves the operands of a binary node unsimplified
   * when their simplified forms differ: `!!a && b` is returned unchanged.
   */
  lemma SimplifyLeavesStaleOperands()
    ensures Simplify(Bin(And, Not(Not(Id("a"))), Id("b"))) == Bin(And, Not(Not(Id("a"))), Id("b"))
  {
  }

  /**
   * Consequently Simplify is not idempotent:
   * `!((a && b) || (!!a && b))` simplifies to `(!a || !b) && (!a || !b)`,
   * which, under the structural equality this model gives `==`, simplifies
   * further to `!a || !b`. In the source that second pass compares `!a`
   * with `!b` and throws std::bad_cast (see Expressions.Equals); the first
   * pass already leaves `X && X` standing.
   */
  lemma SimplifyIsNotIdempotent()
    ensures var e := Not(Bin(Or, Bin(And, Id("a"), Id("b")), Bin(And, Not(Not(Id("a"))), Id("b"))));
      var once := Bin(Or, Not(Id("a")), Not(Id("b")));
      Simplify(e) == Bin(And, once, once) && Simplify(Simplify(e)) == once
  {
  }

  // The evidently intended rewriter.

  /**
   * simplify with the binary rule rebuilt from the simplified operands
   * (the other rules as in Simplify).
   */
  function SimplifyFixed(e: Expr): (r: Expr)
    ensures Weight(r) <= Weight(e)
    decreases Weight(e), Size(e)
  {
    match e
    case Id(_) => e
    case Bin(op, l, r) =>
      var simpLeft := SimplifyFixed(l);
      var simpRight := SimplifyFixed(r);
      if simpLeft == simpRight then simpLeft else Bin(op, simpLeft, simpRight)
    case Not(x) =>
      match SimplifyFixed(x)
      case Not(y) => y
      case Bin(op, a, b) => Bin(Dual(op), SimplifyFixed(Not(a)), SimplifyFixed(Not(b)))
      case Id(n) => Not(Id(n))
  }

  /**
   * The trees no rule applies to: NOT only over identifiers, and no binary
   * node with equal operands.
   */
  predicate Normal(e: Expr)
  {
    match e
    case Id(_) => true
    case Not(x) => x.Id?
    case Bin(_, l, r) => l != r && Normal(l) && Normal(r)
  }

  /** A normal tree is left unchanged. */
  lemma {:induction false} SimplifyFixedKeepsNormal(e: Expr)
    requires Normal(e)
    ensures SimplifyFixed(e) == e
  {
    match e
    case Id(_) =>
    case Not(x) =>
    case Bin(op, l, r) =>
      SimplifyFixedKeepsNormal(l);
      SimplifyFixedKeepsNormal(r);
  }

  /** Negating a normal tree twice through SimplifyFixed gives it back. */
  lemma {:induction false} SimplifyFixedNegationInvolutive(a: Expr)
    requires Normal(a)
    ensures SimplifyFixed(Not(SimplifyFixed(Not(a)))) == a
    decreases Weight(a), 0
  {
    match a
    case Id(_) =>
    case Not(x) =>
      assert SimplifyFixed(a) == a;
      assert SimplifyFixed(Not(a)) == x;
    case Bin(op, l, r) =>
      SimplifyFixedKeepsNormal(a);
      var nl, nr := SimplifyFixed(Not(l)), SimplifyFixed(Not(r));
      assert SimplifyFixed(Not(a)) == Bin(Dual(op), nl, nr);
      SimplifyFixedIsNormal(Not(l));
      SimplifyFixedIsNormal(Not(r));
      SimplifyFixedNegationInvolutive(l);
      SimplifyFixedNegationInvolutive(r);
      assert nl != nr;
      SimplifyFixedKeepsNormal(Bin(Dual(op), nl, nr));
  }

  /** Every result of SimplifyFixed is normal. */
  lemma {:induction false} SimplifyFixedIsNormal(e: Expr)
    ensures Normal(SimplifyFixed(e))
    decreases Weight(e), Size(e)
  {
    match e
    case Id(_) =>
    case Bin(op, l, r) =>
      SimplifyFixedIsNormal(l);
      SimplifyFixedIsNormal(r);
    case Not(x) =>
      SimplifyFixedIsNormal(x);
      var s := SimplifyFixed(x);
      if s.Bin? {
        SimplifyFixedIsNormal(Not(s.left));
        SimplifyFixedIsNormal(Not(s.right));
        SimplifyFixedNegationInvolutive(s.left);
        SimplifyFixedNegationInvolutive(s.right);
      }
  }

  /** The corrected rewriter is idempotent. */
  lemma SimplifyFixedIdempotent(e: Expr)
    ensures SimplifyFixed(SimplifyFixed(e)) == SimplifyFixed(e)
  {
    SimplifyFixedIsNormal(e);
    SimplifyFixedKeepsNormal(SimplifyFixed(e));
  }

  /** The corrected rewriter preserves meaning too. */
  lemma {:induction false} SimplifyFixedPreservesMeaning(e: Expr, truths: set<string>)
    ensures Eval(SimplifyFixed(e), truths) == Eval(e, truths)
    decreases Weight(e), Size(e)
  {
    match e
    case Id(_) =>
    case Bin(op, l, r) =>
      SimplifyFixedPreservesMeaning(l, truths);
      SimplifyFixedPreservesMeaning(r, truths);
    case Not(x) =>
      SimplifyFixedPreservesMeaning(x, truths);
      var s := SimplifyFixed(x);
      if s.Bin? {
        SimplifyFixedPreservesMeaning(Not(s.left), truths);
        SimplifyFixedPreservesMeaning(Not(s.right), truths);
      }
  }

  /** On the stale-operand input the corrected rewriter does simplify the operand. */
  lemma SimplifyFixedSimplifiesOperands()
    ensures SimplifyFixed(Bin(And, Not(Not(Id("a"))), Id("b"))) == Bin(And, Id("a"), Id("b"))
  {
  }
}
