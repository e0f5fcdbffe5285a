/**
 * The expression tree shared by the parser and the simplifier
 * (include/expression.hpp, src/expression.cpp).
 *
 * The source builds the tree from heap nodes owned through unique_ptr and
 * copies it with a virtual clone(); here a node is an immutable value, so a
 * copy can never share a child with its original.
 */
module Expressions {

  /** expression::type */
  datatype ExprType = BinaryType | UnaryType | IdentifierType

  /** expression_binary::kind (expression_unary::kind has the single member NOT). */
  datatype BinaryKind = And | Or

  datatype Expr =
    | Bin(op: BinaryKind, left: Expr, right: Expr)
    | Not(inner: Expr)
    | Id(name: string)

  /** The virtual type() of each node kind. */
  function TypeOf(e: Expr): (t: ExprType)
    ensures t == BinaryType <==> e.Bin?
    ensures t == UnaryType <==> e.Not?
    ensures t == IdentifierType <==> e.Id?
  {
    match e
    case Bin(_, _, _) => BinaryType
    case Not(_) => UnaryType
    case Id(_) => IdentifierType
  }

  /** The virtual clone(): rebuilds the node and clones its children. */
  function Clone(e: Expr): (c: Expr)
    ensures c == e
  {
    match e
    case Bin(op, l, r) => Bin(op, Clone(l), Clone(r))
    case Not(x) => Not(Clone(x))
    case Id(n) => Id(n)
  }

  /** The copy constructor of expression_binary: same operator, cloned children. */
  function CopyBinary(src: Expr): (c: Expr)
    requires src.Bin?
    ensures c == src
  {
    Bin(src.op, Clone(src.left), Clone(src.right))
  }

  /** The copy constructor of expression_unary: same operator, cloned inner. */
  function CopyUnary(src: Expr): (c: Expr)
    requires src.Not?
    ensures c == src
  {
    Not(Clone(src.inner))
  }

  /** The copy constructor of expression_identifier: same name. */
  function CopyIdentifier(src: Expr): (c: Expr)
    requires src.Id?
    ensures c == src
  {
    Id(src.name)
  }

  /**
   * operator==(const expression&, const expression&): nodes of different
   * kinds differ; nodes of the same kind are compared by the per-kind
   * operator.
   *
   * The source's UNARY branch casts the right operand to expression_binary&,
   * which throws std::bad_cast whenever two unary nodes are compared. This
   * model dispatches to the unary comparison, as the other two branches and
   * the per-kind operators make evident was meant.
   */
  function Equals(l: Expr, r: Expr): (eq: bool)
    ensures eq <==> l == r
    decreases l, 1
  {
    if TypeOf(l) != TypeOf(r) then false
    else
      match l
      case Bin(_, _, _) => BinaryEquals(l, r)
      case Not(_) => UnaryEquals(l, r)
      case Id(_) => IdentifierEquals(l, r)
  }

  /** operator==(const expression_binary&, const expression_binary&) */
  function BinaryEquals(l: Expr, r: Expr): (eq: bool)
    requires l.Bin? && r.Bin?
    ensures eq <==> l.op == r.op && l.left == r.left && l.right == r.right
    decreases l, 0
  {
    l.op == r.op && Equals(l.left, r.left) && Equals(l.right, r.right)
  }

  /** operator==(const expression_unary&, const expression_unary&) */
  function UnaryEquals(l: Expr, r: Expr): (eq: bool)
    requires l.Not? && r.Not?
    ensures eq <==> l.inner == r.inner
    decreases l, 0
  {
    Equals(l.inner, r.inner)
  }

  /** operator==(const expression_identifier&, const expression_identifier&) */
  function IdentifierEquals(l: Expr, r: Expr): (eq: bool)
    requires l.Id? && r.Id?
    ensures eq <==> l == r
  {
    l.name == r.name
  }

  /** operator!=(const expression&, const expression&) */
  function NotEquals(l: Expr, r: Expr): (ne: bool)
    ensures ne <==> l != r
  {
    !Equals(l, r)
  }

  /** operator!=(const expression_binary&, const expression_binary&) */
  function BinaryNotEquals(l: Expr, r: Expr): (ne: bool)
    requires l.Bin? && r.Bin?
    ensures ne <==> l.op != r.op || l.left != r.left || l.right != r.right
  {
    !BinaryEquals(l, r)
  }

  /** operator!=(const expression_unary&, const expression_unary&) */
  function UnaryNotEquals(l: Expr, r: Expr): (ne: bool)
    requires l.Not? && r.Not?
    ensures ne <==> l.inner != r.inner
  {
    !UnaryEquals(l, r)
  }

  /** operator!=(const expression_identifier&, const expression_identifier&) */
  function IdentifierNotEquals(l: Expr, r: Expr): (ne: bool)
    requires l.Id? && r.Id?
    ensures ne <==> l != r
  {
    !IdentifierEquals(l, r)
  }

  /** Nodes of different kinds are never equal, whatever their contents. */
  lemma DifferentKindsDiffer(l: Expr, r: Expr)
    requires TypeOf(l) != TypeOf(r)
    ensures !Equals(l, r) && NotEquals(l, r)
  {
  }

  /** make_binary */
  function MakeBinary(kind: BinaryKind, left: Expr, right: Expr): (e: Expr)
    ensures TypeOf(e) == BinaryType
    ensures e.op == kind && e.left == left && e.right == right
  {
    Bin(kind, left, right)
  }

  /** make_unary (with the only unary kind, NOT) */
  function MakeUnary(inner: Expr): (e: Expr)
    ensures TypeOf(e) == UnaryType
    ensures e.inner == inner
  {
    Not(inner)
  }

  /** make_identifier */
  function MakeIdentifier(name: string): (e: Expr)
    ensures TypeOf(e) == IdentifierType
    ensures e.name == name
  {
    Id(name)
  }

  /**
   * The boolean value of an expression when exactly the identifiers in
   * `truths` are true. The source never evaluates expressions; this is the
   * reference meaning against which the simplifier's rewrites are checked.
   */
  function Eval(e: Expr, truths: set<string>): bool
  {
    match e
    case Bin(And, l, r) => Eval(l, truths) && Eval(r, truths)
    case Bin(Or, l, r) => Eval(l, truths) || Eval(r, truths)
    case Not(x) => !Eval(x, truths)
    case Id(n) => n in truths
  }
}
