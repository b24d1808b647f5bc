/**
 * Expression trees, the binary half of the parenthesizer, and `createBinaryExpression`.
 */
module Expressions {
  import opened Operators
  import opened Wrappers

  /** The kinds between FirstLiteralToken and LastLiteralToken that are expressions; JSX text is not. */
  datatype LiteralKind =
    | NumericLiteral
    | BigIntLiteral
    | StringLiteral
    | RegularExpressionLiteral
    | NoSubstitutionTemplateLiteral

  /** Operands that are left-hand-side expressions; each stands as one token in the text of a tree. */
  datatype LeafKind =
    | Identifier
    | ThisKeyword
    | Literal(kind: LiteralKind)
    | CallExpression                // of an identifier, without arguments
    | PropertyAccessExpression      // of an identifier

  datatype Expr =
    | Leaf(kind: LeafKind, id: nat)
    | Paren(expression: Expr)
    | PartiallyEmitted(expression: Expr)
    | Binary(left: Expr, op: BinaryOperator, right: Expr)

  /** `skipPartiallyEmittedExpressions` */
  function Skip(e: Expr): (r: Expr)
    ensures !r.PartiallyEmitted?
  {
    if e.PartiallyEmitted? then Skip(e.expression) else e
  }

  function LeafPrecedence(kind: LeafKind): int {
    match kind
    case CallExpression => LEFT_HAND_SIDE
    case PropertyAccessExpression => MEMBER
    case _ => PRIMARY
  }

  /** `getExpressionPrecedence` of the emitted (skipped) operand. */
  function Precedence(e: Expr): int {
    match e
    case Leaf(kind, _) => LeafPrecedence(kind)
    case Paren(_) => PRIMARY
    case PartiallyEmitted(e') => Precedence(e')
    case Binary(_, op, _) => OperatorPrecedence(op)
  }

  /** `getExpressionAssociativity` of the emitted operand: every non-binary kind here is Left. */
  function ExpressionAssociativity(e: Expr): Associativity {
    match e
    case PartiallyEmitted(e') => ExpressionAssociativity(e')
    case Binary(_, op, _) => OperatorAssociativity(op)
    case _ => Left
  }

  /** `getLiteralKindOfBinaryPlusOperand`; None stands for SyntaxKind::Unknown. */
  function LiteralKindOfPlusOperand(e: Expr): Option<LiteralKind> {
    match e
    case PartiallyEmitted(e') => LiteralKindOfPlusOperand(e')
    case Leaf(Literal(kind), _) => Some(kind)
    case Binary(l, PlusToken, r) =>
      var leftKind := LiteralKindOfPlusOperand(l);
      if leftKind.Some? && leftKind == LiteralKindOfPlusOperand(r) then leftKind else None
    case _ => None
  }

  /** All leaves under `+` and partially emitted wrappers are literals of one kind, and there is nothing else. */
  predicate AddsLiterals(kind: LiteralKind, e: Expr) {
    match e
    case Leaf(leaf, _) => leaf == Literal(kind)
    case PartiallyEmitted(e') => AddsLiterals(kind, e')
    case Binary(l, op, r) => op == PlusToken && AddsLiterals(kind, l) && AddsLiterals(kind, r)
    case Paren(_) => false
  }

  lemma {:induction false} LiteralKindIff(e: Expr, kind: LiteralKind)
    ensures LiteralKindOfPlusOperand(e) == Some(kind) <==> AddsLiterals(kind, e)
  {
    match e
    case PartiallyEmitted(e') => LiteralKindIff(e', kind);
    case Binary(l, _, r) => LiteralKindIff(l, kind); LiteralKindIff(r, kind);
    case _ =>
  }

  /** `binaryOperandNeedsParentheses` */
  predicate OperandNeedsParens(op: BinaryOperator, operand: Expr, isLeftSide: bool, leftOperand: Option<Expr>) {
    var emitted := Skip(operand);
    match CompareValues(Precedence(emitted), OperatorPrecedence(op))
    case LessThan => true
    case GreaterThan => false
    case EqualTo =>
      if isLeftSide then
        OperatorAssociativity(op) == Right
      else if emitted.Binary? && emitted.op == op && HasAssociativeProperty(op) then
        false
      else if emitted.Binary? && emitted.op == op && op == PlusToken && leftOperand.Some?
              && LiteralKindOfPlusOperand(leftOperand.value).Some?
              && LiteralKindOfPlusOperand(leftOperand.value) == LiteralKindOfPlusOperand(emitted) then
        false
      else
        ExpressionAssociativity(emitted) == Left
  }

  /** `parenthesizeBinaryOperand` */
  function ParenthesizeOperand(op: BinaryOperator, operand: Expr, isLeftSide: bool, leftOperand: Option<Expr>): Expr {
    if Skip(operand).Paren? then operand
    else if OperandNeedsParens(op, operand, isLeftSide, leftOperand) then Paren(operand)
    else operand
  }

  /** `createBinaryExpression`: the right side is judged against the finished left side. */
  function CreateBinary(left: Expr, op: BinaryOperator, right: Expr): Expr {
    var l := ParenthesizeOperand(op, left, true, None);
    var r := ParenthesizeOperand(op, right, false, Some(l));
    Binary(l, op, r)
  }

  /** Trees made of factory calls only. */
  predicate Built(e: Expr) {
    match e
    case Leaf(_, _) => true
    case Paren(e') => Built(e')
    case PartiallyEmitted(e') => Built(e')
    case Binary(l, op, r) => Built(l) && Built(r) && CreateBinary(l, op, r) == e
  }

  /** The factory's output is a fixed point of the factory, so `Built` is closed under it. */
  lemma CreateBinaryIsBuilt(l: Expr, op: BinaryOperator, r: Expr)
    requires Built(l) && Built(r)
    ensures Built(CreateBinary(l, op, r))
  {
  }

  /** Removes the nodes that do not change what an expression means. */
  function Strip(e: Expr): Expr {
    match e
    case Leaf(_, _) => e
    case Paren(e') => Strip(e')
    case PartiallyEmitted(e') => Strip(e')
    case Binary(l, op, r) => Binary(Strip(l), op, Strip(r))
  }

  /** The factory inserts parentheses and changes nothing else. */
  lemma CreateBinaryOnlyAddsParens(l: Expr, op: BinaryOperator, r: Expr)
    ensures Strip(CreateBinary(l, op, r)) == Binary(Strip(l), op, Strip(r))
  {
  }

  /** Builds a tree bottom-up with the factory, ignoring the parentheses it already has. */
  function Rebuild(e: Expr): (r: Expr)
    ensures Built(r)
  {
    match e
    case Leaf(_, _) => e
    case Paren(e') => Rebuild(e')
    case PartiallyEmitted(e') => Rebuild(e')
    case Binary(l, op, r) =>
      CreateBinaryIsBuilt(Rebuild(l), op, Rebuild(r));
      CreateBinary(Rebuild(l), op, Rebuild(r))
  }

  lemma {:induction false} RebuildKeepsTree(e: Expr)
    ensures Strip(Rebuild(e)) == Strip(e)
  {
    match e
    case Leaf(_, _) =>
    case Paren(e') => RebuildKeepsTree(e');
    case PartiallyEmitted(e') => RebuildKeepsTree(e');
    case Binary(l, op, r) =>
      RebuildKeepsTree(l);
      RebuildKeepsTree(r);
      CreateBinaryOnlyAddsParens(Rebuild(l), op, Rebuild(r));
  }

  /** `isLeftHandSideExpression` */
  predicate IsLeftHandSide(e: Expr) {
    Skip(e).Leaf? || Skip(e).Paren?
  }

  /** The left-hand-side expressions are the nodes on the levels from `LeftHandSide` up. */
  lemma {:induction false} LeftHandSideIff(e: Expr)
    ensures IsLeftHandSide(e) <==> Precedence(e) >= LEFT_HAND_SIDE
  {
    match e
    case PartiallyEmitted(e') => LeftHandSideIff(e');
    case _ =>
  }

  /** Assignment nodes assign to left-hand-side expressions, as the grammar of the precedence enum asks. */
  predicate ValidTargets(e: Expr) {
    match e
    case Leaf(_, _) => true
    case Paren(e') => ValidTargets(e')
    case PartiallyEmitted(e') => ValidTargets(e')
    case Binary(l, op, r) => ValidTargets(l) && ValidTargets(r) && (op.Assignment? ==> IsLeftHandSide(l))
  }
}
