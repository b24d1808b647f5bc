/**
 * The token text of an expression.
 */
module ExpressionTokens {
  import opened Operators
  import opened Expressions

  datatype Token =
    | LeafToken(kind: LeafKind, id: nat)
    | OpenParenToken
    | CloseParenToken
    | OperatorToken(op: BinaryOperator)

  function Print(e: Expr): seq<Token> {
    match e
    case Leaf(kind, id) => [LeafToken(kind, id)]
    case Paren(e') => [OpenParenToken] + Print(e') + [CloseParenToken]
    case PartiallyEmitted(e') => Print(e')
    case Binary(l, op, r) => Print(l) + [OperatorToken(op)] + Print(r)
  }

  /** `Print(e) + rest`, with the continuation threaded through. */
  function PrintOnto(e: Expr, rest: seq<Token>): seq<Token> {
    match e
    case Leaf(kind, id) => [LeafToken(kind, id)] + rest
    case Paren(e') => [OpenParenToken] + PrintOnto(e', [CloseParenToken] + rest)
    case PartiallyEmitted(e') => PrintOnto(e', rest)
    case Binary(l, op, r) => PrintOnto(l, [OperatorToken(op)] + PrintOnto(r, rest))
  }

  lemma {:induction false} PrintOntoIsPrint(e: Expr, rest: seq<Token>)
    ensures PrintOnto(e, rest) == Print(e) + rest
  {
    match e
    case Leaf(_, _) =>
    case Paren(e') => PrintOntoIsPrint(e', [CloseParenToken] + rest);
    case PartiallyEmitted(e') => PrintOntoIsPrint(e', rest);
    case Binary(l, op, r) =>
      PrintOntoIsPrint(r, rest);
      PrintOntoIsPrint(l, [OperatorToken(op)] + PrintOnto(r, rest));
  }
}
