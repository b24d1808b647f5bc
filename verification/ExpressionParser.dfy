/**
 * The parser's precedence climbing: `parseExpression`, `parseAssignmentExpressionOrHigher`,
 * `parseBinaryExpressionOrHigher`, `parseBinaryExpressionRest` and `parseUnaryExpressionOrHigher`,
 * with the trial for type arguments behind every primary expression.
 */
module ExpressionParser {
  import opened Operators
  import opened Expressions
  import opened ExpressionTokens
  import opened TypeArguments

  /**
   * A node and the unread tokens; NoParse where the parser would report an error. Diverted where it
   * takes a `<` as the start of type arguments, so that the tree it ends with holds an expression with
   * type arguments, a call or a tagged template made of one, or where that trial throws.
   */
  datatype Parse = NoParse | Diverted | Parsed(node: Expr, rest: seq<Token>)

  predicate AtOperator(ts: seq<Token>) {
    ts != [] && ts[0].OperatorToken?
  }

  /** `consumeCurrentOperator` in `parseBinaryExpressionRest` */
  predicate Consumes(precedence: int, op: BinaryOperator) {
    if op == AsteriskAsteriskToken then BinaryOperatorPrecedence(op) >= precedence
    else BinaryOperatorPrecedence(op) > precedence
  }

  /** `parseMemberExpressionRest` behind a primary expression. */
  function ParseMemberRest(node: Expr, rest: seq<Token>): (r: Parse)
    ensures r.Parsed? ==> r == Parsed(node, rest)
  {
    if OpensTypeArguments(rest) then Diverted else Parsed(node, rest)
  }

  /** A leaf, or `parseParenthesizedExpression` */
  function ParsePrimary(ts: seq<Token>): (r: Parse)
    ensures r.Parsed? ==> |r.rest| < |ts|
    decreases |ts|, 0
  {
    if ts == [] then NoParse
    else match ts[0]
      case LeafToken(kind, id) => ParseMemberRest(Leaf(kind, id), ts[1..])
      case OpenParenToken =>
        var inner := ParseExpression(ts[1..]);
        if !inner.Parsed? then inner
        else if inner.rest != [] && inner.rest[0] == CloseParenToken then
          ParseMemberRest(Paren(inner.node), inner.rest[1..])
        else
          NoParse
      case _ => NoParse
  }

  /** `parseUnaryExpressionOrHigher` for operands without a prefix operator */
  function ParseUnary(ts: seq<Token>): (r: Parse)
    ensures r.Parsed? ==> |r.rest| < |ts|
    decreases |ts|, 1
  {
    var operand := ParsePrimary(ts);
    if operand.Parsed? && AtOperator(operand.rest) && operand.rest[0].op == AsteriskAsteriskToken then
      ParseBinaryRest(BinaryOperatorPrecedence(AsteriskAsteriskToken), operand.node, operand.rest)
    else
      operand
  }

  function ParseBinary(precedence: int, ts: seq<Token>): (r: Parse)
    ensures r.Parsed? ==> |r.rest| < |ts|
    decreases |ts|, 2
  {
    var left := ParseUnary(ts);
    if !left.Parsed? then left else ParseBinaryRest(precedence, left.node, left.rest)
  }

  function ParseBinaryRest(precedence: int, left: Expr, ts: seq<Token>): (r: Parse)
    ensures r.Parsed? ==> |r.rest| <= |ts|
    decreases |ts|, 3
  {
    if AtOperator(ts) && Consumes(precedence, ts[0].op) then
      var right := ParseBinary(BinaryOperatorPrecedence(ts[0].op), ts[1..]);
      if !right.Parsed? then right
      else ParseBinaryRest(precedence, CreateBinary(left, ts[0].op, right.node), right.rest)
    else
      Parsed(left, ts)
  }

  function ParseAssignment(ts: seq<Token>): (r: Parse)
    ensures r.Parsed? ==> |r.rest| < |ts|
    decreases |ts|, 4
  {
    var left := ParseBinary(LOWEST, ts);
    if left.Parsed? && IsLeftHandSide(left.node) && AtOperator(left.rest) && left.rest[0].op.Assignment? then
      var right := ParseAssignment(left.rest[1..]);
      if !right.Parsed? then right
      else Parsed(CreateBinary(left.node, left.rest[0].op, right.node), right.rest)
    else
      left
  }

  function ParseExpression(ts: seq<Token>): (r: Parse)
    ensures r.Parsed? ==> |r.rest| < |ts|
    decreases |ts|, 5
  {
    var left := ParseAssignment(ts);
    if !left.Parsed? then left else ParseCommaRest(left.node, left.rest)
  }

  function ParseCommaRest(left: Expr, ts: seq<Token>): (r: Parse)
    ensures r.Parsed? ==> |r.rest| <= |ts|
    decreases |ts|, 6
  {
    if AtOperator(ts) && ts[0].op == CommaToken then
      var right := ParseAssignment(ts[1..]);
      if !right.Parsed? then right
      else ParseCommaRest(CreateBinary(left, CommaToken, right.node), right.rest)
    else
      Parsed(left, ts)
  }
}
