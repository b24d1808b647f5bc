/**
 * The parser read backwards: which token texts are expressions, and of which tree.
 */
module ExpressionSource {
  import opened Operators
  import opened Expressions
  import opened ExpressionTokens
  import opened TypeArguments
  import opened ExpressionParser
  import opened ExpressionRoundTrip

  /** Without emitted wrappers, and no bare right operand on a level that groups to the left. */
  predicate LeftGrouped(e: Expr) {
    match e
    case Leaf(_, _) => true
    case Paren(e') => LeftGrouped(e')
    case PartiallyEmitted(_) => false
    case Binary(l, op, r) => LeftGrouped(l) && LeftGrouped(r) && !SameLeftLevel(r, op)
  }

  lemma {:induction false} LeftGroupedIsCanonical(e: Expr)
    requires LeftGrouped(e)
    ensures Canon(e) == e
  {
    match e
    case Leaf(_, _) =>
    case Paren(e') => LeftGroupedIsCanonical(e');
    case Binary(l, _, r) => LeftGroupedIsCanonical(l); LeftGroupedIsCanonical(r);
  }

  /** `e` is a factory tree and its text is what stands in `ts` in front of `rest`. */
  predicate Reads(e: Expr, ts: seq<Token>, rest: seq<Token>) {
    PrintOnto(e, rest) == ts && Built(e) && LeftGrouped(e) && Readable(e, rest)
  }

  /** An operator and its operands, as the parser's calls of the factory join them. */
  lemma JoinReads(l: Expr, op: BinaryOperator, r: Expr, ts: seq<Token>, tail: seq<Token>, rest: seq<Token>)
    requires Reads(l, ts, [OperatorToken(op)] + tail) && Reads(r, tail, rest)
    requires FitsLeft(op, l) && FitsRight(op, r) && (op.Assignment? ==> IsLeftHandSide(l))
    requires Precedence(r) > OperatorPrecedence(op) || OperatorAssociativity(op) == Right
    ensures CreateBinary(l, op, r) == Binary(l, op, r) && Reads(Binary(l, op, r), ts, rest)
  {
    FittingOperandsStayBare(l, op, r);
  }

  lemma {:induction false} PrimaryReads(ts: seq<Token>)
    requires ParsePrimary(ts).Parsed?
    ensures var p := ParsePrimary(ts); Reads(p.node, ts, p.rest) && !p.node.Binary?
    decreases |ts|, 0
  {
    hide ParseExpression, OpensTypeArguments;
    if ts[0] == OpenParenToken {
      ExpressionReads(ts[1..]);
      var inner := ParseExpression(ts[1..]);
      assert inner.rest == [CloseParenToken] + inner.rest[1..] && ts == [OpenParenToken] + ts[1..];
    } else {
      assert ts == [ts[0]] + ts[1..];
    }
  }

  lemma {:induction false} BinaryReads(precedence: int, ts: seq<Token>)
    requires COMMA <= precedence <= EXPONENTIATION && ParseBinary(precedence, ts).Parsed?
    ensures var p := ParseBinary(precedence, ts);
            Reads(p.node, ts, p.rest) && Climbable(precedence, p.node) && Stops(precedence, p.rest)
    decreases |ts|, 2
  {
    hide Reads, ParsePrimary, ParseBinary, ParseBinaryRest;
    UnaryIsAbsorbed(precedence, ts);
    var operand := ParsePrimary(ts);
    PrimaryReads(ts);
    NotEmitted(operand.node, ts, operand.rest);
    BinaryRestReads(precedence, operand.node, operand.rest, ts);
    RestStops(precedence, operand.node, operand.rest);
  }

  lemma NotEmitted(e: Expr, ts: seq<Token>, rest: seq<Token>)
    requires Reads(e, ts, rest)
    ensures Skip(e) == e
  {
  }

  lemma {:induction false} BinaryRestReads(precedence: int, left: Expr, tail: seq<Token>, ts: seq<Token>)
    requires COMMA <= precedence <= EXPONENTIATION && ParseBinaryRest(precedence, left, tail).Parsed?
    requires Reads(left, ts, tail) && |tail| < |ts| && Climbable(precedence, left) && HoldsTogether(left, tail)
    ensures var p := ParseBinaryRest(precedence, left, tail);
            Reads(p.node, ts, p.rest) && Climbable(precedence, p.node)
    decreases |tail|, 3
  {
    if AtOperator(tail) && Consumes(precedence, tail[0].op) {
      var op := tail[0].op;
      var right := ParseBinary(BinaryOperatorPrecedence(op), tail[1..]);
      BinaryReads(BinaryOperatorPrecedence(op), tail[1..]);
      NotEmitted(left, ts, tail);
      NotEmitted(right.node, tail[1..], right.rest);
      OperandsFit(precedence, left, op, right.node, tail);
      hide Reads, Stops, Climbable;
      assert tail == [OperatorToken(op)] + tail[1..];
      JoinReads(left, op, right.node, ts, tail[1..], right.rest);
      JoinHolds(precedence, left, op, right.node, right.rest);
      BinaryRestReads(precedence, Binary(left, op, right.node), right.rest, ts);
    }
  }

  lemma OperandsFit(precedence: int, left: Expr, op: BinaryOperator, right: Expr, tail: seq<Token>)
    requires COMMA <= precedence && Consumes(precedence, op) && AtOperator(tail) && tail[0].op == op
    requires Skip(left) == left && Skip(right) == right
    requires HoldsTogether(left, tail) && Climbable(BinaryOperatorPrecedence(op), right)
    ensures FitsLeft(op, left) && FitsRight(op, right) && !op.Assignment?
    ensures Precedence(right) > OperatorPrecedence(op) || OperatorAssociativity(op) == Right
    ensures BinaryOperatorPrecedence(op) == OperatorPrecedence(op)
  {
  }

  lemma JoinHolds(precedence: int, left: Expr, op: BinaryOperator, right: Expr, rest: seq<Token>)
    requires Consumes(precedence, op) && COMMA <= precedence && Stops(BinaryOperatorPrecedence(op), rest)
    ensures Climbable(precedence, Binary(left, op, right)) && HoldsTogether(Binary(left, op, right), rest)
  {
  }

  lemma {:induction false} AssignmentReads(ts: seq<Token>)
    requires ParseAssignment(ts).Parsed?
    ensures var p := ParseAssignment(ts); Reads(p.node, ts, p.rest) && Precedence(p.node) >= ASSIGNMENT
    decreases |ts|, 4
  {
    hide Reads, ParseBinary, Built, LeftGrouped, Readable;
    var left := ParseBinary(LOWEST, ts);
    BinaryReads(LOWEST, ts);
    NotEmitted(left.node, ts, left.rest);
    if IsLeftHandSide(left.node) && AtOperator(left.rest) && left.rest[0].op.Assignment? {
      var right := ParseAssignment(left.rest[1..]);
      AssignmentReads(left.rest[1..]);
      assert left.rest == [left.rest[0]] + left.rest[1..];
      LeftHandSideIff(left.node);
      JoinReads(left.node, left.rest[0].op, right.node, ts, left.rest[1..], right.rest);
    }
  }

  lemma {:induction false} ExpressionReads(ts: seq<Token>)
    requires ParseExpression(ts).Parsed?
    ensures var p := ParseExpression(ts); Reads(p.node, ts, p.rest)
    decreases |ts|, 5
  {
    hide Reads, ParseAssignment;
    var left := ParseAssignment(ts);
    AssignmentReads(ts);
    CommaRestReads(left.node, left.rest, ts);
  }

  lemma {:induction false} CommaRestReads(left: Expr, tail: seq<Token>, ts: seq<Token>)
    requires Reads(left, ts, tail) && |tail| < |ts| && Precedence(left) >= COMMA && ParseCommaRest(left, tail).Parsed?
    ensures var p := ParseCommaRest(left, tail); Reads(p.node, ts, p.rest)
    decreases |tail|, 6
  {
    hide Reads, ParseAssignment, Built, LeftGrouped, Readable;
    if AtOperator(tail) && tail[0].op == CommaToken {
      var right := ParseAssignment(tail[1..]);
      AssignmentReads(tail[1..]);
      assert tail == [OperatorToken(CommaToken)] + tail[1..];
      JoinReads(left, CommaToken, right.node, ts, tail[1..], right.rest);
      CommaRestReads(Binary(left, CommaToken, right.node), right.rest, ts);
    }
  }

  /**
   * A token text is read as a whole, as this tree, if and only if it is the text of the tree and the
   * tree is a factory tree, grouped to the left, that assigns to left-hand sides and opens no type
   * arguments.
   */
  lemma ParsesIff(ts: seq<Token>, e: Expr)
    ensures ParseExpression(ts) == Parsed(e, []) <==>
            ts == Print(e) && Built(e) && LeftGrouped(e) && ValidTargets(e) && NoTypeArguments(e, [])
  {
    PrintOntoIsPrint(e, []);
    assert Print(e) + [] == Print(e);
    if ParseExpression(ts) == Parsed(e, []) {
      ExpressionReads(ts);
    } else if ts == Print(e) && Built(e) && LeftGrouped(e) && Readable(e, []) {
      PrintThenParse(e);
      LeftGroupedIsCanonical(e);
      assert false;
    }
  }
}
