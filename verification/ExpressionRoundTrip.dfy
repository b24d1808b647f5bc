/**
 * What the parser makes of a printed factory tree: the tree with parentheses kept, partially
 * emitted wrappers gone, and every unparenthesized right operand of equal level grafted onto
 * the left spine (`Canon`).
 */
module ExpressionRoundTrip {
  import opened Operators
  import opened Expressions
  import opened ExpressionTokens
  import opened TypeArguments
  import opened ExpressionParser
  import opened Wrappers

  /** A binary node of the level of `op`, where that level groups to the left. */
  predicate SameLeftLevel(e: Expr, op: BinaryOperator) {
    e.Binary? && OperatorPrecedence(e.op) == OperatorPrecedence(op) && OperatorAssociativity(op) == Left
  }

  /** `left op right`, read from left to right on the level of `op`. */
  function Graft(left: Expr, op: BinaryOperator, right: Expr): Expr
    decreases right
  {
    if SameLeftLevel(right, op) then Binary(Graft(left, op, right.left), right.op, right.right)
    else Binary(left, op, right)
  }

  function Canon(e: Expr): Expr {
    match e
    case Leaf(_, _) => e
    case Paren(e') => Paren(Canon(e'))
    case PartiallyEmitted(e') => Canon(e')
    case Binary(l, op, r) => Graft(Canon(l), op, Canon(r))
  }

  // ---------- Levels ----------

  predicate FitsLeft(op: BinaryOperator, l: Expr) {
    Precedence(l) > OperatorPrecedence(op)
    || (Precedence(l) == OperatorPrecedence(op) && OperatorAssociativity(op) == Left)
  }

  predicate FitsRight(op: BinaryOperator, r: Expr) {
    Precedence(r) >= OperatorPrecedence(op)
  }

  lemma PrecedenceSkips(e: Expr)
    ensures Precedence(Skip(e)) == Precedence(e)
    ensures ExpressionAssociativity(Skip(e)) == ExpressionAssociativity(e)
  {
  }

  lemma BuiltOperandsFit(l: Expr, op: BinaryOperator, r: Expr)
    requires Built(Binary(l, op, r))
    ensures FitsLeft(op, l) && FitsRight(op, r)
    ensures Precedence(r) == OperatorPrecedence(op) && OperatorAssociativity(op) == Left ==> MayRegroup(l, op, r)
  {
    PrecedenceSkips(l);
    PrecedenceSkips(r);
    LiteralKindSkips(r);
    MayRegroupIff(l, op, r);
    hide MayRegroup;
  }

  lemma LiteralKindSkips(e: Expr)
    ensures LiteralKindOfPlusOperand(Skip(e)) == LiteralKindOfPlusOperand(e)
  {
  }

  lemma {:induction false} GraftLevel(l: Expr, op: BinaryOperator, r: Expr)
    ensures Graft(l, op, r).Binary? && Precedence(Graft(l, op, r)) == OperatorPrecedence(op)
  {
  }

  lemma {:induction false} CanonLevel(e: Expr)
    ensures Precedence(Canon(e)) == Precedence(e)
    ensures !Canon(e).PartiallyEmitted?
    ensures Canon(e).Binary? == Skip(e).Binary?
  {
    match e
    case Leaf(_, _) =>
    case Paren(_) =>
    case PartiallyEmitted(e') => CanonLevel(e');
    case Binary(l, op, r) => GraftLevel(Canon(l), op, Canon(r));
  }

  /** On operands that fit, the factory adds nothing: the parser's own calls insert no parentheses. */
  lemma FittingOperandsStayBare(l: Expr, op: BinaryOperator, r: Expr)
    requires FitsLeft(op, l) && FitsRight(op, r)
    requires Precedence(r) > OperatorPrecedence(op) || OperatorAssociativity(op) == Right
    ensures CreateBinary(l, op, r) == Binary(l, op, r)
  {
    PrecedenceSkips(l);
    PrecedenceSkips(r);
    if Skip(r).Binary? && Precedence(r) == OperatorPrecedence(op) {
      LevelsAreUniform(Skip(r).op, op);
    }
  }

  predicate AddLiteralsOfOneKind(l: Expr, r: Expr) {
    exists kind :: AddsLiterals(kind, l) && AddsLiterals(kind, r)
  }

  /** `r` may be read together with `l`: the two places where the factory relies on associativity. */
  predicate MayRegroup(l: Expr, op: BinaryOperator, r: Expr) {
    && Skip(r).Binary? && Skip(r).op == op
    && (op.AsteriskToken? || op.BarToken? || op.AmpersandToken? || op.CaretToken?
        || (op == PlusToken && AddLiteralsOfOneKind(l, r)))
  }

  lemma OneLiteralKindIff(l: Expr, r: Expr)
    ensures AddLiteralsOfOneKind(l, r) <==>
            LiteralKindOfPlusOperand(l).Some? && LiteralKindOfPlusOperand(l) == LiteralKindOfPlusOperand(r)
  {
    var k := LiteralKindOfPlusOperand(l);
    if k.Some? && k == LiteralKindOfPlusOperand(r) {
      LiteralKindIff(l, k.value);
      LiteralKindIff(r, k.value);
    }
    if kind :| AddsLiterals(kind, l) && AddsLiterals(kind, r) {
      LiteralKindIff(l, kind);
      LiteralKindIff(r, kind);
    }
  }

  /** The factory's own tests for the two places. */
  lemma MayRegroupIff(l: Expr, op: BinaryOperator, r: Expr)
    ensures MayRegroup(l, op, r) <==>
            && Skip(r).Binary? && Skip(r).op == op
            && (HasAssociativeProperty(op)
                || (op == PlusToken && LiteralKindOfPlusOperand(l).Some?
                    && LiteralKindOfPlusOperand(l) == LiteralKindOfPlusOperand(r)))
  {
    hide Skip, AddLiteralsOfOneKind;
    OneLiteralKindIff(l, r);
  }

  lemma LeftStaysBareIff(op: BinaryOperator, l: Expr)
    ensures ParenthesizeOperand(op, l, true, None) == if FitsLeft(op, l) then l else Paren(l)
  {
    PrecedenceSkips(l);
  }

  /** The comparison of `compareValues` is the numeric one on levels, and only binary nodes share a level. */
  lemma LevelsCompare(e: Expr, op: BinaryOperator)
    requires !e.PartiallyEmitted?
    ensures CompareValues(Precedence(e), OperatorPrecedence(op))
            == (if Precedence(e) < OperatorPrecedence(op) then LessThan
                else if Precedence(e) == OperatorPrecedence(op) then EqualTo else GreaterThan)
    ensures !e.Binary? ==> Precedence(e) > OperatorPrecedence(op)
    ensures Precedence(e) == OperatorPrecedence(op) ==> ExpressionAssociativity(e) == OperatorAssociativity(op)
  {
    if e.Binary? && OperatorPrecedence(e.op) == OperatorPrecedence(op) {
      LevelsAreUniform(e.op, op);
    }
  }

  lemma RightStaysBareIff(l: Expr, op: BinaryOperator, r: Expr)
    ensures var bare := Precedence(r) > OperatorPrecedence(op)
                        || (Precedence(r) == OperatorPrecedence(op)
                            && (OperatorAssociativity(op) == Right || MayRegroup(l, op, r)));
            ParenthesizeOperand(op, r, false, Some(l)) == if bare then r else Paren(r)
  {
    hide CompareValues, Precedence, OperatorPrecedence, OperatorAssociativity, ExpressionAssociativity;
    hide HasAssociativeProperty, LiteralKindOfPlusOperand, MayRegroup, Skip;
    PrecedenceSkips(r);
    LiteralKindSkips(r);
    MayRegroupIff(l, op, r);
    LevelsCompare(Skip(r), op);
  }

  /** The factory adds no parentheses exactly when the parser would group the operands the same way or may regroup them. */
  lemma OperandsStayBareIff(l: Expr, op: BinaryOperator, r: Expr)
    ensures CreateBinary(l, op, r) == Binary(l, op, r) <==>
            && FitsLeft(op, l)
            && (Precedence(r) > OperatorPrecedence(op)
                || (Precedence(r) == OperatorPrecedence(op)
                    && (OperatorAssociativity(op) == Right || MayRegroup(l, op, r))))
  {
    hide ParenthesizeOperand;
    LeftStaysBareIff(op, l);
    RightStaysBareIff(l, op, r);
  }

  lemma {:induction false} GraftAssociates(x: Expr, op: BinaryOperator, a: Expr, op2: BinaryOperator, b: Expr)
    requires OperatorPrecedence(op) == OperatorPrecedence(op2)
    requires OperatorAssociativity(op) == Left && OperatorAssociativity(op2) == Left
    ensures Graft(Graft(x, op, a), op2, b) == Graft(x, op, Graft(a, op2, b))
    decreases b
  {
    var ab := Graft(a, op2, b);
    if SameLeftLevel(b, op2) {
      GraftAssociates(x, op, a, op2, b.left);
      assert ab == Binary(Graft(a, op2, b.left), b.op, b.right);
    } else {
      assert ab == Binary(a, op2, b);
    }
    assert SameLeftLevel(ab, op);
    assert Graft(x, op, ab) == Binary(Graft(x, op, ab.left), ab.op, ab.right);
  }

  // ---------- The binary loop ----------

  /** The binary loop at this level leaves `ts` alone. */
  predicate Stops(precedence: int, ts: seq<Token>) {
    AtOperator(ts) ==> !Consumes(precedence, ts[0].op)
  }

  lemma {:induction false} RestStops(precedence: int, left: Expr, ts: seq<Token>)
    ensures var r := ParseBinaryRest(precedence, left, ts); r.Parsed? ==> Stops(precedence, r.rest)
    decreases |ts|
  {
    if AtOperator(ts) && Consumes(precedence, ts[0].op) {
      var right := ParseBinary(BinaryOperatorPrecedence(ts[0].op), ts[1..]);
      if right.Parsed? {
        RestStops(precedence, CreateBinary(left, ts[0].op, right.node), right.rest);
      }
    }
  }

  /** The early `**` loop of the unary parser is absorbed by the binary loop that follows it. */
  lemma UnaryIsAbsorbed(precedence: int, ts: seq<Token>)
    requires precedence <= EXPONENTIATION
    ensures var operand := ParsePrimary(ts);
            ParseBinary(precedence, ts) ==
            if !operand.Parsed? then operand else ParseBinaryRest(precedence, operand.node, operand.rest)
  {
    var operand := ParsePrimary(ts);
    if operand.Parsed? && AtOperator(operand.rest) && operand.rest[0].op == AsteriskAsteriskToken {
      var right := ParseBinary(EXPONENTIATION, operand.rest[1..]);
      if right.Parsed? {
        var power := CreateBinary(operand.node, AsteriskAsteriskToken, right.node);
        var unary := ParseUnary(operand.rest[1..]);
        RestStops(EXPONENTIATION, unary.node, unary.rest);
        assert ParseBinaryRest(EXPONENTIATION, power, right.rest) == Parsed(power, right.rest);
        assert ParseUnary(ts) == Parsed(power, right.rest);
      } else {
        assert ParseUnary(ts) == right;
      }
    }
  }

  /** Where `e` can stand in front of `rest` without `rest` taking its last operand. */
  predicate HoldsTogether(e: Expr, rest: seq<Token>) {
    Skip(e).Binary? ==> Stops(OperatorPrecedence(Skip(e).op), rest)
  }

  /** Assignments go to left-hand sides, and the text opens no type arguments. */
  predicate Readable(e: Expr, rest: seq<Token>) {
    ValidTargets(e) && NoTypeArguments(e, rest)
  }

  predicate Climbable(precedence: int, e: Expr) {
    Skip(e).Binary? ==> Consumes(precedence, Skip(e).op)
  }

  lemma {:induction false} ParseBinaryOnto(e: Expr, precedence: int, rest: seq<Token>)
    requires Built(e) && Readable(e, rest)
    requires COMMA <= precedence <= EXPONENTIATION
    requires Climbable(precedence, e) && HoldsTogether(e, rest)
    ensures ParseBinary(precedence, PrintOnto(e, rest)) == ParseBinaryRest(precedence, Canon(e), rest)
    decreases e, 0
  {
    match e
    case Leaf(_, _) =>
      UnaryIsAbsorbed(precedence, PrintOnto(e, rest));
    case Paren(e') =>
      ParseExpressionOnto(e', [CloseParenToken] + rest);
      var ts := PrintOnto(e, rest);
      assert ts[1..] == PrintOnto(e', [CloseParenToken] + rest);
      assert ([CloseParenToken] + rest)[1..] == rest;
      assert ParsePrimary(ts) == Parsed(Canon(e), rest);
      UnaryIsAbsorbed(precedence, ts);
    case PartiallyEmitted(e') =>
      ParseBinaryOnto(e', precedence, rest);
    case Binary(l, op, r) =>
      BuiltOperandsFit(l, op, r);
      PrecedenceSkips(l);
      CanonLevel(l);
      ParseBinaryOnto(l, precedence, [OperatorToken(op)] + PrintOnto(r, rest));
      RestOnto(Canon(l), op, r, precedence, rest);
  }

  /** One operator and a printed right operand extend the left operand by a graft. */
  lemma {:induction false} RestOnto(x: Expr, op: BinaryOperator, r: Expr, precedence: int, rest: seq<Token>)
    requires Built(r) && Readable(r, rest)
    requires COMMA <= precedence <= EXPONENTIATION
    requires Consumes(precedence, op) && FitsLeft(op, x) && FitsRight(op, r)
    requires Stops(OperatorPrecedence(op), rest)
    ensures ParseBinaryRest(precedence, x, [OperatorToken(op)] + PrintOnto(r, rest))
            == ParseBinaryRest(precedence, Graft(x, op, Canon(r)), rest)
    decreases r, 2
  {
    if Precedence(r) > OperatorPrecedence(op) || OperatorAssociativity(op) == Right {
      TightRestOnto(x, op, r, precedence, rest);
    } else if r.PartiallyEmitted? {
      RestOnto(x, op, r.expression, precedence, rest);
    } else {
      GraftRestOnto(x, op, r, precedence, rest);
    }
  }

  /** The right operand binds tighter, or the level groups to the right: it is read back whole. */
  lemma {:induction false} TightRestOnto(x: Expr, op: BinaryOperator, r: Expr, precedence: int, rest: seq<Token>)
    requires Built(r) && Readable(r, rest)
    requires COMMA <= precedence <= EXPONENTIATION
    requires Consumes(precedence, op) && FitsLeft(op, x) && FitsRight(op, r)
    requires Precedence(r) > OperatorPrecedence(op) || OperatorAssociativity(op) == Right
    requires Stops(OperatorPrecedence(op), rest)
    ensures ParseBinaryRest(precedence, x, [OperatorToken(op)] + PrintOnto(r, rest))
            == ParseBinaryRest(precedence, Graft(x, op, Canon(r)), rest)
    decreases r, 1
  {
    var ts := [OperatorToken(op)] + PrintOnto(r, rest);
    assert ts[1..] == PrintOnto(r, rest);
    CanonLevel(r);
    TightOperand(op, r, rest);
    ParseBinaryOnto(r, OperatorPrecedence(op), rest);
    FittingOperandsStayBare(x, op, Canon(r));
    assert Graft(x, op, Canon(r)) == Binary(x, op, Canon(r));
  }

  lemma TightOperand(op: BinaryOperator, r: Expr, rest: seq<Token>)
    requires !op.Assignment? && !op.CommaToken? && FitsRight(op, r)
    requires Precedence(r) > OperatorPrecedence(op) || OperatorAssociativity(op) == Right
    requires Stops(OperatorPrecedence(op), rest)
    ensures Climbable(OperatorPrecedence(op), r) && HoldsTogether(r, rest)
  {
    PrecedenceSkips(r);
  }

  lemma {:induction false} GraftRestOnto(x: Expr, op: BinaryOperator, r: Expr, precedence: int, rest: seq<Token>)
    requires Built(r) && Readable(r, rest) && SameLeftLevel(r, op)
    requires COMMA <= precedence <= EXPONENTIATION
    requires Consumes(precedence, op) && FitsLeft(op, x)
    requires Stops(OperatorPrecedence(op), rest)
    ensures ParseBinaryRest(precedence, x, [OperatorToken(op)] + PrintOnto(r, rest))
            == ParseBinaryRest(precedence, Graft(x, op, Canon(r)), rest)
    decreases r, 0
  {
    var Binary(l, op2, r2) := r;
    LevelsAreUniform(op, op2);
    BuiltOperandsFit(l, op2, r2);
    var x2 := Graft(x, op, Canon(l));
    GraftLevel(x, op, Canon(l));
    RestOnto(x, op, l, precedence, [OperatorToken(op2)] + PrintOnto(r2, rest));
    RestOnto(x2, op2, r2, precedence, rest);
    GraftAssociates(x, op, Canon(l), op2, Canon(r2));
  }

  // ---------- Assignments and comma ----------

  lemma {:induction false} ParseAssignmentOnto(e: Expr, rest: seq<Token>)
    requires Built(e) && Readable(e, rest)
    requires Precedence(e) > COMMA
    requires AtOperator(rest) ==> rest[0].op == CommaToken
    ensures ParseAssignment(PrintOnto(e, rest)) == Parsed(Canon(e), rest)
    decreases e, 2
  {
    PrecedenceSkips(e);
    if e.PartiallyEmitted? {
      ParseAssignmentOnto(e.expression, rest);
    } else if e.Binary? && e.op.Assignment? {
      var Binary(l, op, r) := e;
      BuiltOperandsFit(l, op, r);
      CanonLevel(l);
      CanonLevel(r);
      LeftHandSideStays(l);
      var tail := [OperatorToken(op)] + PrintOnto(r, rest);
      ParseBinaryOnto(l, LOWEST, tail);
      assert tail[1..] == PrintOnto(r, rest);
      ParseAssignmentOnto(r, rest);
      FittingOperandsStayBare(Canon(l), op, Canon(r));
    } else {
      ParseBinaryOnto(e, LOWEST, rest);
    }
  }

  lemma {:induction false} LeftHandSideStays(e: Expr)
    ensures IsLeftHandSide(Canon(e)) == IsLeftHandSide(e)
  {
    CanonLevel(e);
    if e.PartiallyEmitted? {
      LeftHandSideStays(e.expression);
    }
  }

  lemma {:induction false} ParseExpressionOnto(e: Expr, rest: seq<Token>)
    requires Built(e) && Readable(e, rest)
    requires AtOperator(rest) ==> rest[0].op == CommaToken
    ensures ParseExpression(PrintOnto(e, rest)) == ParseCommaRest(Canon(e), rest)
    decreases e, 3
  {
    PrecedenceSkips(e);
    if e.PartiallyEmitted? {
      ParseExpressionOnto(e.expression, rest);
    } else if e.Binary? && e.op == CommaToken {
      var Binary(l, op, r) := e;
      BuiltOperandsFit(l, op, r);
      CanonLevel(l);
      CanonLevel(r);
      var tail := [OperatorToken(op)] + PrintOnto(r, rest);
      ParseExpressionOnto(l, tail);
      assert tail[1..] == PrintOnto(r, rest);
      ParseAssignmentOnto(r, rest);
      FittingOperandsStayBare(Canon(l), op, Canon(r));
    } else {
      ParseAssignmentOnto(e, rest);
    }
  }

  /** Reading back what was printed gives the canonical tree, with nothing left over. */
  lemma PrintThenParse(e: Expr)
    requires Built(e) && Readable(e, [])
    ensures ParseExpression(Print(e)) == Parsed(Canon(e), [])
  {
    ParseExpressionOnto(e, []);
    PrintOntoIsPrint(e, []);
    assert Print(e) + [] == Print(e);
  }
}
