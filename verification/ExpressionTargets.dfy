/**
 * The converse for assignments: a tree that assigns to something other than a left-hand-side
 * expression is printed without parentheses and the parser does not get past the operator.
 */
module ExpressionTargets {
  import opened Operators
  import opened Expressions
  import opened ExpressionTokens
  import opened TypeArguments
  import opened TypeArgumentLists
  import opened TypeArgumentTrial
  import opened ExpressionParser
  import opened ExpressionRoundTrip

  /** The parser failed, went for type arguments, or gave up in front of an assignment operator. */
  predicate Stuck(p: Parse) {
    p.Parsed? ==> AtOperator(p.rest) && p.rest[0].op.Assignment?
  }

  lemma {:induction false} BinaryFails(e: Expr, precedence: int, rest: seq<Token>)
    requires Built(e) && !Readable(e, rest)
    requires COMMA <= precedence <= EXPONENTIATION
    requires Climbable(precedence, e) && HoldsTogether(e, rest)
    ensures !ParseBinary(precedence, PrintOnto(e, rest)).Parsed?
    decreases e, 0
  {
    match e
    case Leaf(_, _) =>
      UnaryIsAbsorbed(precedence, PrintOnto(e, rest));
    case Paren(e') =>
      var tail := [CloseParenToken] + rest;
      var ts := PrintOnto(e, rest);
      assert ts[1..] == PrintOnto(e', tail) && tail[1..] == rest;
      if Readable(e', tail) {
        ParseExpressionOnto(e', tail);
      } else {
        ExpressionFails(e', tail);
      }
      UnaryIsAbsorbed(precedence, ts);
    case PartiallyEmitted(e') =>
      BinaryFails(e', precedence, rest);
    case Binary(l, op, r) =>
      BuiltOperandsFit(l, op, r);
      PrecedenceSkips(l);
      CanonLevel(l);
      var tail := [OperatorToken(op)] + PrintOnto(r, rest);
      if Readable(l, tail) {
        ParseBinaryOnto(l, precedence, tail);
        RestFails(Canon(l), op, r, precedence, rest);
      } else {
        BinaryFails(l, precedence, tail);
      }
  }

  lemma {:induction false} RestFails(x: Expr, op: BinaryOperator, r: Expr, precedence: int, rest: seq<Token>)
    requires Built(r) && !Readable(r, rest)
    requires COMMA <= precedence <= EXPONENTIATION
    requires Consumes(precedence, op) && FitsLeft(op, x) && FitsRight(op, r)
    requires Stops(OperatorPrecedence(op), rest)
    ensures !ParseBinaryRest(precedence, x, [OperatorToken(op)] + PrintOnto(r, rest)).Parsed?
    decreases r, 2
  {
    if Precedence(r) > OperatorPrecedence(op) || OperatorAssociativity(op) == Right {
      var ts := [OperatorToken(op)] + PrintOnto(r, rest);
      assert ts[1..] == PrintOnto(r, rest);
      TightOperand(op, r, rest);
      BinaryFails(r, OperatorPrecedence(op), rest);
    } else if r.PartiallyEmitted? {
      RestFails(x, op, r.expression, precedence, rest);
    } else {
      GraftRestFails(x, op, r, precedence, rest);
    }
  }

  lemma {:induction false} GraftRestFails(x: Expr, op: BinaryOperator, r: Expr, precedence: int, rest: seq<Token>)
    requires Built(r) && !Readable(r, rest) && SameLeftLevel(r, op)
    requires COMMA <= precedence <= EXPONENTIATION
    requires Consumes(precedence, op) && FitsLeft(op, x)
    requires Stops(OperatorPrecedence(op), rest)
    ensures !ParseBinaryRest(precedence, x, [OperatorToken(op)] + PrintOnto(r, rest)).Parsed?
    decreases r, 1
  {
    var Binary(l, op2, r2) := r;
    LevelsAreUniform(op, op2);
    BuiltOperandsFit(l, op2, r2);
    var tail := [OperatorToken(op2)] + PrintOnto(r2, rest);
    if Readable(l, tail) {
      GraftLevel(x, op, Canon(l));
      RestOnto(x, op, l, precedence, tail);
      RestFails(Graft(x, op, Canon(l)), op2, r2, precedence, rest);
    } else {
      RestFails(x, op, l, precedence, tail);
    }
  }

  lemma {:induction false} AssignmentFails(e: Expr, rest: seq<Token>)
    requires Built(e) && !Readable(e, rest)
    requires Precedence(e) > COMMA
    requires AtOperator(rest) ==> rest[0].op == CommaToken
    ensures Stuck(ParseAssignment(PrintOnto(e, rest)))
    decreases e, 3
  {
    PrecedenceSkips(e);
    if e.PartiallyEmitted? {
      AssignmentFails(e.expression, rest);
    } else if e.Binary? && e.op.Assignment? {
      var Binary(l, op, r) := e;
      BuiltOperandsFit(l, op, r);
      PrecedenceSkips(l);
      CanonLevel(l);
      LeftHandSideStays(l);
      var tail := [OperatorToken(op)] + PrintOnto(r, rest);
      assert tail[1..] == PrintOnto(r, rest);
      if !Readable(l, tail) {
        BinaryFails(l, LOWEST, tail);
      } else {
        ParseBinaryOnto(l, LOWEST, tail);
        if IsLeftHandSide(l) {
          AssignmentFails(r, rest);
        }
      }
    } else {
      BinaryFails(e, LOWEST, rest);
    }
  }

  lemma {:induction false} ExpressionFails(e: Expr, rest: seq<Token>)
    requires Built(e) && !Readable(e, rest)
    requires AtOperator(rest) ==> rest[0].op == CommaToken
    ensures Stuck(ParseExpression(PrintOnto(e, rest)))
    decreases e, 4
  {
    PrecedenceSkips(e);
    if e.PartiallyEmitted? {
      ExpressionFails(e.expression, rest);
    } else if e.Binary? && e.op == CommaToken {
      var Binary(l, op, r) := e;
      BuiltOperandsFit(l, op, r);
      var tail := [OperatorToken(op)] + PrintOnto(r, rest);
      assert tail[1..] == PrintOnto(r, rest);
      if Readable(l, tail) {
        ParseExpressionOnto(l, tail);
        AssignmentFails(r, rest);
      } else {
        ExpressionFails(l, tail);
      }
    } else {
      AssignmentFails(e, rest);
    }
  }

  /**
   * A printed factory tree reads back in full if and only if it assigns to left-hand sides only and
   * its text opens no type arguments.
   */
  lemma ReadsBackIff(e: Expr)
    requires Built(e)
    ensures ValidTargets(e) && NoTypeArguments(e, []) <==> ParseExpression(Print(e)) == Parsed(Canon(e), [])
    ensures !(ValidTargets(e) && NoTypeArguments(e, [])) ==> Stuck(ParseExpression(Print(e)))
  {
    if Readable(e, []) {
      PrintThenParse(e);
    } else {
      ExpressionFails(e, []);
      PrintOntoIsPrint(e, []);
      assert Print(e) + [] == Print(e);
    }
  }

  // ---------- Type arguments where comparisons were built ----------

  /** `<`, a name, and an operator that begins with `>`. */
  lemma NameOpens(b: Token, op: BinaryOperator, after: seq<Raw>, ts: seq<Token>)
    requires b.LeafToken? && b.kind == Identifier && RawOperator(op) == [Greater] + after
    requires CanFollow(after + RawTokens(ts))
    ensures OpensTypeArguments([OperatorToken(LessThanToken)] + ([b] + ([OperatorToken(op)] + ts)))
  {
    hide TrialDiverts, CanFollow, RawTokens;
    var tail := [OperatorToken(op)] + ts;
    var raw := RawTokens(ts);
    RawOfFirst(OperatorToken(op), ts);
    RawOfFirst(b, tail);
    RawOfFirst(OperatorToken(LessThanToken), [b] + tail);
    NameDivertsIff(after + raw);
    assert [Word] + (([Greater] + after) + raw) == [Word, Greater] + (after + raw);
    assert ([Less] + RawTokens([b] + tail))[1..] == RawTokens([b] + tail);
  }

  lemma LeafDiverts(a: Token, ts: seq<Token>)
    requires a.LeafToken? && OpensTypeArguments(ts)
    ensures ParseExpression([a] + ts) == Diverted
  {
    hide OpensTypeArguments;
    assert ([a] + ts)[1..] == ts;
    assert ParsePrimary([a] + ts) == Diverted;
    assert ParseUnary([a] + ts) == Diverted;
    assert ParseBinary(LOWEST, [a] + ts) == Diverted;
    assert ParseAssignment([a] + ts) == Diverted;
  }

  lemma ChainDiverts(a: Expr, b: Expr, op: BinaryOperator, after: seq<Raw>, c: Expr)
    requires a.Leaf? && b.Leaf? && b.kind == Identifier && RawOperator(op) == [Greater] + after
    requires CanFollow(after + RawTokens(PrintOnto(c, [])))
    ensures ParseExpression(Print(Binary(Binary(a, LessThanToken, b), op, c))) == Diverted
  {
    hide OpensTypeArguments, ParseExpression, CanFollow, RawTokens, RawOperator;
    var ab := Binary(a, LessThanToken, b);
    var e := Binary(ab, op, c);
    var tail := [OperatorToken(op)] + PrintOnto(c, []);
    NameOpens(LeafToken(b.kind, b.id), op, after, PrintOnto(c, []));
    LeafDiverts(LeafToken(a.kind, a.id), [OperatorToken(LessThanToken)] + PrintOnto(b, tail));
    assert PrintOnto(ab, tail) == PrintOnto(a, [OperatorToken(LessThanToken)] + PrintOnto(b, tail));
    assert PrintOnto(e, []) == PrintOnto(ab, tail);
    PrintOntoIsPrint(e, []);
    assert Print(e) + [] == Print(e);
  }

  lemma BareChain(a: Expr, b: Expr, op: BinaryOperator, c: Expr)
    requires a.Leaf? && b.Leaf? && (c.Leaf? || c.Paren?) && OperatorPrecedence(op) == RELATIONAL
    requires Built(c) && ValidTargets(c)
    ensures var e := Binary(Binary(a, LessThanToken, b), op, c);
            CreateBinary(CreateBinary(a, LessThanToken, b), op, c) == e && Built(e) && ValidTargets(e)
  {
    var ab := Binary(a, LessThanToken, b);
    assert Built(a) && Built(b) && Built(ab);
    assert ValidTargets(a) && ValidTargets(b) && ValidTargets(ab);
    LeftStaysBareIff(op, ab);
  }

  /** `(a < b) >= c` is built bare and read as the assignment `a<b> = c`. */
  lemma ComparisonChainExample(a: Expr, b: Expr, c: Expr)
    requires a.Leaf? && b.Leaf? && c.Leaf? && b.kind == Identifier
    ensures var e := CreateBinary(CreateBinary(a, LessThanToken, b), GreaterThanEqualsToken, c);
            e == Binary(Binary(a, LessThanToken, b), GreaterThanEqualsToken, c) && Built(e) && ValidTargets(e)
            && ParseExpression(Print(e)) == Diverted
  {
    ChainDiverts(a, b, GreaterThanEqualsToken, [Equals], c);
    hide ParseExpression, Print;
    BareChain(a, b, GreaterThanEqualsToken, c);
  }

  /** `(a < b) > (c)` is built bare and read as the call `a<b>(c)`. */
  lemma ParenthesizedOperandExample(a: Expr, b: Expr, c: Expr)
    requires a.Leaf? && b.Leaf? && c.Leaf? && b.kind == Identifier
    ensures var e := CreateBinary(CreateBinary(a, LessThanToken, b), GreaterThanToken, Paren(c));
            e == Binary(Binary(a, LessThanToken, b), GreaterThanToken, Paren(c)) && Built(e) && ValidTargets(e)
            && ParseExpression(Print(e)) == Diverted
  {
    RawOfFirst(OpenParenToken, PrintOnto(c, [CloseParenToken]));
    ChainDiverts(a, b, GreaterThanToken, [], Paren(c));
    hide ParseExpression, Print;
    assert Built(c) && ValidTargets(c);
    BareChain(a, b, GreaterThanToken, Paren(c));
  }

  lemma BareUnion(a: Expr, b: Expr, c: Expr, d: Expr)
    requires a.Leaf? && b.Leaf? && c.Leaf? && d.Leaf?
    ensures var e := Binary(Binary(a, LessThanToken, b), BarToken, Binary(c, GreaterThanToken, Paren(d)));
            Built(e) && ValidTargets(e)
  {
    var l, r := Binary(a, LessThanToken, b), Binary(c, GreaterThanToken, Paren(d));
    assert Built(a) && Built(b) && Built(c) && Built(d) && Built(Paren(d)) && Built(l) && Built(r);
    assert ValidTargets(a) && ValidTargets(b) && ValidTargets(c) && ValidTargets(d) && ValidTargets(Paren(d));
    assert ValidTargets(l) && ValidTargets(r);
  }

  /** `(a < b) | (c > (d))` is built bare and read as the call `a<b | c>(d)`. */
  lemma UnionExample(a: Expr, b: Expr, c: Expr, d: Expr)
    requires a.Leaf? && b.Leaf? && c.Leaf? && d.Leaf? && SpellsUnion(b) && SpellsUnion(c)
    ensures var e := CreateBinary(CreateBinary(a, LessThanToken, b), BarToken, CreateBinary(c, GreaterThanToken, Paren(d)));
            e == Binary(Binary(a, LessThanToken, b), BarToken, Binary(c, GreaterThanToken, Paren(d)))
            && Built(e) && ValidTargets(e) && ParseExpression(Print(e)) == Diverted
  {
    var e := Binary(Binary(a, LessThanToken, b), BarToken, Binary(c, GreaterThanToken, Paren(d)));
    BareUnion(a, b, c, d);
    var union := Binary(b, BarToken, c);
    var ts := PrintOnto(Paren(d), []);
    var behind := [OperatorToken(GreaterThanToken)] + ts;
    SpelledListOpensIff([union], ts);
    RawOfFirst(OpenParenToken, PrintOnto(d, [CloseParenToken]));
    hide CreateBinary, Built, ValidTargets, ParseExpression, OpensTypeArguments, RawTokens, SpellsUnion;
    assert PrintList([union], behind) == PrintOnto(b, [OperatorToken(BarToken)] + PrintOnto(c, behind));
    LeafDiverts(LeafToken(a.kind, a.id), [OperatorToken(LessThanToken)] + PrintList([union], behind));
    PrintsUnion(a, b, c, ts, Paren(d));
    PrintOntoIsPrint(e, []);
    assert Print(e) + [] == Print(e);
  }

  lemma PrintsUnion(a: Expr, b: Expr, c: Expr, ts: seq<Token>, d: Expr)
    requires a.Leaf? && b.Leaf? && c.Leaf? && ts == PrintOnto(d, [])
    ensures var e := Binary(Binary(a, LessThanToken, b), BarToken, Binary(c, GreaterThanToken, d));
            PrintOnto(e, []) == [LeafToken(a.kind, a.id)] + ([OperatorToken(LessThanToken)]
              + PrintOnto(b, [OperatorToken(BarToken)] + PrintOnto(c, [OperatorToken(GreaterThanToken)] + ts)))
  {
    var r := PrintOnto(Binary(c, GreaterThanToken, d), []);
    assert r == PrintOnto(c, [OperatorToken(GreaterThanToken)] + ts);
    var tail := [OperatorToken(BarToken)] + r;
    assert PrintOnto(Binary(a, LessThanToken, b), tail) == PrintOnto(a, [OperatorToken(LessThanToken)] + PrintOnto(b, tail));
  }

  /** Two names in parentheses, and an operator that the type parser takes for a JSDoc type. */
  function ListOperand(b: Expr, c: Expr, op: BinaryOperator, ts: seq<Token>): seq<Token> {
    PrintOnto(Paren(Binary(b, CommaToken, c)), [OperatorToken(op)] + ts)
  }

  lemma RawListOperand(b: Expr, c: Expr, op: BinaryOperator, ts: seq<Token>)
    requires b.Leaf? && c.Leaf? && b.kind == c.kind == Identifier
    ensures RawTokens(ListOperand(b, c, op, ts))
            == [OpenParen] + ([Word] + ([Comma] + ([Word] + ([CloseParen] + (RawOperator(op) + RawTokens(ts))))))
  {
    hide RawTokens, RawOperator;
    var tail := [OperatorToken(op)] + ts;
    var behindC := [CloseParenToken] + tail;
    var second := [LeafToken(c.kind, c.id)] + behindC;
    var behindB := [OperatorToken(CommaToken)] + second;
    RawOfFirst(OperatorToken(op), ts);
    RawOfFirst(CloseParenToken, tail);
    RawOfFirst(LeafToken(c.kind, c.id), behindC);
    RawOfFirst(OperatorToken(CommaToken), second);
    RawOfFirst(LeafToken(b.kind, b.id), behindB);
    RawOfFirst(OpenParenToken, [LeafToken(b.kind, b.id)] + behindB);
    RawOfComma();
    assert PrintOnto(Binary(b, CommaToken, c), behindC) == [LeafToken(b.kind, b.id)] + behindB;
  }

  lemma RawOfComma()
    ensures RawOperator(CommaToken) == [Comma]
  {
  }

  lemma ListOperandOpens(b: Expr, c: Expr, op: BinaryOperator, ts: seq<Token>)
    requires b.Leaf? && c.Leaf? && b.kind == c.kind == Identifier
    requires op == AsteriskToken || op == QuestionQuestionToken
    ensures OpensTypeArguments([OperatorToken(LessThanToken)] + ListOperand(b, c, op, ts))
  {
    var list := ListOperand(b, c, op, ts);
    RawListOperand(b, c, op, ts);
    RawOfFirst(OperatorToken(LessThanToken), list);
    ThrowsBehindParameters(RawOperator(op)[0], RawTokens(ts));
    hide RawTokens, TrialDiverts, ListOperand;
    assert RawOperator(op) == [RawOperator(op)[0]];
    assert ([Less] + RawTokens(list))[1..] == RawTokens(list);
  }

  /** `a < (b, c) * d` and `(a < (b, c)) ?? d` are built bare, and the parser throws on them. */
  lemma ListOperandExample(a: Expr, b: Expr, c: Expr, d: Expr)
    requires a.Leaf? && b.Leaf? && c.Leaf? && d.Leaf? && b.kind == c.kind == Identifier
    ensures var list := Paren(Binary(b, CommaToken, c));
            var product := Binary(a, LessThanToken, Binary(list, AsteriskToken, d));
            var choice := Binary(Binary(a, LessThanToken, list), QuestionQuestionToken, d);
            && Built(product) && ValidTargets(product) && ParseExpression(Print(product)) == Diverted
            && Built(choice) && ValidTargets(choice) && ParseExpression(Print(choice)) == Diverted
  {
    var list := Paren(Binary(b, CommaToken, c));
    var product := Binary(a, LessThanToken, Binary(list, AsteriskToken, d));
    var choice := Binary(Binary(a, LessThanToken, list), QuestionQuestionToken, d);
    ListOperandIsBuilt(a, b, c, d);
    var ts := PrintOnto(d, []);
    ListOperandOpens(b, c, AsteriskToken, ts);
    ListOperandOpens(b, c, QuestionQuestionToken, ts);
    hide Built, ValidTargets, ParseExpression, OpensTypeArguments;
    LeafDiverts(LeafToken(a.kind, a.id), [OperatorToken(LessThanToken)] + ListOperand(b, c, AsteriskToken, ts));
    LeafDiverts(LeafToken(a.kind, a.id), [OperatorToken(LessThanToken)] + ListOperand(b, c, QuestionQuestionToken, ts));
    PrintsListOperands(a, b, c, d);
    PrintOntoIsPrint(product, []);
    PrintOntoIsPrint(choice, []);
    assert Print(product) + [] == Print(product) && Print(choice) + [] == Print(choice);
  }

  lemma PrintsListOperands(a: Expr, b: Expr, c: Expr, d: Expr)
    requires a.Leaf?
    ensures var list, ts := Paren(Binary(b, CommaToken, c)), PrintOnto(d, []);
            && PrintOnto(Binary(a, LessThanToken, Binary(list, AsteriskToken, d)), [])
               == [LeafToken(a.kind, a.id)] + ([OperatorToken(LessThanToken)] + ListOperand(b, c, AsteriskToken, ts))
            && PrintOnto(Binary(Binary(a, LessThanToken, list), QuestionQuestionToken, d), [])
               == [LeafToken(a.kind, a.id)] + ([OperatorToken(LessThanToken)] + ListOperand(b, c, QuestionQuestionToken, ts))
  {
    var list, ts := Paren(Binary(b, CommaToken, c)), PrintOnto(d, []);
    assert PrintOnto(Binary(list, AsteriskToken, d), []) == ListOperand(b, c, AsteriskToken, ts);
    var tail := [OperatorToken(QuestionQuestionToken)] + ts;
    assert PrintOnto(Binary(a, LessThanToken, list), tail)
           == PrintOnto(a, [OperatorToken(LessThanToken)] + ListOperand(b, c, QuestionQuestionToken, ts));
  }

  lemma ListOperandIsBuilt(a: Expr, b: Expr, c: Expr, d: Expr)
    requires a.Leaf? && b.Leaf? && c.Leaf? && d.Leaf?
    ensures var list := Paren(Binary(b, CommaToken, c));
            var product := Binary(a, LessThanToken, Binary(list, AsteriskToken, d));
            var choice := Binary(Binary(a, LessThanToken, list), QuestionQuestionToken, d);
            Built(product) && ValidTargets(product) && Built(choice) && ValidTargets(choice)
  {
    var inner := Binary(b, CommaToken, c);
    assert Built(a) && Built(b) && Built(c) && Built(d) && Built(inner) && Built(Paren(inner));
    assert Built(Binary(Paren(inner), AsteriskToken, d)) && Built(Binary(a, LessThanToken, Paren(inner)));
    assert ValidTargets(a) && ValidTargets(b) && ValidTargets(c) && ValidTargets(d);
    assert ValidTargets(inner) && ValidTargets(Paren(inner));
    assert ValidTargets(Binary(Paren(inner), AsteriskToken, d)) && ValidTargets(Binary(a, LessThanToken, Paren(inner)));
  }
}
