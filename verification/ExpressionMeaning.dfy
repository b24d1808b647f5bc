/**
 * When a printed and re-read expression still means the same. A meaning is any compositional
 * reading of the tree in which the operators the parenthesizer treats as associative are.
 */
module ExpressionMeaning {
  import opened Operators
  import opened Expressions
  import opened ExpressionTokens
  import opened TypeArguments
  import opened ExpressionParser
  import opened ExpressionRoundTrip
  import opened ExpressionTargets

  /** `literal(k, v)` says that `v` is a sum of literals of kind `k`. */
  datatype Meaning<!V> = Meaning(
    leaf: (LeafKind, nat) -> V,
    apply: (BinaryOperator, V, V) -> V,
    literal: (LiteralKind, V) -> bool)

  ghost predicate Associative<V(!new)>(m: Meaning<V>) {
    && (forall op, a, b, c | HasAssociativeProperty(op) ::
          m.apply(op, m.apply(op, a, b), c) == m.apply(op, a, m.apply(op, b, c)))
    && (forall k, id :: m.literal(k, m.leaf(Literal(k), id)))
    && (forall k, a, b | m.literal(k, a) && m.literal(k, b) :: m.literal(k, m.apply(PlusToken, a, b)))
    && (forall k, a, b, c | m.literal(k, a) && m.literal(k, b) && m.literal(k, c) ::
          m.apply(PlusToken, m.apply(PlusToken, a, b), c) == m.apply(PlusToken, a, m.apply(PlusToken, b, c)))
  }

  function Eval<V>(m: Meaning<V>, e: Expr): V {
    match e
    case Leaf(kind, id) => m.leaf(kind, id)
    case Paren(e') => Eval(m, e')
    case PartiallyEmitted(e') => Eval(m, e')
    case Binary(l, op, r) => m.apply(op, Eval(m, l), Eval(m, r))
  }

  // ---------- The guard ----------

  predicate Divides(op: BinaryOperator) {
    op == SlashToken || op == PercentToken
  }

  /** Going down left operands without crossing a parenthesis, a `/` or `%` comes before the level ends. */
  predicate LeftSpineDivides(e: Expr) {
    match e
    case PartiallyEmitted(e') => LeftSpineDivides(e')
    case Binary(l, op, _) =>
      OperatorPrecedence(op) == MULTIPLICATIVE && (Divides(op) || LeftSpineDivides(l))
    case _ => false
  }

  /** `x * (… / … * b)` with the right product bare: the one shape the parenthesizer gets wrong. */
  predicate SplitsProduct(op: BinaryOperator, r: Expr) {
    op == AsteriskToken && Skip(r).Binary? && Skip(r).op == AsteriskToken && LeftSpineDivides(r)
  }

  predicate SafeProducts(e: Expr) {
    match e
    case Leaf(_, _) => true
    case Paren(e') => SafeProducts(e')
    case PartiallyEmitted(e') => SafeProducts(e')
    case Binary(l, op, r) => SafeProducts(l) && SafeProducts(r) && !SplitsProduct(op, r)
  }

  // ---------- Meaning is kept ----------

  /** On the level of `op`, the left spine of `e` uses `op` only. */
  predicate SpineIs(e: Expr, op: BinaryOperator) {
    match e
    case PartiallyEmitted(e') => SpineIs(e', op)
    case Binary(l, _, _) => SameLeftLevel(e, op) ==> e.op == op && SpineIs(l, op)
    case _ => true
  }

  lemma {:induction false} LiteralSpine(e: Expr)
    requires LiteralKindOfPlusOperand(e).Some?
    ensures SpineIs(e, PlusToken)
  {
    match e
    case PartiallyEmitted(e') => LiteralSpine(e');
    case Binary(l, _, _) => LiteralSpine(l);
    case _ =>
  }

  lemma {:induction false} ProductSpine(e: Expr)
    requires !LeftSpineDivides(e)
    ensures SpineIs(e, AsteriskToken)
  {
    match e
    case PartiallyEmitted(e') => ProductSpine(e');
    case Binary(l, op, _) =>
      if OperatorPrecedence(op) == MULTIPLICATIVE {
        ProductSpine(l);
      }
    case _ =>
  }

  lemma {:induction false} BitwiseSpine(e: Expr, op: BinaryOperator)
    requires op == BarToken || op == AmpersandToken || op == CaretToken
    ensures SpineIs(e, op)
  {
    match e
    case PartiallyEmitted(e') => BitwiseSpine(e', op);
    case Binary(l, _, _) => BitwiseSpine(l, op);
    case _ =>
  }

  /** A bare right operand of equal level continues with its parent's operator all the way down. */
  lemma SafeSpine(l: Expr, op: BinaryOperator, r: Expr)
    requires Built(Binary(l, op, r)) && !SplitsProduct(op, r)
    requires Precedence(r) == OperatorPrecedence(op) && OperatorAssociativity(op) == Left
    ensures SpineIs(r, op) && (HasAssociativeProperty(op) || op == PlusToken)
  {
    hide MayRegroup;
    BuiltOperandsFit(l, op, r);
    MayRegroupIff(l, op, r);
    if op == PlusToken {
      LiteralSpine(r);
    } else if op == AsteriskToken {
      ProductSpine(r);
    } else {
      BitwiseSpine(r, op);
    }
  }

  lemma {:induction false} GraftSpine(l: Expr, op: BinaryOperator, r: Expr)
    requires SpineIs(l, op) && SpineIs(r, op)
    ensures SpineIs(Graft(l, op, r), op)
    decreases r
  {
    if SameLeftLevel(r, op) {
      GraftSpine(l, op, r.left);
    }
  }

  lemma {:induction false} CanonSpine(e: Expr, op: BinaryOperator)
    requires Built(e) && SafeProducts(e) && SpineIs(e, op)
    ensures SpineIs(Canon(e), op)
    decreases e, 0
  {
    match e
    case Leaf(_, _) =>
    case Paren(_) =>
    case PartiallyEmitted(e') => CanonSpine(e', op);
    case Binary(l, op2, r) =>
      if SameLeftLevel(e, op) {
        CanonSpine(l, op);
        RightSpine(l, op, r);
        GraftSpine(Canon(l), op, Canon(r));
      } else {
        GraftLevel(Canon(l), op2, Canon(r));
      }
  }

  lemma {:induction false} RightSpine(l: Expr, op: BinaryOperator, r: Expr)
    requires Built(Binary(l, op, r)) && SafeProducts(Binary(l, op, r))
    ensures SpineIs(Canon(r), op)
    decreases r, 1
  {
    if Precedence(r) == OperatorPrecedence(op) && OperatorAssociativity(op) == Left {
      SafeSpine(l, op, r);
      CanonSpine(r, op);
    } else {
      CanonLevel(r);
    }
  }

  lemma {:induction false} LiteralEval<V(!new)>(m: Meaning<V>, e: Expr)
    requires Associative(m) && LiteralKindOfPlusOperand(e).Some?
    ensures m.literal(LiteralKindOfPlusOperand(e).value, Eval(m, e))
  {
    match e
    case PartiallyEmitted(e') => LiteralEval(m, e');
    case Binary(l, _, r) => LiteralEval(m, l); LiteralEval(m, r);
    case _ =>
  }

  lemma {:induction false} GraftLiteral(l: Expr, r: Expr)
    requires LiteralKindOfPlusOperand(l).Some?
    requires LiteralKindOfPlusOperand(l) == LiteralKindOfPlusOperand(r)
    ensures LiteralKindOfPlusOperand(Graft(l, PlusToken, r)) == LiteralKindOfPlusOperand(l)
    decreases r
  {
    if SameLeftLevel(r, PlusToken) {
      GraftLiteral(l, r.left);
    }
  }

  lemma {:induction false} CanonLiteral(e: Expr)
    requires LiteralKindOfPlusOperand(e).Some?
    ensures LiteralKindOfPlusOperand(Canon(e)) == LiteralKindOfPlusOperand(e)
  {
    match e
    case PartiallyEmitted(e') => CanonLiteral(e');
    case Binary(l, _, r) => CanonLiteral(l); CanonLiteral(r); GraftLiteral(Canon(l), Canon(r));
    case _ =>
  }

  lemma {:induction false} GraftEval<V(!new)>(m: Meaning<V>, l: Expr, op: BinaryOperator, r: Expr)
    requires Associative(m) && HasAssociativeProperty(op) && SpineIs(r, op)
    ensures Eval(m, Graft(l, op, r)) == m.apply(op, Eval(m, l), Eval(m, r))
    decreases r
  {
    if SameLeftLevel(r, op) {
      GraftEval(m, l, op, r.left);
    }
  }

  lemma {:induction false} GraftLiteralEval<V(!new)>(m: Meaning<V>, l: Expr, r: Expr)
    requires Associative(m)
    requires LiteralKindOfPlusOperand(l).Some?
    requires LiteralKindOfPlusOperand(l) == LiteralKindOfPlusOperand(r)
    ensures Eval(m, Graft(l, PlusToken, r)) == m.apply(PlusToken, Eval(m, l), Eval(m, r))
    decreases r
  {
    if SameLeftLevel(r, PlusToken) {
      GraftLiteralEval(m, l, r.left);
      LiteralEval(m, l);
      LiteralEval(m, r.left);
      LiteralEval(m, r.right);
    }
  }

  /** Reading back keeps every meaning in which the associative operators associate. */
  lemma {:induction false} CanonKeepsMeaning<V(!new)>(m: Meaning<V>, e: Expr)
    requires Associative(m) && Built(e) && SafeProducts(e)
    ensures Eval(m, Canon(e)) == Eval(m, e)
  {
    hide MayRegroup;
    match e
    case Leaf(_, _) =>
    case Paren(e') => CanonKeepsMeaning(m, e');
    case PartiallyEmitted(e') => CanonKeepsMeaning(m, e');
    case Binary(l, op, r) =>
      CanonKeepsMeaning(m, l);
      CanonKeepsMeaning(m, r);
      CanonLevel(r);
      if SameLeftLevel(Canon(r), op) {
        SafeSpine(l, op, r);
        RightSpine(l, op, r);
        if op == PlusToken {
          BuiltOperandsFit(l, op, r);
          MayRegroupIff(l, op, r);
          CanonLiteral(l);
          CanonLiteral(r);
          GraftLiteralEval(m, Canon(l), Canon(r));
        } else {
          GraftEval(m, Canon(l), op, Canon(r));
        }
      }
  }

  // ---------- Meaning is lost ----------

  /** Counts leaves, and charges every division for the leaves to its left. */
  datatype Weight = Weight(leaves: nat, cost: nat)

  function Weigh(op: BinaryOperator, a: Weight, b: Weight): Weight {
    Weight(a.leaves + b.leaves, a.cost + b.cost + if Divides(op) then a.leaves else 0)
  }

  const SCALE: Meaning<Weight> := Meaning((kind, id) => Weight(1, 0), Weigh, (kind, w) => true)

  lemma ScaleAssociates()
    ensures Associative(SCALE)
  {
  }

  function Leaves(e: Expr): nat { Eval(SCALE, e).leaves }
  function Cost(e: Expr): nat { Eval(SCALE, e).cost }

  lemma {:induction false} HasLeaves(e: Expr)
    ensures Leaves(e) >= 1
  {
    match e
    case Leaf(_, _) =>
    case Paren(e') => HasLeaves(e');
    case PartiallyEmitted(e') => HasLeaves(e');
    case Binary(l, _, _) => HasLeaves(l);
  }

  /** `LeftSpineDivides` on a tree without partially emitted wrappers. */
  predicate BareSpineDivides(e: Expr) {
    e.Binary? && OperatorPrecedence(e.op) == MULTIPLICATIVE && (Divides(e.op) || BareSpineDivides(e.left))
  }

  lemma {:induction false} GraftDivides(l: Expr, op: BinaryOperator, r: Expr)
    requires OperatorPrecedence(op) == MULTIPLICATIVE && (Divides(op) || BareSpineDivides(l))
    ensures BareSpineDivides(Graft(l, op, r))
    decreases r
  {
    if SameLeftLevel(r, op) {
      GraftDivides(l, op, r.left);
    }
  }

  lemma {:induction false} CanonDivides(e: Expr)
    requires LeftSpineDivides(e)
    ensures BareSpineDivides(Canon(e))
  {
    match e
    case PartiallyEmitted(e') => CanonDivides(e');
    case Binary(l, op, r) =>
      if !Divides(op) {
        CanonDivides(l);
      }
      GraftDivides(Canon(l), op, Canon(r));
  }

  /** Grafting never makes a division cheaper, and makes it dearer when one is grafted past. */
  lemma {:induction false} GraftCost(l: Expr, op: BinaryOperator, r: Expr)
    ensures Leaves(Graft(l, op, r)) == Leaves(l) + Leaves(r)
    ensures Cost(Graft(l, op, r)) >= Cost(Binary(l, op, r))
    ensures op == AsteriskToken && BareSpineDivides(r) ==> Cost(Graft(l, op, r)) > Cost(Binary(l, op, r))
    decreases r
  {
    if SameLeftLevel(r, op) {
      HasLeaves(l);
      GraftCost(l, op, r.left);
    }
  }

  lemma {:induction false} CanonCost(e: Expr)
    ensures Leaves(Canon(e)) == Leaves(e)
    ensures Cost(Canon(e)) >= Cost(e)
    ensures !SafeProducts(e) ==> Cost(Canon(e)) > Cost(e)
  {
    match e
    case Leaf(_, _) =>
    case Paren(e') => CanonCost(e');
    case PartiallyEmitted(e') => CanonCost(e');
    case Binary(l, op, r) =>
      CanonCost(l);
      CanonCost(r);
      if SplitsProduct(op, r) {
        CanonDivides(r);
      }
      GraftCost(Canon(l), op, Canon(r));
  }

  // ---------- Main results ----------

  /**
   * Print and read back, for a tree built by the factory: all tokens are read and every associative
   * meaning survives if and only if the tree assigns to left-hand sides only, its text opens no type
   * arguments, and no bare product is split.
   */
  lemma ReparseKeepsMeaningIff(e: Expr)
    requires Built(e)
    ensures var p := ParseExpression(Print(e));
            (p.Parsed? && p.rest == []
             && forall m: Meaning<Weight> | Associative(m) :: Eval(m, p.node) == Eval(m, e))
            <==> ValidTargets(e) && NoTypeArguments(e, []) && SafeProducts(e)
  {
    hide NoTypeArguments, ParseExpression;
    ReadsBackIff(e);
    if SafeProducts(e) {
      forall m: Meaning<Weight> | Associative(m) ensures Eval(m, Canon(e)) == Eval(m, e) {
        CanonKeepsMeaning(m, e);
      }
    } else {
      CanonCost(e);
      ScaleAssociates();
      assert Eval(SCALE, Canon(e)) != Eval(SCALE, e);
    }
  }

  /** The same for any tree whatever, rebuilt bottom-up by the factory, in any value domain. */
  lemma RebuildPrintParse<V(!new)>(m: Meaning<V>, e: Expr)
    requires Associative(m)
    requires ValidTargets(Rebuild(e)) && NoTypeArguments(Rebuild(e), []) && SafeProducts(Rebuild(e))
    ensures var p := ParseExpression(Print(Rebuild(e)));
            p.Parsed? && p.rest == [] && Eval(m, p.node) == Eval(m, e)
  {
    PrintThenParse(Rebuild(e));
    CanonKeepsMeaning(m, Rebuild(e));
    RebuildKeepsTree(e);
    StripKeepsMeaning(m, e);
    StripKeepsMeaning(m, Rebuild(e));
  }

  lemma {:induction false} StripKeepsMeaning<V>(m: Meaning<V>, e: Expr)
    ensures Eval(m, Strip(e)) == Eval(m, e)
  {
    match e
    case Leaf(_, _) =>
    case Paren(e') => StripKeepsMeaning(m, e');
    case PartiallyEmitted(e') => StripKeepsMeaning(m, e');
    case Binary(l, op, r) => StripKeepsMeaning(m, l); StripKeepsMeaning(m, r);
  }

  /** `x * ((c % d) * b)` is built without parentheses and comes back as `((x * c) % d) * b`. */
  lemma SplitProductExample(x: Expr, c: Expr, d: Expr, b: Expr)
    requires x.Leaf? && c.Leaf? && d.Leaf? && b.Leaf?
    ensures var cdb := CreateBinary(CreateBinary(c, PercentToken, d), AsteriskToken, b);
            var e := CreateBinary(x, AsteriskToken, cdb);
            && Built(e) && SplitsProduct(AsteriskToken, cdb)
            && ParseExpression(Print(e))
               == Parsed(Binary(Binary(Binary(x, AsteriskToken, c), PercentToken, d), AsteriskToken, b), [])
  {
    var cd, cdb, e := SplitProductBuilt(x, c, d, b);
    assert Graft(x, AsteriskToken, cd) == Binary(Binary(x, AsteriskToken, c), PercentToken, d);
    NothingToTry(e, []);
    PrintThenParse(e);
  }

  lemma SplitProductBuilt(x: Expr, c: Expr, d: Expr, b: Expr) returns (cd: Expr, cdb: Expr, e: Expr)
    requires x.Leaf? && c.Leaf? && d.Leaf? && b.Leaf?
    ensures cd == CreateBinary(c, PercentToken, d) == Binary(c, PercentToken, d) == Canon(cd)
    ensures cdb == CreateBinary(cd, AsteriskToken, b) == Binary(cd, AsteriskToken, b) == Canon(cdb)
    ensures e == CreateBinary(x, AsteriskToken, cdb) == Binary(x, AsteriskToken, cdb)
    ensures Built(e) && ValidTargets(e) && HasNoLessThan(e) && LeftSpineDivides(cdb)
  {
    cd := Binary(c, PercentToken, d);
    cdb := Binary(cd, AsteriskToken, b);
    e := Binary(x, AsteriskToken, cdb);
    assert ValidTargets(x) && ValidTargets(c) && ValidTargets(d) && ValidTargets(b);
    assert Built(c) && Built(d) && Built(cd) && Built(b) && Built(cdb) && Built(x);
    assert HasNoLessThan(x) && HasNoLessThan(c) && HasNoLessThan(d) && HasNoLessThan(b);
    assert HasNoLessThan(cd) && HasNoLessThan(cdb);
    assert ValidTargets(cd) && ValidTargets(cdb) && LeftSpineDivides(cd);
  }
}
