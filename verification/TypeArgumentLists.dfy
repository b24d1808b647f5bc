/**
 * The well-formed lists of type arguments that the tokens of an expression can spell: names, `this`,
 * literals, negative numbers, unions, intersections, parentheses and references with arguments. In
 * front of such a list the answer of the trial depends on the token behind `>` alone.
 */
module TypeArgumentLists {
  import opened Operators
  import opened Expressions
  import opened ExpressionTokens
  import opened TypeArguments
  import opened TypeArgumentText
  import opened TypeArgumentTrial
  import opened Wrappers

  // ---------- Well-formed lists ----------

  const LITERALS: set<Raw> := {StringText, NumericText, BigIntText, TemplateText}

  predicate IsUnion(p: Passage)
    decreases p
  {
    p.Members? && p.separator == Bar && IsIntersection(p.first) && AreIntersections(p.more)
  }

  predicate AreIntersections(more: List<Passage>)
    decreases more
  {
    more.Cons? ==> IsIntersection(more.head) && AreIntersections(more.tail)
  }

  predicate IsIntersection(p: Passage)
    decreases p
  {
    p.Members? && p.separator == Ampersand && IsOperand(p.first) && AreOperands(p.more)
  }

  predicate AreOperands(more: List<Passage>)
    decreases more
  {
    more.Cons? ==> IsOperand(more.head) && AreOperands(more.tail)
  }

  predicate IsOperand(p: Passage)
    decreases p
  {
    match p
    case Simple(token) => token == This || token in LITERALS
    case Negative(number) => number == NumericText || number == BigIntText
    case Group(inner, closed) => closed && IsUnion(inner)
    case Reference(name, dots, arguments) =>
      name == Some(Word) && AreNames(dots) && (arguments.Some? ==> IsArguments(arguments.value))
    case _ => false
  }

  predicate AreNames(dots: List<Option<Raw>>)
    decreases dots
  {
    dots.Cons? ==> dots.head == Some(Word) && AreNames(dots.tail)
  }

  predicate IsArguments(a: Arguments)
    decreases a
  {
    a.opening == Less && a.closed && IsList(a.items)
  }

  /** One argument or more, with a comma between each two and none behind. */
  predicate IsList(items: Items)
    decreases items
  {
    items.Item? && IsUnion(items.head) && (items.tail.CommaThen? ==> IsList(items.tail.items))
  }

  // ---------- How their texts begin ----------

  lemma {:induction false} UnionBegins(p: Passage, rest: seq<Raw>)
    requires IsUnion(p)
    ensures StartsType(Text(p, rest)) && Text(p, rest)[0] !in {Less, Bar, Ampersand}
    decreases p
  {
    IntersectionBegins(p.first, MoreText(Bar, p.more, rest));
  }

  lemma {:induction false} IntersectionBegins(p: Passage, rest: seq<Raw>)
    requires IsIntersection(p)
    ensures StartsType(Text(p, rest)) && Text(p, rest)[0] !in {Less, Bar, Ampersand}
    decreases p
  {
    OperandBegins(p.first, MoreText(Ampersand, p.more, rest));
  }

  lemma {:induction false} OperandBegins(p: Passage, rest: seq<Raw>)
    requires IsOperand(p)
    ensures StartsType(Text(p, rest)) && Text(p, rest)[0] !in {Less, Bar, Ampersand}
    decreases p
  {
    match p
    case Simple(_) =>
    case Negative(_) =>
    case Reference(_, _, _) =>
    case Group(inner, _) =>
      UnionBegins(inner, [CloseParen] + rest);
      Behind(OpenParen, Text(inner, [CloseParen] + rest));
  }

  /** Neither `)` nor a name in front of `,` or `=`. */
  predicate NoParameter(ts: seq<Raw>) {
    ts != [] && ts[0] != CloseParen && !(|ts| > 1 && ts[0] in {Word, This} && ts[1] in {Comma, Equals})
  }

  predicate NoComma(rest: seq<Raw>) {
    rest != [] ==> rest[0] != Comma && rest[0] != Equals
  }

  lemma UnionIsNoParameter(p: Passage, rest: seq<Raw>)
    requires IsUnion(p) && NoComma(rest)
    ensures NoParameter(Text(p, rest))
  {
    var tail := MoreText(Bar, p.more, rest);
    assert NoComma(tail);
    IntersectionIsNoParameter(p.first, tail);
  }

  lemma IntersectionIsNoParameter(p: Passage, rest: seq<Raw>)
    requires IsIntersection(p) && NoComma(rest)
    ensures NoParameter(Text(p, rest))
  {
    var tail := MoreText(Ampersand, p.more, rest);
    assert NoComma(tail);
    OperandIsNoParameter(p.first, tail);
  }

  lemma OperandIsNoParameter(p: Passage, rest: seq<Raw>)
    requires IsOperand(p) && NoComma(rest)
    ensures NoParameter(Text(p, rest))
  {
    if p.Reference? {
      var tail := if p.arguments.Some? then ArgumentsText(p.arguments.value, rest) else rest;
      assert NoComma(DotsText(p.dots, tail));
      Behind(Word, DotsText(p.dots, tail));
    } else if p.Simple? {
      Behind(p.token, rest);
    }
  }

  lemma UnionIsNoFunction(p: Passage, rest: seq<Raw>)
    requires IsUnion(p)
    ensures !OpensFunction(Text(p, rest))
  {
    UnionBegins(p, rest);
    IntersectionIsNoFunction(p.first, MoreText(Bar, p.more, rest));
  }

  lemma IntersectionIsNoFunction(p: Passage, rest: seq<Raw>)
    requires IsIntersection(p)
    ensures !OpensFunction(Text(p, rest))
  {
    OperandIsNoFunction(p.first, MoreText(Ampersand, p.more, rest));
  }

  lemma OperandIsNoFunction(p: Passage, rest: seq<Raw>)
    requires IsOperand(p)
    ensures !OpensFunction(Text(p, rest))
  {
    OperandBegins(p, rest);
    if p.Group? {
      UnionIsNoParameter(p.inner, [CloseParen] + rest);
      Behind(OpenParen, Text(p.inner, [CloseParen] + rest));
    }
  }

  // ---------- They are passed ----------

  predicate EndsOperand(rest: seq<Raw>) {
    rest != [] ==> rest[0] !in {Dot, Less, LessJoined}
  }

  predicate EndsType(rest: seq<Raw>) {
    EndsOperand(rest) && !At(rest, Bar) && !At(rest, Ampersand)
  }

  lemma {:induction false} UnionPasses(p: Passage, rest: seq<Raw>)
    requires IsUnion(p) && EndsType(rest)
    ensures PassesType(p, rest)
    decreases p
  {
    var tail := MoreText(Bar, p.more, rest);
    UnionIsNoFunction(p, rest);
    IntersectionBegins(p.first, tail);
    IntersectionsPass(p.more, rest);
    assert EndsOperand(tail) && !At(tail, Ampersand);
    IntersectionPasses(p.first, tail);
  }

  lemma {:induction false} IntersectionsPass(more: List<Passage>, rest: seq<Raw>)
    requires AreIntersections(more) && EndsType(rest)
    ensures PassesMembers(more, Bar, rest)
    decreases more
  {
    if more.Cons? {
      var next := MoreText(Bar, more.tail, rest);
      assert EndsOperand(next) && !At(next, Ampersand);
      IntersectionPasses(more.head, next);
      IntersectionIsNoFunction(more.head, next);
      IntersectionsPass(more.tail, rest);
    }
  }

  lemma {:induction false} IntersectionPasses(p: Passage, rest: seq<Raw>)
    requires IsIntersection(p) && EndsOperand(rest) && !At(rest, Ampersand)
    ensures PassesIntersection(p, rest)
    decreases p
  {
    var tail := MoreText(Ampersand, p.more, rest);
    OperandBegins(p.first, tail);
    OperandsPass(p.more, rest);
    assert EndsOperand(tail);
    OperandPasses(p.first, tail);
  }

  lemma {:induction false} OperandsPass(more: List<Passage>, rest: seq<Raw>)
    requires AreOperands(more) && EndsOperand(rest) && !At(rest, Ampersand)
    ensures PassesMembers(more, Ampersand, rest)
    decreases more
  {
    if more.Cons? {
      var next := MoreText(Ampersand, more.tail, rest);
      assert EndsOperand(next);
      OperandPasses(more.head, next);
      OperandIsNoFunction(more.head, next);
      OperandsPass(more.tail, rest);
    }
  }

  lemma {:induction false} OperandPasses(p: Passage, rest: seq<Raw>)
    requires IsOperand(p) && EndsOperand(rest)
    ensures PassesOperand(p, rest)
    decreases p
  {
    match p
    case Simple(_) =>
    case Negative(_) =>
    case Group(inner, _) => UnionPasses(inner, [CloseParen] + rest);
    case Reference(_, dots, arguments) =>
      if arguments.Some? {
        ArgumentsPass(arguments.value, rest);
        NamesPass(dots, ArgumentsText(arguments.value, rest));
      } else {
        NamesPass(dots, rest);
      }
  }

  lemma {:induction false} NamesPass(dots: List<Option<Raw>>, rest: seq<Raw>)
    requires AreNames(dots) && !At(rest, Dot)
    ensures PassesDots(dots, rest)
    decreases dots
  {
    if dots.Cons? {
      NamesPass(dots.tail, rest);
    }
  }

  lemma {:induction false} ArgumentsPass(a: Arguments, rest: seq<Raw>)
    requires IsArguments(a)
    ensures PassesArguments(a, rest)
    decreases a
  {
    ListPasses(a.items, [Greater] + rest);
  }

  lemma {:induction false} ListPasses(items: Items, rest: seq<Raw>)
    requires IsList(items) && At(rest, Greater)
    ensures PassesItems(items, rest)
    decreases items
  {
    var next := ItemTailText(items.tail, rest);
    UnionBegins(items.head, next);
    OpensTypeIff(Text(items.head, next));
    UnionPasses(items.head, next);
    if items.tail.CommaThen? {
      ListPasses(items.tail.items, rest);
    }
  }

  /** Whatever the arguments are, the token behind `>` decides. */
  lemma ListDivertsIff(items: Items, more: seq<Raw>)
    requires IsList(items)
    ensures TrialDiverts(ItemsText(items, [Greater] + more)) <==> CanFollow(more)
  {
    ListPasses(items, [Greater] + more);
    ItemsPassed(items, [Greater] + more);
    hide ReadArguments, CanFollow;
    Behind(Greater, more);
  }

  // ---------- The token behind `>` ----------

  /** What `isBinaryOperator` holds for, and three assignments by the first token the scanner delivers of them. */
  predicate BeginsOperand(op: BinaryOperator) {
    BinaryOperatorPrecedence(op) > 0
    || (op.Assignment? && op.token in {SlashEqualsToken, GreaterThanGreaterThanEqualsToken,
                                       GreaterThanGreaterThanGreaterThanEqualsToken})
  }

  lemma BeginsOperandIff(op: BinaryOperator)
    ensures RawOperator(op) != [] && (MayFollow(RawOperator(op)[0]) <==> !BeginsOperand(op))
  {
  }

  /**
   * Type arguments may stand in front of the end, a parenthesis, a template, a comma and an
   * assignment; not in front of any other leaf, a binary operator, `/=`, `>>=` and `>>>=`.
   */
  lemma CanFollowIff(ts: seq<Token>)
    ensures CanFollow(RawTokens(ts)) <==>
            ts == [] || match ts[0]
                        case OpenParenToken => true
                        case CloseParenToken => true
                        case LeafToken(kind, _) => kind == Literal(NoSubstitutionTemplateLiteral)
                        case OperatorToken(op) => !BeginsOperand(op)
  {
    if ts != [] {
      RawOfFirst(ts[0], ts[1..]);
      assert ts == [ts[0]] + ts[1..];
      var first, rest := RawToken(ts[0]), RawTokens(ts[1..]);
      hide RawTokens, RawLeaf, RawOperator, CanFollow, BeginsOperand;
      match ts[0]
      case LeafToken(kind, _) =>
        LeafFollowIff(kind);
        FirstDecides(first, rest);
      case OperatorToken(op) =>
        BeginsOperandIff(op);
        FirstDecides(first, rest);
      case _ => FirstDecides(first, rest);
    }
  }

  predicate MayFollow(t: Raw) {
    t.OpenParen? || t.TemplateText? || !StartsExpression(t)
  }

  lemma FirstDecides(first: seq<Raw>, rest: seq<Raw>)
    requires first != []
    ensures CanFollow(first + rest) <==> MayFollow(first[0])
  {
    assert (first + rest)[0] == first[0];
  }

  lemma LeafFollowIff(kind: LeafKind)
    ensures RawLeaf(kind) != [] && (MayFollow(RawLeaf(kind)[0]) <==> kind == Literal(NoSubstitutionTemplateLiteral))
  {
  }

  // ---------- Lists that trees spell ----------

  /** Trees whose text is a union type: names, literals, `|`, `&` and parentheses, grouped in any way. */
  predicate SpellsUnion(e: Expr) {
    match e
    case Leaf(kind, _) => !kind.CallExpression? && kind != Literal(RegularExpressionLiteral)
    case Paren(e') => SpellsUnion(e')
    case PartiallyEmitted(e') => SpellsUnion(e')
    case Binary(l, op, r) => (op == BarToken || op == AmpersandToken) && SpellsUnion(l) && SpellsUnion(r)
  }

  /** An operand, the operands that `&` joins to it, and the intersections that `|` joins to these. */
  datatype Chain = Chain(first: Passage, operands: List<Passage>, members: List<Passage>)

  function UnionOf(c: Chain): Passage {
    Members(Bar, Members(Ampersand, c.first, c.operands), c.members)
  }

  function LeafOperand(kind: LeafKind): Passage {
    match kind
    case Identifier => Reference(Some(Word), Nil, None)
    case PropertyAccessExpression => Reference(Some(Word), Cons(Some(Word), Nil), None)
    case _ => Simple(RawLeaf(kind)[0])
  }

  /** The type that `e` spells in front of further operands and members. */
  function Spelled(e: Expr, operands: List<Passage>, members: List<Passage>): Chain {
    match e
    case Leaf(kind, _) => Chain(LeafOperand(kind), operands, members)
    case Paren(e') => Chain(Group(UnionOf(Spelled(e', Nil, Nil)), true), operands, members)
    case PartiallyEmitted(e') => Spelled(e', operands, members)
    case Binary(l, op, r) =>
      var c := Spelled(r, operands, members);
      if op == AmpersandToken then Spelled(l, Cons(c.first, c.operands), c.members)
      else Spelled(l, Nil, Cons(Members(Ampersand, c.first, c.operands), c.members))
  }

  function ChainText(operands: List<Passage>, members: List<Passage>, rest: seq<Raw>): seq<Raw> {
    MoreText(Ampersand, operands, MoreText(Bar, members, rest))
  }

  lemma ChainHasText(c: Chain, rest: seq<Raw>)
    ensures Text(UnionOf(c), rest) == Text(c.first, ChainText(c.operands, c.members, rest))
    ensures ChainText(Nil, Cons(Members(Ampersand, c.first, c.operands), c.members), rest)
            == [Bar] + Text(c.first, ChainText(c.operands, c.members, rest))
    ensures ChainText(Cons(c.first, c.operands), c.members, rest)
            == [Ampersand] + Text(c.first, ChainText(c.operands, c.members, rest))
  {
    var member := Members(Ampersand, c.first, c.operands);
    var tail := MoreText(Bar, c.members, rest);
    assert Text(member, tail) == Text(c.first, MoreText(Ampersand, c.operands, tail));
    assert MoreText(Bar, Cons(member, c.members), rest) == [Bar] + Text(member, tail);
  }

  lemma {:induction false} SpelledIsChain(e: Expr, operands: List<Passage>, members: List<Passage>)
    requires SpellsUnion(e) && AreOperands(operands) && AreIntersections(members)
    ensures var c := Spelled(e, operands, members);
            IsOperand(c.first) && AreOperands(c.operands) && AreIntersections(c.members)
    decreases e
  {
    match e
    case Leaf(kind, _) =>
    case Paren(e') => SpelledIsChain(e', Nil, Nil);
    case PartiallyEmitted(e') => SpelledIsChain(e', operands, members);
    case Binary(l, op, r) =>
      SpelledIsChain(r, operands, members);
      var c := Spelled(r, operands, members);
      if op == AmpersandToken {
        SpelledIsChain(l, Cons(c.first, c.operands), c.members);
      } else {
        SpelledIsChain(l, Nil, Cons(Members(Ampersand, c.first, c.operands), c.members));
      }
  }

  lemma {:induction false} SpelledHasText(e: Expr, operands: List<Passage>, members: List<Passage>, ts: seq<Token>, rest: seq<Raw>)
    requires SpellsUnion(e) && RawTokens(ts) == ChainText(operands, members, rest)
    ensures var c := Spelled(e, operands, members);
            RawTokens(PrintOnto(e, ts)) == Text(c.first, ChainText(c.operands, c.members, rest))
    decreases e
  {
    match e
    case Leaf(kind, id) =>
      RawOfFirst(LeafToken(kind, id), ts);
      LeafHasText(kind, RawTokens(ts));
    case Paren(e') =>
      var inner := UnionOf(Spelled(e', Nil, Nil));
      RawOfFirst(CloseParenToken, ts);
      SpelledHasText(e', Nil, Nil, [CloseParenToken] + ts, [CloseParen] + RawTokens(ts));
      ChainHasText(Spelled(e', Nil, Nil), [CloseParen] + RawTokens(ts));
      assert Text(Group(inner, true), RawTokens(ts)) == [OpenParen] + Text(inner, [CloseParen] + RawTokens(ts));
      RawOfFirst(OpenParenToken, PrintOnto(e', [CloseParenToken] + ts));
    case PartiallyEmitted(e') => SpelledHasText(e', operands, members, ts, rest);
    case Binary(l, op, r) =>
      SpelledHasText(r, operands, members, ts, rest);
      var c := Spelled(r, operands, members);
      ChainHasText(c, rest);
      RawOfFirst(OperatorToken(op), PrintOnto(r, ts));
      var tail := [OperatorToken(op)] + PrintOnto(r, ts);
      if op == AmpersandToken {
        SpelledHasText(l, Cons(c.first, c.operands), c.members, tail, rest);
      } else {
        SpelledHasText(l, Nil, Cons(Members(Ampersand, c.first, c.operands), c.members), tail, rest);
      }
  }

  lemma LeafHasText(kind: LeafKind, rest: seq<Raw>)
    requires SpellsUnion(Leaf(kind, 0))
    ensures Text(LeafOperand(kind), rest) == RawLeaf(kind) + rest
  {
    if kind.PropertyAccessExpression? {
      assert DotsText(Cons(Some(Word), Nil), rest) == [Dot] + ([Word] + rest);
    }
  }

  /** The trees with a comma between each two, in front of `ts`. */
  function PrintList(es: seq<Expr>, ts: seq<Token>): seq<Token>
    requires es != []
  {
    PrintOnto(es[0], if |es| == 1 then ts else [OperatorToken(CommaToken)] + PrintList(es[1..], ts))
  }

  lemma {:induction false} PrintedIsList(es: seq<Expr>, ts: seq<Token>) returns (items: Items)
    requires es != [] && forall e :: e in es ==> SpellsUnion(e)
    ensures IsList(items) && ItemsText(items, RawTokens(ts)) == RawTokens(PrintList(es, ts))
    decreases |es|
  {
    var tail := LastItem;
    var next := ts;
    if |es| > 1 {
      var more := PrintedIsList(es[1..], ts);
      tail := CommaThen(more);
      next := [OperatorToken(CommaToken)] + PrintList(es[1..], ts);
      RawOfFirst(OperatorToken(CommaToken), PrintList(es[1..], ts));
    }
    SpelledIsChain(es[0], Nil, Nil);
    SpelledHasText(es[0], Nil, Nil, next, RawTokens(next));
    ChainHasText(Spelled(es[0], Nil, Nil), RawTokens(next));
    items := Item(UnionOf(Spelled(es[0], Nil, Nil)), tail);
  }

  /**
   * Behind a leaf or a closing parenthesis, `<`, such trees with a comma between each two, and `>`
   * are taken for type arguments exactly when the tokens behind `>` allow it.
   */
  lemma SpelledListOpensIff(es: seq<Expr>, ts: seq<Token>)
    requires es != [] && forall e :: e in es ==> SpellsUnion(e)
    ensures OpensTypeArguments([OperatorToken(LessThanToken)] + PrintList(es, [OperatorToken(GreaterThanToken)] + ts))
            <==> CanFollow(RawTokens(ts))
  {
    hide TrialDiverts, CanFollow, RawTokens, PrintList, ItemsText, IsList, SpellsUnion;
    var behind := [OperatorToken(GreaterThanToken)] + ts;
    var items := PrintedIsList(es, behind);
    RawOfFirst(OperatorToken(GreaterThanToken), ts);
    RawOfFirst(OperatorToken(LessThanToken), PrintList(es, behind));
    Behind(Less, RawTokens(PrintList(es, behind)));
    ListDivertsIff(items, RawTokens(ts));
  }
}
