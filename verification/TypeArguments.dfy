/**
 * The trial for type arguments behind a primary expression. The scanner delivers every `>` on its
 * own and a `<<` can be split, so the trial runs over tokens as the scanner delivers them. The type
 * parser recovers from errors and its errors do not count against the trial: what counts is where
 * it stops. Where it would have to read a JSDoc type it throws instead.
 *
 * The text is that of a factory tree. An initializer is therefore an expression that ends at the
 * next comma or parenthesis outside its own; if the parser reads it otherwise, it reads the tree
 * otherwise at that place too.
 */
module TypeArguments {
  import opened Operators
  import opened Expressions
  import opened ExpressionTokens

  datatype Raw =
    | Word
    | This
    | StringText
    | NumericText
    | BigIntText
    | TemplateText
    | OpenParen
    | CloseParen
    | Comma
    | Dot
    | Less
    | LessJoined             // the first half of `<<`, a token of its own unless it is split
    | Greater
    | Equals
    | Star
    | StarEquals
    | QuestionQuestion
    | Minus
    | Bar
    | Ampersand
    | In
    | InstanceOf
    | Other(startsExpression: bool)

  // ---------- Tokens as the scanner delivers them ----------

  function RawLeaf(kind: LeafKind): seq<Raw> {
    match kind
    case Identifier => [Word]
    case ThisKeyword => [This]
    case Literal(NumericLiteral) => [NumericText]
    case Literal(BigIntLiteral) => [BigIntText]
    case Literal(StringLiteral) => [StringText]
    case Literal(NoSubstitutionTemplateLiteral) => [TemplateText]
    case Literal(RegularExpressionLiteral) => [Other(true)]       // a slash, until it is scanned again
    case CallExpression => [Word, OpenParen, CloseParen]
    case PropertyAccessExpression => [Word, Dot, Word]
  }

  function RawAssignment(token: AssignmentToken): seq<Raw> {
    match token
    case EqualsToken => [Equals]
    case AsteriskEqualsToken => [StarEquals]
    case SlashEqualsToken => [Other(true)]
    case GreaterThanGreaterThanEqualsToken => [Greater, Greater, Equals]
    case GreaterThanGreaterThanGreaterThanEqualsToken => [Greater, Greater, Greater, Equals]
    case _ => [Other(false)]
  }

  function RawOperator(op: BinaryOperator): seq<Raw> {
    match op
    case CommaToken => [Comma]
    case Assignment(token) => RawAssignment(token)
    case LessThanToken => [Less]
    case LessThanLessThanToken => [LessJoined, Less]
    case GreaterThanToken => [Greater]
    case GreaterThanEqualsToken => [Greater, Equals]
    case GreaterThanGreaterThanToken => [Greater, Greater]
    case GreaterThanGreaterThanGreaterThanToken => [Greater, Greater, Greater]
    case QuestionQuestionToken => [QuestionQuestion]
    case AsteriskToken => [Star]
    case MinusToken => [Minus]
    case BarToken => [Bar]
    case AmpersandToken => [Ampersand]
    case InKeyword => [In]
    case InstanceOfKeyword => [InstanceOf]
    case _ => [Other(true)]
  }

  function RawToken(t: Token): seq<Raw> {
    match t
    case LeafToken(kind, _) => RawLeaf(kind)
    case OpenParenToken => [OpenParen]
    case CloseParenToken => [CloseParen]
    case OperatorToken(op) => RawOperator(op)
  }

  function RawTokens(ts: seq<Token>): seq<Raw> {
    if ts == [] then [] else RawToken(ts[0]) + RawTokens(ts[1..])
  }

  // ---------- Questions about the next token ----------

  predicate At(ts: seq<Raw>, t: Raw) {
    ts != [] && ts[0] == t
  }

  function Expect(t: Raw, ts: seq<Raw>): (r: seq<Raw>)
    ensures |r| <= |ts|
  {
    if At(ts, t) then ts[1..] else ts
  }

  predicate IsNumber(t: Raw) { t.NumericText? || t.BigIntText? }

  predicate IsLiteral(t: Raw) { IsNumber(t) || t.StringText? || t.TemplateText? }

  /** `tokenIsIdentifierOrKeyword` */
  predicate IsName(t: Raw) { t.Word? || t.This? || t.In? || t.InstanceOf? }

  /** `isStartOfParameter`; `in` is a modifier there. */
  predicate StartsParameter(t: Raw) {
    t.Word? || t.This? || t.In? || IsLiteral(t) || t.Less? || t.Bar? || t.Ampersand? || t.Star?
  }

  /** `isStartOfType` */
  predicate StartsType(ts: seq<Raw>) {
    ts != []
    && match ts[0]
       case Word | This | Less | Bar | Ampersand | Star => true
       case Minus => |ts| > 1 && IsNumber(ts[1])
       case OpenParen => |ts| > 1 && (ts[1].CloseParen? || StartsParameter(ts[1]) || StartsType(ts[1..]))
       case t => IsLiteral(t)
  }

  /** `isStartOfExpression` */
  predicate StartsExpression(t: Raw) {
    match t
    case CloseParen | Comma | Dot | Equals | StarEquals => false
    case Other(starts) => starts
    case _ => true
  }

  /** `canFollowTypeArgumentsInExpression` */
  predicate CanFollow(ts: seq<Raw>) {
    ts == [] || ts[0].OpenParen? || ts[0].TemplateText? || !StartsExpression(ts[0])
  }

  /** `isUnambiguouslyStartOfFunctionType` behind the parenthesis; no `=>` occurs in an expression. */
  predicate StartsParameterList(ts: seq<Raw>) {
    At(ts, CloseParen)
    || (|ts| > 1 && (ts[0].Word? || ts[0].This?) && (ts[1].Comma? || ts[1].Equals?))
  }

  /** `isStartOfFunctionTypeOrConstructorType` */
  predicate StartsFunction(ts: seq<Raw>) {
    At(ts, Less) || (At(ts, OpenParen) && StartsParameterList(ts[1..]))
  }

  // ---------- Parameters ----------

  /** `parseModifiers`, where only `in` can be one. */
  function AfterModifiers(ts: seq<Raw>): (r: seq<Raw>)
    ensures |r| <= |ts|
  {
    if |ts| > 1 && ts[0].In? && (IsName(ts[1]) || ts[1].StringText? || ts[1].NumericText? || ts[1].Star?)
    then AfterModifiers(ts[1..])
    else ts
  }

  /** Behind an expression that follows `=`. */
  function AfterInitializer(depth: nat, ts: seq<Raw>): (r: seq<Raw>)
    ensures |r| <= |ts|
    decreases |ts|
  {
    if ts == [] then ts
    else if ts[0].OpenParen? then AfterInitializer(depth + 1, ts[1..])
    else if ts[0].CloseParen? then (if depth == 0 then ts else AfterInitializer(depth - 1, ts[1..]))
    else if ts[0].Comma? && depth == 0 then ts
    else AfterInitializer(depth, ts[1..])
  }

  /** `parseParameter`; a name that is not there takes no token, except that `in` is passed over. */
  function AfterParameter(ts: seq<Raw>): (r: seq<Raw>)
    ensures |r| <= |ts|
  {
    if At(ts, This) then ts[1..]
    else
      var m := AfterModifiers(ts);
      var name := if At(m, Word) then m[1..] else if m == ts then Expect(In, ts) else m;
      if At(name, Equals) then AfterInitializer(0, name[1..]) else name
  }

  /** `parseDelimitedList` for parameters: a missing comma is passed over, and a token that makes no progress is. */
  function AfterParameters(ts: seq<Raw>): (r: seq<Raw>)
    ensures |r| <= |ts|
    decreases |ts|
  {
    if ts == [] || !StartsParameter(ts[0]) then ts
    else
      var next := AfterParameter(ts);
      if At(next, Comma) then AfterParameters(next[1..])
      else if next == [] || next[0].CloseParen? then next
      else AfterParameters(if |next| == |ts| then ts[1..] else next)
  }

  // ---------- Types ----------

  /** Where reading stops, unless it throws. */
  datatype Read = Threw | Stop(rest: seq<Raw>)

  function ReadType(ts: seq<Raw>): (r: Read)
    ensures r.Stop? ==> |r.rest| <= |ts|
    decreases |ts|, 6
  {
    if StartsFunction(ts) then ReadFunction(ts) else ReadUnion(ts)
  }

  /** `parseFunctionOrConstructorType`: the missing `=>` is reported and the return type is read where it stands. */
  function ReadFunction(ts: seq<Raw>): (r: Read)
    requires StartsFunction(ts)
    ensures r.Stop? ==> |r.rest| <= |ts|
    decreases |ts|, 5
  {
    var typeParameters := if At(ts, Less) then ReadTypeParameters(ts[1..]) else Stop(ts);
    if typeParameters.Threw? then Threw else
    var tail := if At(ts, Less) then Expect(Greater, typeParameters.rest) else ts;
    ReadType(if At(tail, OpenParen) then Expect(CloseParen, AfterParameters(tail[1..])) else tail)
  }

  /** `parseDelimitedList` for type parameters. */
  function ReadTypeParameters(ts: seq<Raw>): (r: Read)
    ensures r.Stop? ==> |r.rest| <= |ts|
    decreases |ts|, 7
  {
    if ts == [] || !(ts[0].Word? || ts[0].In?) then Stop(ts) else
    var name := Expect(Word, AfterModifiers(ts));
    var typed := if At(name, Equals) then ReadType(name[1..]) else Stop(name);
    if typed.Threw? then Threw
    else if At(typed.rest, Comma) then ReadTypeParameters(typed.rest[1..])
    else if typed.rest == [] || typed.rest[0].Greater? || typed.rest[0].OpenParen? then typed
    else ReadTypeParameters(if |typed.rest| == |ts| then ts[1..] else typed.rest)
  }

  /** `parseUnionTypeOrHigher`; behind a leading `|` only a function type is read before the next `|`. */
  function ReadUnion(ts: seq<Raw>): (r: Read)
    ensures r.Stop? ==> |r.rest| <= |ts|
    decreases |ts|, 4
  {
    var first :=
      if !At(ts, Bar) then ReadIntersection(ts)
      else if StartsFunction(ts[1..]) then ReadFunction(ts[1..])
      else Stop(ts[1..]);
    if first.Threw? then Threw else ReadMoreUnion(first.rest)
  }

  function ReadMoreUnion(ts: seq<Raw>): (r: Read)
    ensures r.Stop? ==> |r.rest| <= |ts|
    decreases |ts|, 0
  {
    if !At(ts, Bar) then Stop(ts) else
    var next := if StartsFunction(ts[1..]) then ReadFunction(ts[1..]) else ReadIntersection(ts[1..]);
    if next.Threw? then Threw else ReadMoreUnion(next.rest)
  }

  function ReadIntersection(ts: seq<Raw>): (r: Read)
    ensures r.Stop? ==> |r.rest| <= |ts|
    decreases |ts|, 3
  {
    var first :=
      if !At(ts, Ampersand) then ReadNonArray(ts)
      else if StartsFunction(ts[1..]) then ReadFunction(ts[1..])
      else Stop(ts[1..]);
    if first.Threw? then Threw else ReadMoreIntersection(first.rest)
  }

  function ReadMoreIntersection(ts: seq<Raw>): (r: Read)
    ensures r.Stop? ==> |r.rest| <= |ts|
    decreases |ts|, 0
  {
    if !At(ts, Ampersand) then Stop(ts) else
    var next := if StartsFunction(ts[1..]) then ReadFunction(ts[1..]) else ReadNonArray(ts[1..]);
    if next.Threw? then Threw else ReadMoreIntersection(next.rest)
  }

  /** `parseNonArrayType`; no postfix of a type occurs in an expression. */
  function ReadNonArray(ts: seq<Raw>): (r: Read)
    ensures r.Stop? ==> |r.rest| <= |ts|
    decreases |ts|, 2
  {
    if ts == [] then Stop(ts)
    else match ts[0]
      case Star | StarEquals | QuestionQuestion => Threw
      case This | StringText | NumericText | BigIntText | TemplateText => Stop(ts[1..])
      case OpenParen =>
        var inner := ReadType(ts[1..]);
        if inner.Threw? then Threw else Stop(Expect(CloseParen, inner.rest))
      case Minus => if |ts| > 1 && IsNumber(ts[1]) then Stop(ts[2..]) else ReadReference(ts)
      case _ => ReadReference(ts)
  }

  function AfterDots(ts: seq<Raw>): (r: seq<Raw>)
    ensures |r| <= |ts|
  {
    if !At(ts, Dot) then ts
    else if |ts| > 1 && IsName(ts[1]) then AfterDots(ts[2..])
    else AfterDots(ts[1..])
  }

  /** `parseTypeReference`; a name that is not there takes no token. */
  function ReadReference(ts: seq<Raw>): (r: Read)
    ensures r.Stop? ==> |r.rest| <= |ts|
    decreases |ts|, 1
  {
    var name := AfterDots(if ts != [] && IsName(ts[0]) then ts[1..] else ts);
    if At(name, Less) || At(name, LessJoined) then
      var arguments := ReadArguments(name[1..]);
      if arguments.Threw? then Threw else Stop(Expect(Greater, arguments.rest))
    else Stop(name)
  }

  /** `parseDelimitedList` for type arguments, which anything but a comma ends. */
  function ReadArguments(ts: seq<Raw>): (r: Read)
    ensures r.Stop? ==> |r.rest| <= |ts|
    decreases |ts|, 7
  {
    if !At(ts, Comma) && !StartsType(ts) then Stop(ts) else
    var argument := ReadType(ts);
    if argument.Stop? && At(argument.rest, Comma) then ReadArguments(argument.rest[1..]) else argument
  }

  // ---------- The trial ----------

  /** `parseTypeArgumentsInExpression` behind the `<` succeeds, or throws. */
  predicate TrialDiverts(ts: seq<Raw>) {
    var arguments := ReadArguments(ts);
    arguments.Threw? || (At(arguments.rest, Greater) && CanFollow(arguments.rest[1..]))
  }

  predicate AtLessThan(ts: seq<Token>) {
    ts != [] && (ts[0] == OperatorToken(LessThanToken) || ts[0] == OperatorToken(LessThanLessThanToken))
  }

  /** The parser goes for type arguments in front of these tokens. */
  predicate OpensTypeArguments(ts: seq<Token>) {
    AtLessThan(ts) && TrialDiverts(RawTokens(ts)[1..])
  }

  /**
   * No leaf or closing parenthesis of `e`, printed in front of `rest`, is followed by what the
   * trial takes for type arguments.
   */
  predicate NoTypeArguments(e: Expr, rest: seq<Token>) {
    match e
    case Leaf(_, _) => !OpensTypeArguments(rest)
    case Paren(e') => NoTypeArguments(e', [CloseParenToken] + rest) && !OpensTypeArguments(rest)
    case PartiallyEmitted(e') => NoTypeArguments(e', rest)
    case Binary(l, op, r) =>
      NoTypeArguments(l, [OperatorToken(op)] + PrintOnto(r, rest)) && NoTypeArguments(r, rest)
  }

  /** Behind no leaf and no closing parenthesis among the first `n` tokens the parser goes for type arguments. */
  predicate NoneOpens(ts: seq<Token>, n: nat)
    requires n <= |ts|
  {
    forall i :: 0 <= i < n && (ts[i].LeafToken? || ts[i].CloseParenToken?) ==> !OpensTypeArguments(ts[i + 1..])
  }

  lemma NoneOpensSplits(a: seq<Token>, b: seq<Token>, n: nat)
    requires n <= |b|
    ensures NoneOpens(a + b, |a| + n) <==> NoneOpens(a + b, |a|) && NoneOpens(b, n)
  {
    hide OpensTypeArguments;
    var ts := a + b;
    forall i | 0 <= i < n ensures ts[|a| + i] == b[i] && ts[|a| + i + 1..] == b[i + 1..] {
    }
    if NoneOpens(ts, |a|) && NoneOpens(b, n) {
      forall i | 0 <= i < |a| + n && (ts[i].LeafToken? || ts[i].CloseParenToken?) ensures !OpensTypeArguments(ts[i + 1..]) {
        if i >= |a| {
          assert ts[|a| + (i - |a|)] == b[i - |a|];
        }
      }
    }
    if NoneOpens(ts, |a| + n) {
      forall i | 0 <= i < n && (b[i].LeafToken? || b[i].CloseParenToken?) ensures !OpensTypeArguments(b[i + 1..]) {
        assert ts[|a| + i] == b[i];
      }
    }
  }

  lemma FirstOpens(t: Token, rest: seq<Token>)
    ensures NoneOpens([t] + rest, 1) <==> t.LeafToken? || t.CloseParenToken? ==> !OpensTypeArguments(rest)
  {
    var ts := [t] + rest;
    assert ts[1..] == rest;
    hide OpensTypeArguments;
    if t.LeafToken? || t.CloseParenToken? ==> !OpensTypeArguments(rest) {
      forall i | 0 <= i < 1 && (ts[i].LeafToken? || ts[i].CloseParenToken?) ensures !OpensTypeArguments(ts[i + 1..]) {
        assert i == 0;
      }
    }
    if NoneOpens(ts, 1) && (t.LeafToken? || t.CloseParenToken?) {
      assert ts[0] == t;
    }
  }

  lemma ParenOpens(inner: seq<Token>, rest: seq<Token>)
    ensures NoneOpens([OpenParenToken] + inner + [CloseParenToken] + rest, |inner| + 2)
            <==> NoneOpens(inner + ([CloseParenToken] + rest), |inner|) && !OpensTypeArguments(rest)
  {
    hide OpensTypeArguments;
    var close := [CloseParenToken] + rest;
    FirstOpens(OpenParenToken, inner + close);
    FirstOpens(CloseParenToken, rest);
    hide NoneOpens;
    assert [OpenParenToken] + inner + [CloseParenToken] + rest == [OpenParenToken] + (inner + close);
    NoneOpensSplits([OpenParenToken], inner + close, |inner| + 1);
    NoneOpensSplits(inner, close, 1);
  }

  lemma JoinedOpens(a: seq<Token>, op: BinaryOperator, b: seq<Token>, rest: seq<Token>)
    ensures NoneOpens(a + [OperatorToken(op)] + b + rest, |a| + 1 + |b|)
            <==> NoneOpens(a + ([OperatorToken(op)] + (b + rest)), |a|) && NoneOpens(b + rest, |b|)
  {
    hide OpensTypeArguments;
    var tail := [OperatorToken(op)] + (b + rest);
    FirstOpens(OperatorToken(op), b + rest);
    hide NoneOpens;
    assert a + [OperatorToken(op)] + b + rest == a + tail;
    NoneOpensSplits([OperatorToken(op)], b + rest, |b|);
    NoneOpensSplits(a, tail, 1 + |b|);
  }

  /** The guard over the positions of the text: what it asks at every leaf and closing parenthesis. */
  lemma {:induction false} GuardIff(e: Expr, rest: seq<Token>)
    ensures NoTypeArguments(e, rest) <==> NoneOpens(Print(e) + rest, |Print(e)|)
    decreases e
  {
    hide OpensTypeArguments, NoneOpens;
    match e
    case Leaf(kind, id) => FirstOpens(LeafToken(kind, id), rest);
    case Paren(e') =>
      GuardIff(e', [CloseParenToken] + rest);
      ParenOpens(Print(e'), rest);
    case PartiallyEmitted(e') => GuardIff(e', rest);
    case Binary(l, op, r) =>
      PrintOntoIsPrint(r, rest);
      GuardIff(r, rest);
      GuardIff(l, [OperatorToken(op)] + PrintOnto(r, rest));
      JoinedOpens(Print(l), op, Print(r), rest);
  }

  /** A lone name between `<` and `>` is taken for a type argument exactly when the next token may follow one. */
  lemma NameDivertsIff(more: seq<Raw>)
    ensures TrialDiverts([Word, Greater] + more) <==> CanFollow(more)
  {
    var ts := [Word, Greater] + more;
    assert ts[1..] == [Greater] + more && ts[1..][1..] == more;
    assert ReadNonArray(ts) == Stop(ts[1..]);
    assert ReadIntersection(ts) == Stop(ts[1..]);
    assert ReadUnion(ts) == Stop(ts[1..]);
    assert ReadType(ts) == Stop(ts[1..]);
  }

  lemma RawOfFirst(t: Token, ts: seq<Token>)
    ensures RawTokens([t] + ts) == RawToken(t) + RawTokens(ts)
  {
    assert ([t] + ts)[1..] == ts;
  }

  predicate HasNoLessThan(e: Expr) {
    match e
    case Leaf(_, _) => true
    case Paren(e') => HasNoLessThan(e')
    case PartiallyEmitted(e') => HasNoLessThan(e')
    case Binary(l, op, r) =>
      HasNoLessThan(l) && HasNoLessThan(r) && op != LessThanToken && op != LessThanLessThanToken
  }

  /** Without `<` and `<<` there is nothing to try. */
  lemma {:induction false} NothingToTry(e: Expr, rest: seq<Token>)
    requires HasNoLessThan(e) && !AtLessThan(rest)
    ensures NoTypeArguments(e, rest)
  {
    hide OpensTypeArguments, TrialDiverts;
    match e
    case Leaf(_, _) => NothingOpens(rest);
    case Paren(e') =>
      NothingOpens(rest);
      NothingToTry(e', [CloseParenToken] + rest);
    case PartiallyEmitted(e') => NothingToTry(e', rest);
    case Binary(l, op, r) =>
      NothingToTry(r, rest);
      NothingToTry(l, [OperatorToken(op)] + PrintOnto(r, rest));
  }

  lemma NothingOpens(ts: seq<Token>)
    requires !AtLessThan(ts)
    ensures !OpensTypeArguments(ts)
  {
  }
}
