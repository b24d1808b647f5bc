/**
 * The token text of a type node, and the parser's descent over it: `parseType` down to
 * `parseNonArrayType`, with the conditional-type context flag and the look-aheads that tell
 * function types, tuple member names and indexed accesses apart.
 */
module TypeParser {
  import opened TypeNodes
  import opened Wrappers

  datatype Token =
    | NameToken(id: nat)       // identifiers, `this`, and type keywords such as `string`, but not `asserts`
    | OpaqueToken(id: nat)     // literals, `void` and `null`
    | BracesToken(id: nat)
    | OpenParen | CloseParen | OpenBracket | CloseBracket | LessThan | GreaterThan
    | Bar | Ampersand | Question | Colon | Comma | Equals | Arrow | DotDotDot
    | ExtendsKeyword | InferKeyword | TypeOfKeyword | NewKeyword | AbstractKeyword
    | OperatorKeyword(op: OperatorKind)

  predicate At(ts: seq<Token>, t: Token) {
    ts != [] && ts[0] == t
  }

  // ---------- Printing ----------

  function SignaturePrefix(kind: SignatureKind): seq<Token> {
    match kind
    case Call => []
    case Construct => [NewKeyword]
    case AbstractConstruct => [AbstractKeyword, NewKeyword]
  }

  function Flag(b: bool, t: Token, rest: seq<Token>): seq<Token> {
    if b then [t] + rest else rest
  }

  /** The tokens of `t` in front of `rest`. */
  function PrintOnto(t: Type, rest: seq<Token>): seq<Token>
    decreases t
  {
    match t
    case Reference(name, args) => [NameToken(name)] + PrintArgsOnto(args, rest)
    case Opaque(id) => [OpaqueToken(id)] + rest
    case Braces(id) => [BracesToken(id)] + rest
    case Query(name, args) => [TypeOfKeyword] + ([NameToken(name)] + PrintArgsOnto(args, rest))
    case Function(kind, typeParams, params, ret) =>
      SignaturePrefix(kind)
      + PrintTypeParamsOnto(typeParams,
                            [OpenParen] + PrintParamsOnto(params, [CloseParen] + ([Arrow] + PrintOnto(ret, rest))))
    case Array(e) => PrintOnto(e, [OpenBracket] + ([CloseBracket] + rest))
    case Tuple(elements) => [OpenBracket] + PrintListOnto(elements, Comma, [CloseBracket] + rest)
    case Union(types) => PrintListOnto(types, Bar, rest)
    case Intersection(types) => PrintListOnto(types, Ampersand, rest)
    case Conditional(c, e, a, b) =>
      PrintOnto(c, [ExtendsKeyword] + PrintOnto(e, [Question] + PrintOnto(a, [Colon] + PrintOnto(b, rest))))
    case Infer(name, constraint) =>
      [InferKeyword] + ([NameToken(name)]
      + (if constraint.Some? then [ExtendsKeyword] + PrintOnto(constraint.value, rest) else rest))
    case Paren(inner) => [OpenParen] + PrintOnto(inner, [CloseParen] + rest)
    case Operator(op, operand) => [OperatorKeyword(op)] + PrintOnto(operand, rest)
    case IndexedAccess(o, i) => PrintOnto(o, [OpenBracket] + PrintOnto(i, [CloseBracket] + rest))
    case Rest(inner) => [DotDotDot] + PrintOnto(inner, rest)
    case Optional(inner) => PrintOnto(inner, [Question] + rest)
    case Named(dots, name, question, inner) =>
      Flag(dots, DotDotDot, [NameToken(name)] + Flag(question, Question, [Colon] + PrintOnto(inner, rest)))
    case JSDocNullable(inner) => PrintOnto(inner, [Question] + rest)
  }

  function PrintListOnto(ts: List<Type>, separator: Token, rest: seq<Token>): seq<Token>
    decreases ts, 0
  {
    match ts
    case Nil => rest
    case Cons(t, Nil) => PrintOnto(t, rest)
    case Cons(t, tail) => PrintOnto(t, [separator] + PrintListOnto(tail, separator, rest))
  }

  function PrintArgsOnto(args: List<Type>, rest: seq<Token>): seq<Token>
    decreases args, 1
  {
    if args.Nil? then rest else [LessThan] + PrintListOnto(args, Comma, [GreaterThan] + rest)
  }

  function PrintNamesOnto(names: List<nat>, rest: seq<Token>): seq<Token> {
    match names
    case Nil => rest
    case Cons(n, Nil) => [NameToken(n)] + rest
    case Cons(n, tail) => [NameToken(n)] + ([Comma] + PrintNamesOnto(tail, rest))
  }

  function PrintTypeParamsOnto(names: List<nat>, rest: seq<Token>): seq<Token> {
    if names.Nil? then rest else [LessThan] + PrintNamesOnto(names, [GreaterThan] + rest)
  }

  function PrintParamOnto(p: Param, rest: seq<Token>): seq<Token>
    decreases p
  {
    Flag(p.dots, DotDotDot, [NameToken(p.name)] + Flag(p.question, Question,
      if p.annotation.Some? then [Colon] + PrintOnto(p.annotation.value, rest) else rest))
  }

  function PrintParamsOnto(ps: List<Param>, rest: seq<Token>): seq<Token>
    decreases ps
  {
    match ps
    case Nil => rest
    case Cons(p, Nil) => PrintParamOnto(p, rest)
    case Cons(p, tail) => PrintParamOnto(p, [Comma] + PrintParamsOnto(tail, rest))
  }

  function Print(t: Type): seq<Token> {
    PrintOnto(t, [])
  }

  // ---------- Look-ahead ----------

  /** `isIdentifier`, or `this`, which the look-aheads accept beside it. */
  predicate IsIdentifier(t: Token) {
    t.NameToken? || t.OperatorKeyword? || t.InferKeyword? || t.AbstractKeyword?
  }

  /** `tokenIsIdentifierOrKeyword` (and, for modifiers, literal property names) */
  predicate IsWord(t: Token) {
    IsIdentifier(t) || t.OpaqueToken? || t.ExtendsKeyword? || t.TypeOfKeyword? || t.NewKeyword?
  }

  /** `parseModifiers`: `readonly` and `abstract`, while the next token can follow a modifier */
  function SkipModifiers(ts: seq<Token>): seq<Token> {
    if |ts| > 1 && (ts[0] == OperatorKeyword(Readonly) || ts[0] == AbstractKeyword)
       && (IsWord(ts[1]) || ts[1] == OpenBracket || ts[1].BracesToken? || ts[1] == DotDotDot)
    then SkipModifiers(ts[1..])
    else ts
  }

  /** Skips to after the bracket that closes `depth` open ones. */
  function SkipBrackets(depth: nat, ts: seq<Token>): Option<seq<Token>>
    decreases |ts|
  {
    if depth == 0 then Some(ts)
    else if ts == [] then None
    else if ts[0] == OpenBracket then SkipBrackets(depth + 1, ts[1..])
    else if ts[0] == CloseBracket then SkipBrackets(depth - 1, ts[1..])
    else SkipBrackets(depth, ts[1..])
  }

  /**
   * `skipParameterStart`. A bracketed group is skipped as if it were a binding pattern that
   * parses without error, the reading most favourable to a function type.
   */
  function SkipParameterStart(tokens: seq<Token>): Option<seq<Token>> {
    var ts := SkipModifiers(tokens);
    if ts == [] then None
    else if IsIdentifier(ts[0]) || ts[0].BracesToken? then Some(ts[1..])
    else if ts[0] == OpenBracket then SkipBrackets(1, ts[1..])
    else None
  }

  /** After a parameter start: `:`, `,`, `?`, `=`, or `)` and `=>`. */
  predicate MarksParameter(ts: seq<Token>) {
    At(ts, Colon) || At(ts, Comma) || At(ts, Question) || At(ts, Equals)
    || (At(ts, CloseParen) && At(ts[1..], Arrow))
  }

  predicate LooksLikeParameter(ts: seq<Token>) {
    SkipParameterStart(ts).Some? && MarksParameter(SkipParameterStart(ts).value)
  }

  /** `isUnambiguouslyStartOfFunctionType`, after the opening parenthesis */
  predicate UnambiguousFunction(ts: seq<Token>) {
    At(ts, CloseParen) || At(ts, DotDotDot) || LooksLikeParameter(ts)
  }

  /** `isStartOfFunctionTypeOrConstructorType` */
  predicate StartsFunction(ts: seq<Token>) {
    At(ts, LessThan) || At(ts, NewKeyword)
    || (At(ts, OpenParen) && UnambiguousFunction(ts[1..]))
    || (At(ts, AbstractKeyword) && At(ts[1..], NewKeyword))
  }

  /** `isStartOfType` */
  predicate StartsType(ts: seq<Token>) {
    ts != [] && match ts[0]
      case OpenParen => At(ts[1..], CloseParen) || StartsType(ts[1..])
      case NameToken(_) | OpaqueToken(_) | BracesToken(_) | OpenBracket | LessThan | Bar | Ampersand
         | Question | DotDotDot | InferKeyword | TypeOfKeyword | NewKeyword | AbstractKeyword
         | OperatorKeyword(_) => true
      case _ => false
  }

  /** `isTupleElementName` */
  predicate NamesElement(ts: seq<Token>) {
    var name := if At(ts, DotDotDot) then ts[1..] else ts;
    name != [] && IsWord(name[0])
    && (At(name[1..], Colon) || (At(name[1..], Question) && At(name[2..], Colon)))
  }

  // ---------- Parsing ----------

  /** A result and the unread tokens; NoParse where the parser would report an error. */
  datatype Parse<+T> = NoParse | Parsed(node: T, rest: seq<Token>)

  /** `parseType`; `strict` is the DisallowConditionalTypes context */
  function ParseType(strict: bool, ts: seq<Token>): (r: Parse<Type>)
    ensures r.Parsed? ==> |r.rest| < |ts|
    decreases |ts|, 9
  {
    if StartsFunction(ts) then ParseFunction(strict, ts)
    else
      var check := ParseUnion(strict, ts);
      if check.Parsed? && !strict && At(check.rest, ExtendsKeyword) then
        var bound := ParseType(true, check.rest[1..]);
        if bound.NoParse? || !At(bound.rest, Question) then NoParse else
        var whenTrue := ParseType(false, bound.rest[1..]);
        if whenTrue.NoParse? || !At(whenTrue.rest, Colon) then NoParse else
        var whenFalse := ParseType(false, whenTrue.rest[1..]);
        if whenFalse.NoParse? then NoParse else
        Parsed(CreateConditional(check.node, bound.node, whenTrue.node, whenFalse.node), whenFalse.rest)
      else check
  }

  /** `parseFunctionOrConstructorType`: parameters keep the context, the return type resets it */
  function ParseFunction(strict: bool, ts: seq<Token>): (r: Parse<Type>)
    ensures r.Parsed? ==> |r.rest| < |ts|
    decreases |ts|, 8
  {
    var kind := if At(ts, AbstractKeyword) then AbstractConstruct else if At(ts, NewKeyword) then Construct else Call;
    if |SignaturePrefix(kind)| > |ts| then NoParse else
    var typeParams := ParseTypeParams(ts[|SignaturePrefix(kind)|..]);
    if typeParams.NoParse? || !At(typeParams.rest, OpenParen) then NoParse else
    var params := ParseParams(strict, typeParams.rest[1..]);
    if params.NoParse? || !At(params.rest, CloseParen) || !At(params.rest[1..], Arrow) then NoParse else
    var ret := ParseType(false, params.rest[2..]);
    if ret.NoParse? then NoParse else
    Parsed(Function(kind, typeParams.node, params.node, ret.node), ret.rest)
  }

  function ParseTypeParams(ts: seq<Token>): (r: Parse<List<nat>>)
    ensures r.Parsed? ==> |r.rest| <= |ts|
  {
    if At(ts, LessThan) then
      var names := ParseNames(ts[1..]);
      if names.NoParse? || names.node.Nil? || !At(names.rest, GreaterThan) then NoParse
      else Parsed(names.node, names.rest[1..])
    else Parsed(Nil, ts)
  }

  function ParseNames(ts: seq<Token>): (r: Parse<List<nat>>)
    ensures r.Parsed? ==> |r.rest| <= |ts|
    decreases |ts|
  {
    if ts == [] || !ts[0].NameToken? then Parsed(Nil, ts)
    else if At(ts[1..], Comma) then
      var more := ParseNames(ts[2..]);
      if more.NoParse? then NoParse else Parsed(Cons(ts[0].id, more.node), more.rest)
    else Parsed(Cons(ts[0].id, Nil), ts[1..])
  }

  function ParseParam(strict: bool, ts: seq<Token>): (r: Parse<Param>)
    ensures r.Parsed? ==> |r.rest| < |ts|
    decreases |ts|, 10
  {
    var dots := At(ts, DotDotDot);
    var named := if dots then ts[1..] else ts;
    if named == [] || !named[0].NameToken? then NoParse else
    var name := named[0].id;
    var question := At(named[1..], Question);
    var typed := if question then named[2..] else named[1..];
    if !At(typed, Colon) then Parsed(Param(dots, name, question, None), typed) else
    var annotation := ParseType(strict, typed[1..]);
    if annotation.NoParse? then NoParse else
    Parsed(Param(dots, name, question, Some(annotation.node)), annotation.rest)
  }

  function ParseParams(strict: bool, ts: seq<Token>): (r: Parse<List<Param>>)
    ensures r.Parsed? ==> |r.rest| <= |ts|
    decreases |ts|, 11
  {
    if ts == [] || !(ts[0].NameToken? || ts[0] == DotDotDot) then Parsed(Nil, ts)
    else
      var p := ParseParam(strict, ts);
      if p.NoParse? then NoParse
      else if At(p.rest, Comma) then
        var more := ParseParams(strict, p.rest[1..]);
        if more.NoParse? then NoParse else Parsed(Cons(p.node, more.node), more.rest)
      else Parsed(Cons(p.node, Nil), p.rest)
  }

  /** `parseUnionTypeOrHigher`; a leading operator would put a null node first */
  function ParseUnion(strict: bool, ts: seq<Token>): (r: Parse<Type>)
    ensures r.Parsed? ==> |r.rest| < |ts|
    decreases |ts|, 7
  {
    if At(ts, Bar) then NoParse else
    var first := ParseIntersection(strict, ts);
    if first.NoParse? || !At(first.rest, Bar) then first else
    var more := ParseMoreUnion(strict, first.rest);
    if more.NoParse? then NoParse else Parsed(CreateUnion(Cons(first.node, more.node)), more.rest)
  }

  function ParseMoreUnion(strict: bool, ts: seq<Token>): (r: Parse<List<Type>>)
    ensures r.Parsed? ==> |r.rest| <= |ts|
    decreases |ts|, 6
  {
    if !At(ts, Bar) then Parsed(Nil, ts) else
    var next := if StartsFunction(ts[1..]) then ParseFunction(strict, ts[1..]) else ParseIntersection(strict, ts[1..]);
    if next.NoParse? then NoParse else
    var more := ParseMoreUnion(strict, next.rest);
    if more.NoParse? then NoParse else Parsed(Cons(next.node, more.node), more.rest)
  }

  function ParseIntersection(strict: bool, ts: seq<Token>): (r: Parse<Type>)
    ensures r.Parsed? ==> |r.rest| < |ts|
    decreases |ts|, 5
  {
    if At(ts, Ampersand) then NoParse else
    var first := ParseOperator(strict, ts);
    if first.NoParse? || !At(first.rest, Ampersand) then first else
    var more := ParseMoreIntersection(strict, first.rest);
    if more.NoParse? then NoParse else Parsed(CreateIntersection(Cons(first.node, more.node)), more.rest)
  }

  function ParseMoreIntersection(strict: bool, ts: seq<Token>): (r: Parse<List<Type>>)
    ensures r.Parsed? ==> |r.rest| <= |ts|
    decreases |ts|, 4
  {
    if !At(ts, Ampersand) then Parsed(Nil, ts) else
    var next := if StartsFunction(ts[1..]) then ParseFunction(strict, ts[1..]) else ParseOperator(strict, ts[1..]);
    if next.NoParse? then NoParse else
    var more := ParseMoreIntersection(strict, next.rest);
    if more.NoParse? then NoParse else Parsed(Cons(next.node, more.node), more.rest)
  }

  /** `parseTypeOperatorOrHigher` */
  function ParseOperator(strict: bool, ts: seq<Token>): (r: Parse<Type>)
    ensures r.Parsed? ==> |r.rest| < |ts|
    decreases |ts|, 3
  {
    if ts == [] then NoParse
    else if ts[0].OperatorKeyword? then
      var operand := ParseOperator(strict, ts[1..]);
      if operand.NoParse? then NoParse else Parsed(CreateOperator(ts[0].op, operand.node), operand.rest)
    else if ts[0] == InferKeyword then ParseInfer(strict, ts[1..])
    else ParsePostfix(ts)
  }

  /** `parseTypeParameterOfInferType`: the constraint is given back when a `?` makes it a conditional type */
  function ParseInfer(strict: bool, ts: seq<Token>): (r: Parse<Type>)
    ensures r.Parsed? ==> |r.rest| < |ts|
    decreases |ts|, 2
  {
    if ts == [] || !ts[0].NameToken? then NoParse
    else if At(ts[1..], ExtendsKeyword) then
      var constraint := ParseType(true, ts[2..]);
      if constraint.NoParse? then NoParse
      else if strict || !At(constraint.rest, Question) then
        Parsed(Infer(ts[0].id, Some(constraint.node)), constraint.rest)
      else Parsed(Infer(ts[0].id, None), ts[1..])
    else Parsed(Infer(ts[0].id, None), ts[1..])
  }

  /** `parsePostfixTypeOrHigher`, which allows conditional types again */
  function ParsePostfix(ts: seq<Token>): (r: Parse<Type>)
    ensures r.Parsed? ==> |r.rest| < |ts|
    decreases |ts|, 1
  {
    var first := ParseNonArray(ts);
    if first.NoParse? then NoParse else ParsePostfixRest(first.node, first.rest)
  }

  function ParsePostfixRest(t: Type, ts: seq<Token>): (r: Parse<Type>)
    ensures r.Parsed? ==> |r.rest| <= |ts|
    decreases |ts|, 12
  {
    if At(ts, OpenBracket) then
      if StartsType(ts[1..]) then
        var index := ParseType(false, ts[1..]);
        if index.NoParse? || !At(index.rest, CloseBracket) then NoParse
        else ParsePostfixRest(CreateIndexedAccess(t, index.node), index.rest[1..])
      else if At(ts[1..], CloseBracket) then ParsePostfixRest(CreateArray(t), ts[2..])
      else NoParse
    else if At(ts, Question) && !StartsType(ts[1..]) then ParsePostfixRest(JSDocNullable(t), ts[1..])
    else Parsed(t, ts)
  }

  function ParseNonArray(ts: seq<Token>): (r: Parse<Type>)
    ensures r.Parsed? ==> |r.rest| < |ts|
    decreases |ts|, 0
  {
    if ts == [] then NoParse
    else match ts[0]
      case NameToken(name) =>
        var args := ParseArgs(ts[1..]);
        if args.NoParse? then NoParse else Parsed(CreateReference(name, args.node), args.rest)
      case OpaqueToken(id) => Parsed(Opaque(id), ts[1..])
      case BracesToken(id) => Parsed(Braces(id), ts[1..])
      case TypeOfKeyword =>
        if |ts| == 1 || !ts[1].NameToken? then NoParse else
        var args := ParseArgs(ts[2..]);
        if args.NoParse? then NoParse else Parsed(CreateQuery(ts[1].id, args.node), args.rest)
      case OpenBracket =>
        var elements := ParseElements(ts[1..]);
        if elements.NoParse? || !At(elements.rest, CloseBracket) then NoParse
        else Parsed(Tuple(elements.node), elements.rest[1..])
      case OpenParen =>
        var inner := ParseType(false, ts[1..]);
        if inner.NoParse? || !At(inner.rest, CloseParen) then NoParse
        else Parsed(Paren(inner.node), inner.rest[1..])
      case _ => NoParse
  }

  function ParseArgs(ts: seq<Token>): (r: Parse<List<Type>>)
    ensures r.Parsed? ==> |r.rest| <= |ts|
    decreases |ts|, 12
  {
    if At(ts, LessThan) then
      var args := ParseTypes(ts[1..]);
      if args.NoParse? || args.node.Nil? || !At(args.rest, GreaterThan) then NoParse
      else Parsed(args.node, args.rest[1..])
    else Parsed(Nil, ts)
  }

  function ParseTypes(ts: seq<Token>): (r: Parse<List<Type>>)
    ensures r.Parsed? ==> |r.rest| <= |ts|
    decreases |ts|, 12
  {
    if !StartsType(ts) then Parsed(Nil, ts) else
    var t := ParseType(false, ts);
    if t.NoParse? then NoParse
    else if At(t.rest, Comma) then
      var more := ParseTypes(t.rest[1..]);
      if more.NoParse? then NoParse else Parsed(Cons(t.node, more.node), more.rest)
    else Parsed(Cons(t.node, Nil), t.rest)
  }

  /** `parseTupleElementType` */
  function ParseElementType(ts: seq<Token>): (r: Parse<Type>)
    ensures r.Parsed? ==> |r.rest| < |ts|
    decreases |ts|, 12
  {
    if At(ts, DotDotDot) then
      var t := ParseType(false, ts[1..]);
      if t.NoParse? then NoParse else Parsed(Rest(t.node), t.rest)
    else
      var t := ParseType(false, ts);
      if t.Parsed? && t.node.JSDocNullable? then Parsed(CreateOptional(t.node.inner), t.rest) else t
  }

  /** `parseTupleElementNameOrTupleElementType` */
  function ParseElement(ts: seq<Token>): (r: Parse<Type>)
    ensures r.Parsed? ==> |r.rest| < |ts|
    decreases |ts|, 13
  {
    if NamesElement(ts) then
      var dots := At(ts, DotDotDot);
      var named := if dots then ts[1..] else ts;
      var question := At(named[1..], Question);
      var t := ParseElementType(if question then named[3..] else named[2..]);
      if t.NoParse? || !named[0].NameToken? then NoParse
      else Parsed(Named(dots, named[0].id, question, t.node), t.rest)
    else ParseElementType(ts)
  }

  function ParseElements(ts: seq<Token>): (r: Parse<List<Type>>)
    ensures r.Parsed? ==> |r.rest| <= |ts|
    decreases |ts|, 14
  {
    if !StartsType(ts) then Parsed(Nil, ts) else
    var t := ParseElement(ts);
    if t.NoParse? then NoParse
    else if At(t.rest, Comma) then
      var more := ParseElements(t.rest[1..]);
      if more.NoParse? then NoParse else Parsed(Cons(t.node, more.node), more.rest)
    else Parsed(Cons(t.node, Nil), t.rest)
  }
}
