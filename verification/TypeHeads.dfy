/**
 * What two parenthesizer rules are for, told from the text: a leading type argument is wrapped so
 * that no `<` stands directly behind a `<`, and an optional member so that no `?` stands directly
 * behind a `?`.
 */
module TypeHeads {
  import opened TypeNodes
  import opened TypeParser
  import opened TypeLookAhead
  import opened Wrappers

  // ---------- The first tokens ----------

  /** Type parameters come first, or behind `new` or `abstract new`. */
  predicate BeginsGeneric(ts: seq<Token>) {
    At(ts, LessThan) || (At(ts, NewKeyword) && At(ts[1..], LessThan))
    || (At(ts, AbstractKeyword) && At(ts[1..], NewKeyword) && At(ts[2..], LessThan))
  }

  /** A token that may follow a type. */
  predicate Follows(ts: seq<Token>) {
    ts == [] || !(ts[0].LessThan? || ts[0].NewKeyword? || ts[0].AbstractKeyword?)
  }

  lemma {:induction false} BeginsGenericIff(t: Type, rest: seq<Token>)
    requires Built(t) && Follows(rest)
    ensures BeginsGeneric(PrintOnto(t, rest)) <==> t.Function? && t.typeParams.Cons?
    decreases t
  {
    match t
    case Function(_, _, _, _) => FunctionBegins(t, rest);
    case Array(e) => BeginsGenericIff(e, [OpenBracket] + ([CloseBracket] + rest));
    case IndexedAccess(o, i) => BeginsGenericIff(o, [OpenBracket] + PrintOnto(i, [CloseBracket] + rest));
    case Conditional(c, e, a, b) =>
      BeginsGenericIff(c, [ExtendsKeyword] + PrintOnto(e, [Question] + PrintOnto(a, [Colon] + PrintOnto(b, rest))));
    case Union(types) =>
      if types.Cons? {
        BeginsGenericIff(types.head, if types.tail.Nil? then rest else [Bar] + PrintListOnto(types.tail, Bar, rest));
      }
    case Intersection(types) =>
      if types.Cons? {
        BeginsGenericIff(types.head, if types.tail.Nil? then rest else [Ampersand] + PrintListOnto(types.tail, Ampersand, rest));
      }
    case _ =>
  }

  lemma FunctionBegins(t: Type, rest: seq<Token>)
    requires t.Function?
    ensures BeginsGeneric(PrintOnto(t, rest)) <==> t.typeParams.Cons?
  {
    var tail := PrintTypeParamsOnto(t.typeParams,
                  [OpenParen] + PrintParamsOnto(t.params, [CloseParen] + ([Arrow] + PrintOnto(t.ret, rest))));
    var ts := SignaturePrefix(t.kind) + tail;
    assert PrintOnto(t, rest) == ts;
    assert tail[0] == if t.typeParams.Cons? then LessThan else OpenParen;
    match t.kind
    case Call => assert ts == tail;
    case Construct => assert ts[1..] == tail;
    case AbstractConstruct => assert ts[1] == NewKeyword && ts[1..][1..] == ts[2..] == tail;
  }

  /** The leading type argument stays bare exactly when its text does not begin with type parameters. */
  lemma LeadingArgumentIff(t: Type, rest: seq<Token>)
    requires Built(t) && Follows(rest)
    ensures LeadingTypeArgument(t) == if BeginsGeneric(PrintOnto(t, rest)) then Paren(t) else t
  {
    BeginsGenericIff(t, rest);
  }

  /** Only the leading argument is touched. */
  lemma OtherArgumentsStay(args: List<Type>)
    ensures args.Nil? ==> TypeArguments(args) == args
    ensures args.Cons? ==> TypeArguments(args) == Cons(LeadingTypeArgument(args.head), args.tail)
  {
  }

  // ---------- No `<` behind `<` ----------

  predicate NoJoin(ts: seq<Token>) {
    |ts| > 1 ==> !(ts[0].LessThan? && ts[1].LessThan?) && NoJoin(ts[1..])
  }

  lemma Lead(x: Token, rest: seq<Token>)
    requires NoJoin(rest) && (x.LessThan? ==> !At(rest, LessThan))
    ensures NoJoin([x] + rest)
  {
    assert ([x] + rest)[1..] == rest;
  }

  /** The text of a built type has no `<` directly behind a `<`, whatever follows it. */
  lemma {:induction false} BuiltNeverJoins(t: Type, rest: seq<Token>)
    requires BuiltElement(t) && NoJoin(rest)
    ensures NoJoin(PrintOnto(t, rest))
    decreases t, 1
  {
    match t
    case Reference(name, args) =>
      ArgsNeverJoin(args, rest);
      Lead(NameToken(name), PrintArgsOnto(args, rest));
    case Query(name, args) =>
      ArgsNeverJoin(args, rest);
      Lead(NameToken(name), PrintArgsOnto(args, rest));
      Lead(TypeOfKeyword, [NameToken(name)] + PrintArgsOnto(args, rest));
    case Function(_, _, _, _) => FunctionNeverJoins(t, rest);
    case Array(_) => PostfixNeverJoins(t, rest);
    case IndexedAccess(_, _) => PostfixNeverJoins(t, rest);
    case Tuple(elements) =>
      Lead(CloseBracket, rest);
      ElementsNeverJoin(elements, [CloseBracket] + rest);
      Lead(OpenBracket, PrintListOnto(elements, Comma, [CloseBracket] + rest));
    case Union(types) => ListNeverJoins(types, Bar, rest);
    case Intersection(types) => ListNeverJoins(types, Ampersand, rest);
    case Conditional(_, _, _, _) => ConditionalNeverJoins(t, rest);
    case Infer(_, _) => InferNeverJoins(t, rest);
    case Paren(inner) =>
      Lead(CloseParen, rest);
      BuiltNeverJoins(inner, [CloseParen] + rest);
      Lead(OpenParen, PrintOnto(inner, [CloseParen] + rest));
    case Operator(op, operand) =>
      BuiltNeverJoins(operand, rest);
      Lead(OperatorKeyword(op), PrintOnto(operand, rest));
    case Opaque(id) => Lead(OpaqueToken(id), rest);
    case Braces(id) => Lead(BracesToken(id), rest);
    case Rest(inner) =>
      BuiltNeverJoins(inner, rest);
      Lead(DotDotDot, PrintOnto(inner, rest));
    case Optional(inner) =>
      Lead(Question, rest);
      BuiltNeverJoins(inner, [Question] + rest);
    case Named(dots, name, question, inner) =>
      BuiltNeverJoins(inner, rest);
      Lead(Colon, PrintOnto(inner, rest));
      NameNeverJoins(dots, name, question, [Colon] + PrintOnto(inner, rest));
    case _ =>
  }

  lemma NameNeverJoins(dots: bool, name: nat, question: bool, rest: seq<Token>)
    requires NoJoin(rest)
    ensures NoJoin(Flag(dots, DotDotDot, [NameToken(name)] + Flag(question, Question, rest)))
  {
    Lead(Question, rest);
    Lead(NameToken(name), Flag(question, Question, rest));
    Lead(DotDotDot, [NameToken(name)] + Flag(question, Question, rest));
  }

  lemma {:induction false} PostfixNeverJoins(t: Type, rest: seq<Token>)
    requires (t.Array? || t.IndexedAccess?) && Built(t) && NoJoin(rest)
    ensures NoJoin(PrintOnto(t, rest))
    decreases t, 0
  {
    var close := [CloseBracket] + rest;
    Lead(CloseBracket, rest);
    if t.Array? {
      Lead(OpenBracket, close);
      BuiltNeverJoins(t.element, [OpenBracket] + close);
    } else {
      BuiltNeverJoins(t.indexType, close);
      Lead(OpenBracket, PrintOnto(t.indexType, close));
      BuiltNeverJoins(t.objectType, [OpenBracket] + PrintOnto(t.indexType, close));
    }
  }

  lemma {:induction false} ConditionalNeverJoins(t: Type, rest: seq<Token>)
    requires t.Conditional? && Built(t) && NoJoin(rest)
    ensures NoJoin(PrintOnto(t, rest))
    decreases t, 0
  {
    var Conditional(c, e, a, b) := t;
    BuiltNeverJoins(b, rest);
    Lead(Colon, PrintOnto(b, rest));
    var tail3 := [Colon] + PrintOnto(b, rest);
    BuiltNeverJoins(a, tail3);
    Lead(Question, PrintOnto(a, tail3));
    var tail2 := [Question] + PrintOnto(a, tail3);
    BuiltNeverJoins(e, tail2);
    Lead(ExtendsKeyword, PrintOnto(e, tail2));
    BuiltNeverJoins(c, [ExtendsKeyword] + PrintOnto(e, tail2));
  }

  lemma {:induction false} InferNeverJoins(t: Type, rest: seq<Token>)
    requires t.Infer? && Built(t) && NoJoin(rest)
    ensures NoJoin(PrintOnto(t, rest))
    decreases t, 0
  {
    var tail := if t.constraint.Some? then [ExtendsKeyword] + PrintOnto(t.constraint.value, rest) else rest;
    if t.constraint.Some? {
      BuiltNeverJoins(t.constraint.value, rest);
      Lead(ExtendsKeyword, PrintOnto(t.constraint.value, rest));
    }
    Lead(NameToken(t.name), tail);
    Lead(InferKeyword, [NameToken(t.name)] + tail);
  }

  lemma {:induction false} FunctionNeverJoins(t: Type, rest: seq<Token>)
    requires t.Function? && Built(t) && NoJoin(rest)
    ensures NoJoin(PrintOnto(t, rest))
    decreases t, 0
  {
    var ret := [Arrow] + PrintOnto(t.ret, rest);
    BuiltNeverJoins(t.ret, rest);
    Lead(Arrow, PrintOnto(t.ret, rest));
    Lead(CloseParen, ret);
    ParamsNeverJoin(t.params, [CloseParen] + ret);
    var tail := [OpenParen] + PrintParamsOnto(t.params, [CloseParen] + ret);
    Lead(OpenParen, PrintParamsOnto(t.params, [CloseParen] + ret));
    TypeParamsNeverJoin(t.typeParams, tail);
    PrefixNeverJoins(t.kind, PrintTypeParamsOnto(t.typeParams, tail));
  }

  lemma PrefixNeverJoins(kind: SignatureKind, rest: seq<Token>)
    requires NoJoin(rest)
    ensures NoJoin(SignaturePrefix(kind) + rest)
  {
    match kind
    case Call => assert [] + rest == rest;
    case Construct => Lead(NewKeyword, rest);
    case AbstractConstruct =>
      Lead(NewKeyword, rest);
      Lead(AbstractKeyword, [NewKeyword] + rest);
      TwoFirst(AbstractKeyword, NewKeyword, rest);
  }

  lemma TwoFirst(a: Token, b: Token, ts: seq<Token>)
    ensures [a] + ([b] + ts) == [a, b] + ts
  {
  }

  lemma {:induction false} ListNeverJoins(ts: List<Type>, separator: Token, rest: seq<Token>)
    requires BuiltList(ts) && NoJoin(rest) && !separator.LessThan?
    ensures NoJoin(PrintListOnto(ts, separator, rest))
    decreases ts, 0
  {
    match ts
    case Nil =>
    case Cons(t, Nil) => BuiltNeverJoins(t, rest);
    case Cons(t, tail) =>
      ListNeverJoins(tail, separator, rest);
      Lead(separator, PrintListOnto(tail, separator, rest));
      BuiltNeverJoins(t, [separator] + PrintListOnto(tail, separator, rest));
  }

  lemma {:induction false} ElementsNeverJoin(ts: List<Type>, rest: seq<Token>)
    requires BuiltElements(ts) && NoJoin(rest)
    ensures NoJoin(PrintListOnto(ts, Comma, rest))
    decreases ts, 0
  {
    match ts
    case Nil =>
    case Cons(t, Nil) => BuiltNeverJoins(t, rest);
    case Cons(t, tail) =>
      ElementsNeverJoin(tail, rest);
      Lead(Comma, PrintListOnto(tail, Comma, rest));
      BuiltNeverJoins(t, [Comma] + PrintListOnto(tail, Comma, rest));
  }

  /** Here the rule for the leading argument is needed. */
  lemma {:induction false} ArgsNeverJoin(args: List<Type>, rest: seq<Token>)
    requires BuiltList(args) && TypeArguments(args) == args && NoJoin(rest)
    ensures NoJoin(PrintArgsOnto(args, rest))
    decreases args, 1
  {
    if args.Cons? {
      var close := [GreaterThan] + rest;
      Lead(GreaterThan, rest);
      ListNeverJoins(args, Comma, close);
      BeginsGenericIff(args.head, if args.tail.Nil? then close else [Comma] + PrintListOnto(args.tail, Comma, close));
      Lead(LessThan, PrintListOnto(args, Comma, close));
    }
  }

  lemma {:induction false} ParamsNeverJoin(ps: List<Param>, rest: seq<Token>)
    requires BuiltParams(ps) && NoJoin(rest)
    ensures NoJoin(PrintParamsOnto(ps, rest))
    decreases ps
  {
    match ps
    case Nil =>
    case Cons(p, Nil) => ParamNeverJoins(p, rest);
    case Cons(p, tail) =>
      ParamsNeverJoin(tail, rest);
      Lead(Comma, PrintParamsOnto(tail, rest));
      ParamNeverJoins(p, [Comma] + PrintParamsOnto(tail, rest));
  }

  lemma {:induction false} ParamNeverJoins(p: Param, rest: seq<Token>)
    requires BuiltParams(Cons(p, Nil)) && NoJoin(rest)
    ensures NoJoin(PrintParamOnto(p, rest))
    decreases p
  {
    if p.annotation.Some? {
      BuiltNeverJoins(p.annotation.value, rest);
      Lead(Colon, PrintOnto(p.annotation.value, rest));
    }
    NameNeverJoins(p.dots, p.name, p.question,
                   if p.annotation.Some? then [Colon] + PrintOnto(p.annotation.value, rest) else rest);
  }

  lemma {:induction false} NamesNeverJoin(names: List<nat>, rest: seq<Token>)
    requires NoJoin(rest)
    ensures NoJoin(PrintNamesOnto(names, rest)) && (names.Cons? ==> !At(PrintNamesOnto(names, rest), LessThan))
  {
    match names
    case Nil =>
    case Cons(n, Nil) => Lead(NameToken(n), rest);
    case Cons(n, tail) =>
      NamesNeverJoin(tail, rest);
      Lead(Comma, PrintNamesOnto(tail, rest));
      Lead(NameToken(n), [Comma] + PrintNamesOnto(tail, rest));
  }

  lemma TypeParamsNeverJoin(names: List<nat>, rest: seq<Token>)
    requires NoJoin(rest)
    ensures NoJoin(PrintTypeParamsOnto(names, rest))
  {
    if names.Cons? {
      Lead(GreaterThan, rest);
      NamesNeverJoin(names, [GreaterThan] + rest);
      Lead(LessThan, PrintNamesOnto(names, [GreaterThan] + rest));
    }
  }

  // ---------- The last token ----------

  /** `ts` ends in the token that `rest` ends in. */
  predicate EndsIn(ts: seq<Token>, rest: seq<Token>) {
    rest != [] ==> ts != [] && ts[|ts| - 1] == rest[|rest| - 1]
  }

  lemma {:induction false} PrintedEndsIn(t: Type, rest: seq<Token>)
    ensures EndsIn(PrintOnto(t, rest), rest)
    decreases t, 1
  {
    match t
    case Reference(_, args) => ArgsEndIn(args, rest);
    case Query(_, args) => ArgsEndIn(args, rest);
    case Function(_, _, _, _) => FunctionEndsIn(t, rest);
    case Array(e) => PrintedEndsIn(e, [OpenBracket] + ([CloseBracket] + rest));
    case IndexedAccess(o, i) =>
      PrintedEndsIn(i, [CloseBracket] + rest);
      PrintedEndsIn(o, [OpenBracket] + PrintOnto(i, [CloseBracket] + rest));
    case Tuple(elements) => ListEndsIn(elements, Comma, [CloseBracket] + rest);
    case Union(types) => ListEndsIn(types, Bar, rest);
    case Intersection(types) => ListEndsIn(types, Ampersand, rest);
    case Conditional(_, _, _, _) => ConditionalEndsIn(t, rest);
    case Infer(_, constraint) => if constraint.Some? { PrintedEndsIn(constraint.value, rest); }
    case Operator(_, operand) => PrintedEndsIn(operand, rest);
    case Paren(inner) => PrintedEndsIn(inner, [CloseParen] + rest);
    case Optional(inner) => PrintedEndsIn(inner, [Question] + rest);
    case JSDocNullable(inner) => PrintedEndsIn(inner, [Question] + rest);
    case Rest(inner) => PrintedEndsIn(inner, rest);
    case Named(_, _, _, inner) => PrintedEndsIn(inner, rest);
    case _ =>
  }

  lemma {:induction false} ConditionalEndsIn(t: Type, rest: seq<Token>)
    requires t.Conditional?
    ensures EndsIn(PrintOnto(t, rest), rest)
    decreases t, 0
  {
    var Conditional(c, e, a, b) := t;
    PrintedEndsIn(b, rest);
    var tail3 := [Colon] + PrintOnto(b, rest);
    PrintedEndsIn(a, tail3);
    var tail2 := [Question] + PrintOnto(a, tail3);
    PrintedEndsIn(e, tail2);
    PrintedEndsIn(c, [ExtendsKeyword] + PrintOnto(e, tail2));
  }

  lemma {:induction false} FunctionEndsIn(t: Type, rest: seq<Token>)
    requires t.Function?
    ensures EndsIn(PrintOnto(t, rest), rest)
    decreases t, 0
  {
    PrintedEndsIn(t.ret, rest);
    var tail2 := [CloseParen] + ([Arrow] + PrintOnto(t.ret, rest));
    ParamsEndIn(t.params, tail2);
    var tail := [OpenParen] + PrintParamsOnto(t.params, tail2);
    assert EndsIn(tail, rest);
    if t.typeParams.Cons? {
      NamesEndIn(t.typeParams, [GreaterThan] + tail);
    }
    assert EndsIn(PrintTypeParamsOnto(t.typeParams, tail), rest);
  }

  lemma {:induction false} ListEndsIn(ts: List<Type>, separator: Token, rest: seq<Token>)
    ensures EndsIn(PrintListOnto(ts, separator, rest), rest)
    decreases ts, 0
  {
    match ts
    case Nil =>
    case Cons(t, Nil) => PrintedEndsIn(t, rest);
    case Cons(t, tail) =>
      ListEndsIn(tail, separator, rest);
      PrintedEndsIn(t, [separator] + PrintListOnto(tail, separator, rest));
  }

  lemma {:induction false} ArgsEndIn(args: List<Type>, rest: seq<Token>)
    ensures EndsIn(PrintArgsOnto(args, rest), rest)
    decreases args, 1
  {
    if args.Cons? {
      ListEndsIn(args, Comma, [GreaterThan] + rest);
    }
  }

  lemma {:induction false} ParamsEndIn(ps: List<Param>, rest: seq<Token>)
    ensures EndsIn(PrintParamsOnto(ps, rest), rest)
    decreases ps
  {
    match ps
    case Nil =>
    case Cons(p, Nil) => ParamEndsIn(p, rest);
    case Cons(p, tail) =>
      ParamsEndIn(tail, rest);
      ParamEndsIn(p, [Comma] + PrintParamsOnto(tail, rest));
  }

  lemma {:induction false} ParamEndsIn(p: Param, rest: seq<Token>)
    ensures EndsIn(PrintParamOnto(p, rest), rest)
    decreases p
  {
    if p.annotation.Some? {
      PrintedEndsIn(p.annotation.value, rest);
    }
  }

  lemma {:induction false} NamesEndIn(names: List<nat>, rest: seq<Token>)
    ensures EndsIn(PrintNamesOnto(names, rest), rest)
  {
    match names
    case Nil =>
    case Cons(_, Nil) =>
    case Cons(_, tail) => NamesEndIn(tail, rest);
  }

  /** The right edge is a type: no rest or optional tuple member, no empty list. */
  predicate HasTypeEdge(t: Type)
    decreases t
  {
    match t
    case Named(_, _, _, inner) => HasTypeEdge(inner)
    case Function(_, _, _, ret) => HasTypeEdge(ret)
    case Operator(_, operand) => HasTypeEdge(operand)
    case Conditional(_, _, _, f) => HasTypeEdge(f)
    case Union(types) => LastHasTypeEdge(types)
    case Intersection(types) => LastHasTypeEdge(types)
    case Infer(_, constraint) => constraint.Some? ==> HasTypeEdge(constraint.value)
    case _ => !t.Rest? && !t.Optional?
  }

  predicate LastHasTypeEdge(ts: List<Type>)
    decreases ts
  {
    match ts
    case Nil => false
    case Cons(t, Nil) => HasTypeEdge(t)
    case Cons(_, tail) => LastHasTypeEdge(tail)
  }

  predicate EndsWith(ts: seq<Token>, x: Token) {
    ts != [] && ts[|ts| - 1] == x
  }

  /** The type at the right edge of another. */
  function Edge(t: Type): Option<Type> {
    match t
    case Named(_, _, _, inner) => Some(inner)
    case Function(_, _, _, ret) => Some(ret)
    case Operator(_, operand) => Some(operand)
    case Conditional(_, _, _, f) => Some(f)
    case Infer(_, constraint) => constraint
    case _ => None
  }

  lemma EdgeIsLast(t: Type)
    requires Edge(t).Some?
    ensures EndsIn(Print(t), Print(Edge(t).value))
  {
    var tail := Print(Edge(t).value);
    if t.Function? {
      FunctionEdge(t);
    } else if t.Conditional? {
      var Conditional(c, e, a, b) := t;
      var tail3 := [Colon] + tail;
      PrintedEndsIn(a, tail3);
      var tail2 := [Question] + PrintOnto(a, tail3);
      PrintedEndsIn(e, tail2);
      PrintedEndsIn(c, [ExtendsKeyword] + PrintOnto(e, tail2));
    }
  }

  lemma FunctionEdge(t: Type)
    requires t.Function?
    ensures EndsIn(Print(t), Print(t.ret))
  {
    var tail2 := [CloseParen] + ([Arrow] + Print(t.ret));
    ParamsEndIn(t.params, tail2);
    var tail := [OpenParen] + PrintParamsOnto(t.params, tail2);
    if t.typeParams.Cons? {
      NamesEndIn(t.typeParams, [GreaterThan] + tail);
    }
    assert EndsIn(PrintTypeParamsOnto(t.typeParams, tail), tail);
  }

  /** `hasJSDocPostfixQuestion` tells whether the text of a type ends in `?`. */
  lemma {:induction false} PostfixQuestionIff(t: Type)
    requires HasTypeEdge(t)
    ensures Print(t) != [] && (HasPostfixQuestion(t) <==> EndsWith(Print(t), Question))
    decreases t
  {
    if Edge(t).Some? {
      EdgeIsLast(t);
      PostfixQuestionIff(Edge(t).value);
    } else if t.Union? {
      LastPostfixQuestionIff(t.types, Bar);
    } else if t.Intersection? {
      LastPostfixQuestionIff(t.types, Ampersand);
    } else {
      OwnLastToken(t);
    }
  }

  lemma {:induction false} LastPostfixQuestionIff(ts: List<Type>, separator: Token)
    requires LastHasTypeEdge(ts)
    ensures var text := PrintListOnto(ts, separator, []);
            text != [] && (LastHasPostfixQuestion(ts) <==> EndsWith(text, Question))
    decreases ts
  {
    match ts
    case Cons(t, Nil) => PostfixQuestionIff(t);
    case Cons(t, tail) =>
      LastPostfixQuestionIff(tail, separator);
      PrintedEndsIn(t, [separator] + PrintListOnto(tail, separator, []));
  }

  lemma ArgsEnd(args: List<Type>)
    ensures var ts := PrintArgsOnto(args, []); ts == [] || EndsWith(ts, GreaterThan)
  {
    ListEndsIn(args, Comma, [GreaterThan] + []);
  }

  lemma ClosedEnd(t: Type)
    requires t.Array? || t.IndexedAccess? || t.Tuple? || t.Paren? || t.JSDocNullable?
    ensures Print(t) != [] && (EndsWith(Print(t), Question) <==> t.JSDocNullable?)
  {
    match t
    case Array(e) => PrintedEndsIn(e, [OpenBracket] + ([CloseBracket] + []));
    case IndexedAccess(o, i) =>
      PrintedEndsIn(i, [CloseBracket] + []);
      PrintedEndsIn(o, [OpenBracket] + PrintOnto(i, [CloseBracket] + []));
    case Tuple(elements) => ListEndsIn(elements, Comma, [CloseBracket] + []);
    case Paren(inner) => PrintedEndsIn(inner, [CloseParen] + []);
    case JSDocNullable(inner) => PrintedEndsIn(inner, [Question] + []);
  }

  /** Types that do not end in another type end in a token of their own. */
  lemma OwnLastToken(t: Type)
    requires HasTypeEdge(t) && Edge(t).None? && !t.Union? && !t.Intersection?
    ensures Print(t) != [] && (EndsWith(Print(t), Question) <==> t.JSDocNullable?)
  {
    match t
    case Reference(_, args) => ArgsEnd(args);
    case Query(name, args) =>
      ArgsEnd(args);
      assert Print(t) == [TypeOfKeyword] + ([NameToken(name)] + PrintArgsOnto(args, []));
    case Array(_) => ClosedEnd(t);
    case IndexedAccess(_, _) => ClosedEnd(t);
    case Tuple(_) => ClosedEnd(t);
    case Paren(_) => ClosedEnd(t);
    case JSDocNullable(_) => ClosedEnd(t);
    case _ =>
  }

  /** An optional member's type stays bare only where its text does not end in `?`, and at the level of postfix types. */
  lemma OptionalStaysBareIff(t: Type)
    requires HasTypeEdge(t)
    ensures TypeOfOptional(t) == if EndsWith(Print(t), Question) then Paren(t) else NonArrayTypeOfPostfix(t)
  {
    PostfixQuestionIff(t);
  }
}
