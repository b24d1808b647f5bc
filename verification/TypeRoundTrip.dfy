/**
 * Printing a type built by the factory and parsing the tokens gives the same tree back, node
 * for node and parenthesis for parenthesis.
 */
module TypeRoundTrip {
  import opened TypeNodes
  import opened TypeParser
  import opened TypeGuards
  import opened TypeLookAhead
  import opened Wrappers

  /** Nothing ahead continues a postfix type, a type argument list, or a parameter list. */
  predicate Quiet(rest: seq<Token>) {
    !At(rest, OpenBracket) && !At(rest, LessThan) && !At(rest, Arrow)
    && (At(rest, Question) ==> StartsType(rest[1..]))
  }

  /** What follows `extends` reads as the rest of a conditional type. */
  predicate ConditionalAhead(rest: seq<Token>) {
    At(rest, ExtendsKeyword) ==>
      var bound := ParseType(true, rest[1..]);
      bound.Parsed? && At(bound.rest, Question)
  }

  /** `rest` may follow a type operator operand read in this context. */
  predicate Follows(strict: bool, t: Type, rest: seq<Token>) {
    Quiet(rest) && Edge(strict, t, FollowOf(rest)) && (strict || ConditionalAhead(rest))
    && (At(rest, Bar) || At(rest, Ampersand) ==> !EndsInConstraint(t))
  }

  /** `rest` may follow a whole type read in this context. */
  predicate Closes(strict: bool, t: Type, rest: seq<Token>) {
    Quiet(rest) && Edge(strict, t, FollowOf(rest)) && !At(rest, Bar) && !At(rest, Ampersand)
    && (strict || !At(rest, ExtendsKeyword))
  }

  predicate OperatorLevel(t: Type) {
    Plain(t) && !t.Union? && !t.Intersection? && !t.Function? && !t.Conditional?
  }

  predicate PostfixLevel(t: Type) {
    OperatorLevel(t) && !t.Infer? && !t.Operator?
  }

  predicate NonArrayLevel(t: Type) {
    PostfixLevel(t) && !t.Array? && !t.IndexedAccess?
  }

  /**
   * Each rule leaves a type bare exactly at the level that the parser reads in its place, save three:
   * intersections in a union, operators behind `readonly` and `typeof` in front of `[` are parenthesized
   * without need. What is not left bare gets one pair of parentheses.
   */
  lemma RulesFollowLevels(t: Type)
    requires Plain(t)
    ensures CheckTypeOfConditional(t) == if t.Function? || t.Conditional? then Paren(t) else t
    ensures ExtendsTypeOfConditional(t) == if t.Conditional? then Paren(t) else t
    ensures ConstituentOfUnion(t) == if OperatorLevel(t) then t else Paren(t)
    ensures ConstituentOfIntersection(t) == if OperatorLevel(t) then t else Paren(t)
    ensures OperandOfTypeOperator(t) == if OperatorLevel(t) then t else Paren(t)
    ensures OperandOfReadonly(t) == if OperatorLevel(t) && !t.Operator? then t else Paren(t)
    ensures NonArrayTypeOfPostfix(t) == if PostfixLevel(t) && !t.Query? then t else Paren(t)
  {
  }

  /** A token that closes a list item or a bracket lets every type end in front of it. */
  lemma CloserCloses(strict: bool, t: Type, rest: seq<Token>)
    requires At(rest, CloseParen) || At(rest, CloseBracket) || At(rest, GreaterThan)
             || At(rest, Comma) || At(rest, Colon) || rest == []
    ensures Closes(strict, t, rest)
  {
    EdgeBeforeOther(strict, t);
  }

  // ---------- Lists ----------

  lemma {:induction false} TypesOnto(ts: List<Type>, rest: seq<Token>)
    requires ts.Cons? && BuiltList(ts) && GoodList(ts)
    requires At(rest, GreaterThan)
    ensures ParseTypes(PrintListOnto(ts, Comma, rest)) == Parsed(ts, rest)
    decreases ts, 20
  {
    var t := ts.head;
    if ts.tail.Nil? {
      ArgumentOnto(t, rest);
      TypesStep(PrintOnto(t, rest), t, rest, Nil, rest);
    } else {
      var tail := [Comma] + PrintListOnto(ts.tail, Comma, rest);
      ArgumentOnto(t, tail);
      TypesOnto(ts.tail, rest);
      assert tail[1..] == PrintListOnto(ts.tail, Comma, rest);
      TypesStep(PrintOnto(t, tail), t, tail, ts.tail, rest);
    }
  }

  lemma TypesStep(ts: seq<Token>, t: Type, tail: seq<Token>, more: List<Type>, rest: seq<Token>)
    requires StartsType(ts) && ParseType(false, ts) == Parsed(t, tail)
    requires if At(tail, Comma) then ParseTypes(tail[1..]) == Parsed(more, rest) else more.Nil? && tail == rest
    ensures ParseTypes(ts) == Parsed(Cons(t, more), rest)
  {
  }

  lemma {:induction false} ArgumentOnto(t: Type, rest: seq<Token>)
    requires Built(t) && Good(t) && (At(rest, Comma) || At(rest, GreaterThan))
    ensures StartsType(PrintOnto(t, rest)) && ParseType(false, PrintOnto(t, rest)) == Parsed(t, rest)
    decreases t, 6
  {
    CloserCloses(false, t, rest);
    TypeStarts(t, rest);
    TypeOnto(false, t, rest);
  }

  lemma {:induction false} ArgsOnto(args: List<Type>, rest: seq<Token>)
    requires BuiltList(args) && GoodList(args) && !At(rest, LessThan)
    ensures ParseArgs(PrintArgsOnto(args, rest)) == Parsed(args, rest)
    decreases args, 21
  {
    if args.Cons? {
      var tail := [GreaterThan] + rest;
      assert tail[1..] == rest;
      assert ([LessThan] + PrintListOnto(args, Comma, tail))[1..] == PrintListOnto(args, Comma, tail);
      TypesOnto(args, tail);
    }
  }

  lemma {:induction false} PlainElementOnto(t: Type, rest: seq<Token>)
    requires Built(t) && Good(t) && (At(rest, Comma) || At(rest, CloseBracket))
    ensures ParseElementType(PrintOnto(t, rest)) == Parsed(t, rest)
    decreases t, 20
  {
    CloserCloses(false, t, rest);
    TypeBegins(t, rest);
    BuiltIsPlain(t);
    TypeOnto(false, t, rest);
  }

  lemma {:induction false} OptionalOnto(t: Type, rest: seq<Token>)
    requires t.Optional? && BuiltElement(t) && Good(t) && (At(rest, Comma) || At(rest, CloseBracket))
    ensures ParseElementType(PrintOnto(t, rest)) == Parsed(t, rest)
    decreases t, 0
  {
    hide ParsePostfix, ParsePostfixRest, ParseType, StartsFunction, ParseElementType;
    var tail := [Question] + rest;
    var ts := PrintOnto(t.inner, tail);
    BuiltIsPlain(t.inner);
    PostfixOnto(t.inner, tail);
    QuestionRead(t.inner, rest);
    TypeBegins(t.inner, tail);
    StartsFunctionIff(t.inner, tail);
    PostfixIsNoOperator(t.inner, tail);
    PostfixAlone(ts);
    OptionalStep(t, ts, rest);
  }

  lemma OptionalStep(t: Type, ts: seq<Token>, rest: seq<Token>)
    requires t.Optional? && CreateOptional(t.inner) == t && Begins(ts)
    requires ParseType(false, ts) == Parsed(JSDocNullable(t.inner), rest)
    ensures ParseElementType(ts) == Parsed(t, rest)
  {
  }

  lemma QuestionRead(t: Type, rest: seq<Token>)
    requires At(rest, Comma) || At(rest, CloseBracket)
    ensures ParsePostfixRest(t, [Question] + rest) == Parsed(JSDocNullable(t), rest)
  {
    assert ([Question] + rest)[1..] == rest;
  }

  /** A postfix type with no operator around it passes through every level above. */
  lemma PostfixAlone(ts: seq<Token>)
    requires Begins(ts) && !StartsFunction(ts) && !ts[0].OperatorKeyword? && ts[0] != InferKeyword
    requires var p := ParsePostfix(ts);
             p.Parsed? && !At(p.rest, Bar) && !At(p.rest, Ampersand) && !At(p.rest, ExtendsKeyword)
    ensures ParseType(false, ts) == ParsePostfix(ts)
  {
    assert ParseOperator(false, ts) == ParsePostfix(ts);
    assert ParseIntersection(false, ts) == ParsePostfix(ts);
    assert ParseUnion(false, ts) == ParsePostfix(ts);
  }

  lemma {:induction false} PostfixIsNoOperator(t: Type, rest: seq<Token>)
    requires Built(t) && Good(t) && PostfixLevel(t)
    ensures var ts := PrintOnto(t, rest); ts != [] && !ts[0].OperatorKeyword? && ts[0] != InferKeyword
    decreases t
  {
    if Leftmost(t).Some? {
      LeftmostFirst(t, rest);
      BuiltIsPlain(Leftmost(t).value);
      PostfixIsNoOperator(Leftmost(t).value, AfterLeftmost(t, rest));
    }
  }

  lemma {:induction false} NamedOnto(t: Type, rest: seq<Token>)
    requires t.Named? && BuiltElement(t) && Good(t) && (At(rest, Comma) || At(rest, CloseBracket))
    ensures ParseElement(PrintOnto(t, rest)) == Parsed(t, rest)
    ensures StartsType(PrintOnto(t, rest))
    decreases t, 0
  {
    PlainElementOnto(t.inner, rest);
    NamedStep(t, PrintOnto(t.inner, rest), rest);
  }

  lemma NamedStep(t: Type, typed: seq<Token>, rest: seq<Token>)
    requires t.Named? && ParseElementType(typed) == Parsed(t.inner, rest)
    ensures var ts := Flag(t.dots, DotDotDot, [NameToken(t.name)] + Flag(t.question, Question, [Colon] + typed));
            StartsType(ts) && ParseElement(ts) == Parsed(t, rest)
  {
    hide ParseElementType;
    var tail2 := [Colon] + typed;
    var tail := Flag(t.question, Question, tail2);
    var named := [NameToken(t.name)] + tail;
    assert named[1..] == tail && tail2[1..] == typed;
    if t.question {
      assert named[2..] == tail2 && named[3..] == typed;
    } else {
      assert named[2..] == typed;
    }
    assert ([DotDotDot] + named)[1..] == named;
  }

  lemma {:induction false} ElementOnto(t: Type, rest: seq<Token>)
    requires BuiltElement(t) && Good(t) && (At(rest, Comma) || At(rest, CloseBracket))
    ensures ParseElement(PrintOnto(t, rest)) == Parsed(t, rest)
    ensures StartsType(PrintOnto(t, rest))
    decreases t, 21
  {
    hide ParseElementType, NamesElement, StartsType;
    if t.Named? {
      NamedOnto(t, rest);
    } else if t.Rest? {
      RestOnto(t, rest);
    } else if t.Optional? {
      var tail := [Question] + rest;
      assert tail[1..] == rest;
      OptionalOnto(t, rest);
      NotNamed(t.inner, tail);
      TypeStarts(t.inner, tail);
    } else {
      PlainElementOnto(t, rest);
      NotNamed(t, rest);
      TypeStarts(t, rest);
    }
  }

  lemma {:induction false} RestOnto(t: Type, rest: seq<Token>)
    requires t.Rest? && BuiltElement(t) && Good(t) && (At(rest, Comma) || At(rest, CloseBracket))
    ensures ParseElement(PrintOnto(t, rest)) == Parsed(t, rest)
    ensures StartsType(PrintOnto(t, rest))
    decreases t, 0
  {
    var inner := PrintOnto(t.inner, rest);
    CloserCloses(false, t.inner, rest);
    TypeOnto(false, t.inner, rest);
    NotNamed(t.inner, rest);
    TypeBegins(t.inner, rest);
    RestIsNotNamed(inner);
    RestStep(t.inner, inner, rest);
  }

  lemma RestStep(t: Type, inner: seq<Token>, rest: seq<Token>)
    requires ParseType(false, inner) == Parsed(t, rest) && !NamesElement([DotDotDot] + inner)
    ensures ParseElement([DotDotDot] + inner) == Parsed(Rest(t), rest)
  {
    assert ([DotDotDot] + inner)[1..] == inner;
  }

  lemma RestIsNotNamed(ts: seq<Token>)
    requires Begins(ts) && !NamesElement(ts)
    ensures !NamesElement([DotDotDot] + ts)
  {
    assert ([DotDotDot] + ts)[1..] == ts;
  }

  lemma {:induction false} ElementsOnto(ts: List<Type>, rest: seq<Token>)
    requires BuiltElements(ts) && GoodList(ts) && At(rest, CloseBracket)
    ensures ParseElements(PrintListOnto(ts, Comma, rest)) == Parsed(ts, rest)
    decreases ts, 20
  {
    if ts.Cons? {
      var t := ts.head;
      if ts.tail.Nil? {
        ElementOnto(t, rest);
      } else {
        var more := PrintListOnto(ts.tail, Comma, rest);
        var tail := [Comma] + more;
        assert tail[1..] == more;
        ElementOnto(t, tail);
        ElementsOnto(ts.tail, rest);
      }
    }
  }

  // ---------- Postfix types ----------

  lemma {:induction false} NonArrayOnto(t: Type, rest: seq<Token>)
    requires Built(t) && Good(t) && NonArrayLevel(t) && !At(rest, LessThan)
    ensures ParseNonArray(PrintOnto(t, rest)) == Parsed(t, rest)
    decreases t, 0
  {
    hide ParseArgs, ParseElements, ParseType, PrintArgsOnto, PrintListOnto;
    var ts := PrintOnto(t, rest);
    match t
    case Reference(_, args) =>
      ArgsOnto(args, rest);
      assert ts[1..] == PrintArgsOnto(args, rest);
    case Query(name, args) =>
      ArgsOnto(args, rest);
      assert ts[1..] == [NameToken(name)] + PrintArgsOnto(args, rest);
      assert ts[2..] == PrintArgsOnto(args, rest);
    case Tuple(elements) =>
      var tail := [CloseBracket] + rest;
      assert ts[1..] == PrintListOnto(elements, Comma, tail) && tail[1..] == rest;
      ElementsOnto(elements, tail);
    case Paren(inner) =>
      var tail := [CloseParen] + rest;
      assert ts[1..] == PrintOnto(inner, tail) && tail[1..] == rest;
      CloserCloses(false, inner, tail);
      TypeOnto(false, inner, tail);
    case Opaque(_) =>
      assert ts[1..] == rest;
    case Braces(_) =>
      assert ts[1..] == rest;
  }

  lemma {:induction false} PostfixOnto(t: Type, rest: seq<Token>)
    requires Built(t) && Good(t) && PostfixLevel(t) && !At(rest, LessThan)
    ensures ParsePostfix(PrintOnto(t, rest)) == ParsePostfixRest(t, rest)
    decreases t, 1
  {
    hide ParseNonArray, ParseType;
    if t.Array? {
      BuiltIsPlain(t.element);
      var tail2 := [CloseBracket] + rest;
      var tail := [OpenBracket] + tail2;
      assert tail[1..] == tail2 && tail[2..] == rest;
      PostfixOnto(t.element, tail);
    } else if t.IndexedAccess? {
      IndexedOnto(t, rest);
    } else {
      NonArrayOnto(t, rest);
    }
  }

  lemma {:induction false} IndexedOnto(t: Type, rest: seq<Token>)
    requires Built(t) && Good(t) && t.IndexedAccess? && !At(rest, LessThan)
    ensures ParsePostfix(PrintOnto(t, rest)) == ParsePostfixRest(t, rest)
    decreases t, 0
  {
    var IndexedAccess(o, i) := t;
    BuiltIsPlain(o);
    var tail3 := [CloseBracket] + rest;
    var tail2 := PrintOnto(i, tail3);
    var tail := [OpenBracket] + tail2;
    assert tail[1..] == tail2 && tail3[1..] == rest;
    PostfixOnto(o, tail);
    CloserCloses(false, i, tail3);
    TypeStarts(i, tail3);
    TypeOnto(false, i, tail3);
  }

  // ---------- Operators, infer ----------

  lemma {:induction false} OperatorOnto(strict: bool, t: Type, rest: seq<Token>)
    requires Built(t) && Good(t) && OperatorLevel(t) && Follows(strict, t, rest)
    ensures ParseOperator(strict, PrintOnto(t, rest)) == Parsed(t, rest)
    decreases t, 2
  {
    if t.Operator? {
      BuiltIsPlain(t.operand);
      assert PrintOnto(t, rest)[1..] == PrintOnto(t.operand, rest);
      OperatorOnto(strict, t.operand, rest);
    } else if t.Infer? {
      InferOnto(strict, t, rest);
    } else {
      PostfixOnto(t, rest);
      PostfixIsNoOperator(t, rest);
    }
  }

  lemma {:induction false} InferOnto(strict: bool, t: Type, rest: seq<Token>)
    requires Built(t) && Good(t) && t.Infer? && Follows(strict, t, rest)
    ensures ParseOperator(strict, PrintOnto(t, rest)) == Parsed(t, rest)
    decreases t, 0
  {
    if t.constraint.Some? {
      var c := t.constraint.value;
      assert Closes(true, c, rest);
      TypeOnto(true, c, rest);
      ConstrainedInferStep(strict, t.name, c, PrintOnto(c, rest), rest);
    } else {
      FreeInferStep(strict, t.name, rest);
    }
  }

  lemma ConstrainedInferStep(strict: bool, name: nat, c: Type, bound: seq<Token>, rest: seq<Token>)
    requires ParseType(true, bound) == Parsed(c, rest) && (strict || !At(rest, Question))
    ensures ParseOperator(strict, [InferKeyword] + ([NameToken(name)] + ([ExtendsKeyword] + bound)))
            == Parsed(Infer(name, Some(c)), rest)
  {
    var tail2 := [ExtendsKeyword] + bound;
    var tail := [NameToken(name)] + tail2;
    assert ([InferKeyword] + tail)[1..] == tail && tail[1..] == tail2 && tail[2..] == bound;
  }

  lemma FreeInferStep(strict: bool, name: nat, rest: seq<Token>)
    requires At(rest, ExtendsKeyword) ==> !strict && ConditionalAhead(rest)
    ensures ParseOperator(strict, [InferKeyword] + ([NameToken(name)] + rest)) == Parsed(Infer(name, None), rest)
  {
    var tail := [NameToken(name)] + rest;
    assert ([InferKeyword] + tail)[1..] == tail && tail[1..] == rest;
    assert At(rest, ExtendsKeyword) ==> tail[2..] == rest[1..];
  }

  // ---------- Unions and intersections ----------

  lemma BuiltIntersectionList(ts: List<Type>)
    requires MapIntersection(ts) == ts && ts.Cons? && BuiltList(ts)
    ensures OperatorLevel(ts.head) && MapIntersection(ts.tail) == ts.tail
  {
    BuiltIsPlain(ts.head);
  }

  lemma BuiltUnionList(ts: List<Type>)
    requires MapUnion(ts) == ts && ts.Cons? && BuiltList(ts)
    ensures OperatorLevel(ts.head) && MapUnion(ts.tail) == ts.tail
  {
    BuiltIsPlain(ts.head);
  }

  /** The first of several members closes in front of the operator; the last one is the edge. */
  lemma MembersSplit(strict: bool, ts: List<Type>, follow: Follow)
    requires Members(ts)
    ensures !EndsInConstraint(ts.head) && ts.tail.Cons? && (ts.tail.tail.Cons? ==> Members(ts.tail))
    ensures LastEdge(strict, ts, follow) == LastEdge(strict, ts.tail, follow)
  {
  }

  /** A constituent in front of the next operator. */
  lemma ConstituentFollows(strict: bool, t: Type, op: Token, more: seq<Token>)
    requires (op == Bar || op == Ampersand) && !EndsInConstraint(t)
    ensures Follows(strict, t, [op] + more)
  {
    EdgeBeforeOther(strict, t);
  }

  lemma {:induction false} MoreIntersectionOnto(strict: bool, ts: List<Type>, rest: seq<Token>)
    requires ts.Cons? && BuiltList(ts) && GoodList(ts) && MapIntersection(ts) == ts
    requires ts.tail.Cons? ==> Members(ts)
    requires Quiet(rest) && LastEdge(strict, ts, FollowOf(rest)) && (strict || ConditionalAhead(rest))
    requires !At(rest, Ampersand) && (At(rest, Bar) ==> ts.tail.Nil? && !EndsInConstraint(ts.head))
    ensures ParseMoreIntersection(strict, [Ampersand] + PrintListOnto(ts, Ampersand, rest)) == Parsed(ts, rest)
    decreases ts, 20
  {
    hide StartsFunction, ParseMoreIntersection, ParseOperator, Edge, Good, Built;
    BuiltIntersectionList(ts);
    var t := ts.head;
    if ts.tail.Nil? {
      StartsFunctionIff(t, rest);
      OperatorOnto(strict, t, rest);
      NoMoreIntersection(strict, rest);
      MoreIntersectionStep(strict, PrintOnto(t, rest), t, rest, Nil, rest);
    } else {
      var more := PrintListOnto(ts.tail, Ampersand, rest);
      var tail := [Ampersand] + more;
      ConstituentFollows(strict, t, Ampersand, more);
      StartsFunctionIff(t, tail);
      OperatorOnto(strict, t, tail);
      MoreIntersectionOnto(strict, ts.tail, rest);
      MoreIntersectionStep(strict, PrintOnto(t, tail), t, tail, ts.tail, rest);
    }
  }

  lemma NoMoreIntersection(strict: bool, rest: seq<Token>)
    requires !At(rest, Ampersand)
    ensures ParseMoreIntersection(strict, rest) == Parsed(Nil, rest)
  {
  }

  lemma MoreIntersectionStep(strict: bool, ts: seq<Token>, t: Type, tail: seq<Token>, more: List<Type>, rest: seq<Token>)
    requires !StartsFunction(ts) && ParseOperator(strict, ts) == Parsed(t, tail)
    requires ParseMoreIntersection(strict, tail) == Parsed(more, rest)
    ensures ParseMoreIntersection(strict, [Ampersand] + ts) == Parsed(Cons(t, more), rest)
  {
    assert ([Ampersand] + ts)[1..] == ts;
  }

  lemma {:induction false} SeveralIntersectionOnto(strict: bool, ts: List<Type>, rest: seq<Token>)
    requires Members(ts) && BuiltList(ts) && GoodList(ts) && MapIntersection(ts) == ts
    requires Quiet(rest) && LastEdge(strict, ts, FollowOf(rest)) && (strict || ConditionalAhead(rest))
    requires !At(rest, Ampersand) && !At(rest, Bar)
    ensures ParseIntersection(strict, PrintListOnto(ts, Ampersand, rest)) == Parsed(Intersection(ts), rest)
    decreases ts, 21
  {
    var Cons(h, more) := ts;
    BuiltIntersectionList(ts);
    MembersSplit(strict, ts, FollowOf(rest));
    var tail := [Ampersand] + PrintListOnto(more, Ampersand, rest);
    ConstituentFollows(strict, h, Ampersand, PrintListOnto(more, Ampersand, rest));
    OperatorOnto(strict, h, tail);
    TypeBegins(h, tail);
    MoreIntersectionOnto(strict, more, rest);
    IntersectionStep(strict, PrintOnto(h, tail), h, tail, more, rest);
  }

  lemma {:induction false} IntersectionOnto(strict: bool, t: Type, rest: seq<Token>)
    requires Built(t) && Good(t) && (OperatorLevel(t) || t.Intersection?) && Follows(strict, t, rest)
    requires !At(rest, Ampersand) && (At(rest, Bar) ==> !t.Intersection?)
    ensures ParseIntersection(strict, PrintOnto(t, rest)) == Parsed(t, rest)
    decreases t, 3
  {
    if t.Intersection? {
      SeveralIntersectionOnto(strict, t.types, rest);
    } else {
      TypeBegins(t, rest);
      OperatorOnto(strict, t, rest);
    }
  }

  lemma IntersectionStep(strict: bool, ts: seq<Token>, h: Type, tail: seq<Token>, more: List<Type>, rest: seq<Token>)
    requires !At(ts, Ampersand) && ParseOperator(strict, ts) == Parsed(h, tail)
    requires At(tail, Ampersand) && ParseMoreIntersection(strict, tail) == Parsed(more, rest)
    ensures ParseIntersection(strict, ts) == Parsed(CreateIntersection(Cons(h, more)), rest)
  {
  }

  lemma {:induction false} MoreUnionOnto(strict: bool, ts: List<Type>, rest: seq<Token>)
    requires ts.Cons? && BuiltList(ts) && GoodList(ts) && MapUnion(ts) == ts
    requires ts.tail.Cons? ==> Members(ts)
    requires Quiet(rest) && LastEdge(strict, ts, FollowOf(rest)) && (strict || ConditionalAhead(rest))
    requires !At(rest, Ampersand) && !At(rest, Bar)
    ensures ParseMoreUnion(strict, [Bar] + PrintListOnto(ts, Bar, rest)) == Parsed(ts, rest)
    decreases ts, 20
  {
    hide StartsFunction, ParseMoreUnion, ParseIntersection, Edge, Good, Built;
    BuiltUnionList(ts);
    var t := ts.head;
    if ts.tail.Nil? {
      StartsFunctionIff(t, rest);
      IntersectionOnto(strict, t, rest);
      NoMoreUnion(strict, rest);
      MoreUnionStep(strict, PrintOnto(t, rest), t, rest, Nil, rest);
    } else {
      var more := PrintListOnto(ts.tail, Bar, rest);
      var tail := [Bar] + more;
      ConstituentFollows(strict, t, Bar, more);
      StartsFunctionIff(t, tail);
      IntersectionOnto(strict, t, tail);
      MoreUnionOnto(strict, ts.tail, rest);
      MoreUnionStep(strict, PrintOnto(t, tail), t, tail, ts.tail, rest);
    }
  }

  lemma NoMoreUnion(strict: bool, rest: seq<Token>)
    requires !At(rest, Bar)
    ensures ParseMoreUnion(strict, rest) == Parsed(Nil, rest)
  {
  }

  lemma MoreUnionStep(strict: bool, ts: seq<Token>, t: Type, tail: seq<Token>, more: List<Type>, rest: seq<Token>)
    requires !StartsFunction(ts) && ParseIntersection(strict, ts) == Parsed(t, tail)
    requires ParseMoreUnion(strict, tail) == Parsed(more, rest)
    ensures ParseMoreUnion(strict, [Bar] + ts) == Parsed(Cons(t, more), rest)
  {
    assert ([Bar] + ts)[1..] == ts;
  }

  lemma {:induction false} SeveralUnionOnto(strict: bool, ts: List<Type>, rest: seq<Token>)
    requires Members(ts) && BuiltList(ts) && GoodList(ts) && MapUnion(ts) == ts
    requires Quiet(rest) && LastEdge(strict, ts, FollowOf(rest)) && (strict || ConditionalAhead(rest))
    requires !At(rest, Ampersand) && !At(rest, Bar)
    ensures ParseUnion(strict, PrintListOnto(ts, Bar, rest)) == Parsed(Union(ts), rest)
    decreases ts, 21
  {
    var Cons(h, more) := ts;
    BuiltUnionList(ts);
    MembersSplit(strict, ts, FollowOf(rest));
    var tail := [Bar] + PrintListOnto(more, Bar, rest);
    ConstituentFollows(strict, h, Bar, PrintListOnto(more, Bar, rest));
    IntersectionOnto(strict, h, tail);
    TypeBegins(h, tail);
    MoreUnionOnto(strict, more, rest);
    UnionStep(strict, PrintOnto(h, tail), h, tail, more, rest);
  }

  lemma {:induction false} UnionOnto(strict: bool, t: Type, rest: seq<Token>)
    requires Built(t) && Good(t) && !t.Function? && !t.Conditional? && Follows(strict, t, rest)
    requires !At(rest, Ampersand) && !At(rest, Bar)
    ensures ParseUnion(strict, PrintOnto(t, rest)) == Parsed(t, rest)
    decreases t, 4
  {
    if t.Union? {
      SeveralUnionOnto(strict, t.types, rest);
    } else {
      BuiltIsPlain(t);
      TypeBegins(t, rest);
      IntersectionOnto(strict, t, rest);
    }
  }

  lemma UnionStep(strict: bool, ts: seq<Token>, h: Type, tail: seq<Token>, more: List<Type>, rest: seq<Token>)
    requires !At(ts, Bar) && ParseIntersection(strict, ts) == Parsed(h, tail)
    requires At(tail, Bar) && ParseMoreUnion(strict, tail) == Parsed(more, rest)
    ensures ParseUnion(strict, ts) == Parsed(CreateUnion(Cons(h, more)), rest)
  {
  }

  // ---------- Whole types ----------

  lemma {:induction false} TypeOnto(strict: bool, t: Type, rest: seq<Token>)
    requires Built(t) && Good(t) && Closes(strict, t, rest)
    requires strict ==> BareFree(t)
    ensures ParseType(strict, PrintOnto(t, rest)) == Parsed(t, rest)
    decreases t, 5
  {
    StartsFunctionIff(t, rest);
    if t.Function? {
      FunctionOnto(strict, t, rest);
    } else if t.Conditional? {
      ConditionalOnto(t, rest);
    } else {
      UnionOnto(strict, t, rest);
    }
  }

  lemma {:induction false} ConditionalOnto(t: Type, rest: seq<Token>)
    requires t.Conditional? && Built(t) && Good(t) && Closes(false, t, rest)
    ensures ParseType(false, PrintOnto(t, rest)) == Parsed(t, rest)
    decreases t, 1
  {
    var Conditional(c, e, a, b) := t;
    var falseTokens := PrintOnto(b, rest);
    var tail3 := [Colon] + falseTokens;
    var trueTokens := PrintOnto(a, tail3);
    var tail2 := [Question] + trueTokens;
    var boundTokens := PrintOnto(e, tail2);
    var tail := [ExtendsKeyword] + boundTokens;
    assert tail[1..] == boundTokens && tail2[1..] == trueTokens && tail3[1..] == falseTokens;
    TypeStarts(a, tail3);
    BranchesOnto(t, tail3, rest);
    BoundTypeOnto(t, tail2);
    CheckTypeOnto(t, tail);
    ConditionalStep(PrintOnto(c, tail), t, tail, tail2, tail3, rest);
  }

  lemma {:induction false} BranchesOnto(t: Type, tail3: seq<Token>, rest: seq<Token>)
    requires t.Conditional? && Built(t) && Good(t) && Closes(false, t, rest)
    requires tail3 == [Colon] + PrintOnto(t.whenFalse, rest)
    ensures ParseType(false, PrintOnto(t.whenTrue, tail3)) == Parsed(t.whenTrue, tail3)
    ensures ParseType(false, PrintOnto(t.whenFalse, rest)) == Parsed(t.whenFalse, rest)
    decreases t, 0
  {
    TypeOnto(false, t.whenFalse, rest);
    CloserCloses(false, t.whenTrue, tail3);
    TypeOnto(false, t.whenTrue, tail3);
  }

  lemma {:induction false} BoundTypeOnto(t: Type, tail2: seq<Token>)
    requires t.Conditional? && Built(t) && Good(t)
    requires At(tail2, Question) && StartsType(tail2[1..])
    ensures ParseType(true, PrintOnto(t.bound, tail2)) == Parsed(t.bound, tail2)
    decreases t, 0
  {
    TypeOnto(true, t.bound, tail2);
  }

  lemma {:induction false} CheckTypeOnto(t: Type, tail: seq<Token>)
    requires t.Conditional? && Built(t) && Good(t)
    requires At(tail, ExtendsKeyword) && ConditionalAhead(tail)
    ensures !StartsFunction(PrintOnto(t.check, tail))
    ensures ParseUnion(false, PrintOnto(t.check, tail)) == Parsed(t.check, tail)
    decreases t, 0
  {
    assert !t.check.Function? && !t.check.Conditional?;
    StartsFunctionIff(t.check, tail);
    UnionOnto(false, t.check, tail);
  }

  lemma ConditionalStep(ts: seq<Token>, t: Type, tail: seq<Token>, tail2: seq<Token>, tail3: seq<Token>, rest: seq<Token>)
    requires t.Conditional? && CreateConditional(t.check, t.bound, t.whenTrue, t.whenFalse) == t
    requires !StartsFunction(ts) && ParseUnion(false, ts) == Parsed(t.check, tail)
    requires At(tail, ExtendsKeyword) && ParseType(true, tail[1..]) == Parsed(t.bound, tail2)
    requires At(tail2, Question) && ParseType(false, tail2[1..]) == Parsed(t.whenTrue, tail3)
    requires At(tail3, Colon) && ParseType(false, tail3[1..]) == Parsed(t.whenFalse, rest)
    ensures ParseType(false, ts) == Parsed(t, rest)
  {
  }

  // ---------- Function types ----------

  lemma {:induction false} NamesOnto(names: List<nat>, rest: seq<Token>)
    requires names.Cons? && At(rest, GreaterThan)
    ensures ParseNames(PrintNamesOnto(names, rest)) == Parsed(names, rest)
  {
    var ts := PrintNamesOnto(names, rest);
    if names.tail.Nil? {
      assert ts[1..] == rest;
    } else {
      var more := PrintNamesOnto(names.tail, rest);
      assert ts[1..] == [Comma] + more && ts[2..] == more;
      NamesOnto(names.tail, rest);
    }
  }

  lemma TypeParamsOnto(names: List<nat>, rest: seq<Token>)
    requires At(rest, OpenParen)
    ensures ParseTypeParams(PrintTypeParamsOnto(names, rest)) == Parsed(names, rest)
  {
    if names.Cons? {
      var tail := [GreaterThan] + rest;
      var inside := PrintNamesOnto(names, tail);
      assert tail[1..] == rest && ([LessThan] + inside)[1..] == inside;
      NamesOnto(names, tail);
    }
  }

  lemma {:induction false} ParamOnto(strict: bool, p: Param, rest: seq<Token>)
    requires p.annotation.Some? ==> Built(p.annotation.value) && Good(p.annotation.value)
    requires p.annotation.Some? && strict ==> BareFree(p.annotation.value)
    requires At(rest, Comma) || At(rest, CloseParen)
    ensures ParseParam(strict, PrintParamOnto(p, rest)) == Parsed(p, rest)
    ensures var ts := PrintParamOnto(p, rest); ts != [] && (ts[0].NameToken? || ts[0] == DotDotDot)
    decreases p, 0
  {
    var tail := rest;
    if p.annotation.Some? {
      var t := p.annotation.value;
      CloserCloses(strict, t, rest);
      TypeOnto(strict, t, rest);
      tail := [Colon] + PrintOnto(t, rest);
      assert tail[1..] == PrintOnto(t, rest);
    }
    ParamStep(strict, p, tail, rest);
  }

  lemma ParamStep(strict: bool, p: Param, typed: seq<Token>, rest: seq<Token>)
    requires At(rest, Comma) || At(rest, CloseParen)
    requires if p.annotation.Some? then At(typed, Colon) && ParseType(strict, typed[1..]) == Parsed(p.annotation.value, rest)
             else typed == rest
    ensures ParseParam(strict, Flag(p.dots, DotDotDot, [NameToken(p.name)] + Flag(p.question, Question, typed)))
            == Parsed(p, rest)
  {
    var tail := Flag(p.question, Question, typed);
    var named := [NameToken(p.name)] + tail;
    assert named[1..] == tail;
    assert p.question ==> named[2..] == typed;
    assert ([DotDotDot] + named)[1..] == named;
  }

  lemma {:induction false} ParamsOnto(strict: bool, ps: List<Param>, rest: seq<Token>)
    requires BuiltParams(ps) && GoodParams(ps) && (strict ==> BareFreeParams(ps))
    requires At(rest, CloseParen)
    ensures ParseParams(strict, PrintParamsOnto(ps, rest)) == Parsed(ps, rest)
    decreases ps, 0
  {
    if ps.Cons? {
      if ps.tail.Nil? {
        ParamOnto(strict, ps.head, rest);
      } else {
        var more := PrintParamsOnto(ps.tail, rest);
        var tail := [Comma] + more;
        assert tail[1..] == more;
        ParamOnto(strict, ps.head, tail);
        ParamsOnto(strict, ps.tail, rest);
      }
    }
  }

  lemma {:induction false} FunctionOnto(strict: bool, t: Type, rest: seq<Token>)
    requires t.Function? && Built(t) && Good(t) && Closes(strict, t, rest)
    requires strict ==> BareFree(t)
    ensures ParseFunction(strict, PrintOnto(t, rest)) == Parsed(t, rest)
    decreases t, 0
  {
    var retTokens := PrintOnto(t.ret, rest);
    var tail3 := [CloseParen] + ([Arrow] + retTokens);
    assert tail3[1..] == [Arrow] + retTokens && tail3[2..] == retTokens;
    var paramTokens := PrintParamsOnto(t.params, tail3);
    var tail2 := [OpenParen] + paramTokens;
    assert tail2[1..] == paramTokens;
    TypeParamsOnto(t.typeParams, tail2);
    ParamsOnto(strict, t.params, tail3);
    assert Closes(false, t.ret, rest);
    TypeOnto(false, t.ret, rest);
    FunctionStep(strict, t, PrintTypeParamsOnto(t.typeParams, tail2), tail2, tail3, rest);
  }

  lemma FunctionStep(strict: bool, t: Type, tail: seq<Token>, tail2: seq<Token>, tail3: seq<Token>, rest: seq<Token>)
    requires t.Function? && (At(tail, LessThan) || At(tail, OpenParen))
    requires ParseTypeParams(tail) == Parsed(t.typeParams, tail2)
    requires At(tail2, OpenParen) && ParseParams(strict, tail2[1..]) == Parsed(t.params, tail3)
    requires At(tail3, CloseParen) && At(tail3[1..], Arrow) && ParseType(false, tail3[2..]) == Parsed(t.ret, rest)
    ensures ParseFunction(strict, SignaturePrefix(t.kind) + tail) == Parsed(t, rest)
  {
    SignaturePrefixRead(t.kind, tail);
  }

  lemma SignaturePrefixRead(kind: SignatureKind, rest: seq<Token>)
    requires At(rest, LessThan) || At(rest, OpenParen)
    ensures var ts := SignaturePrefix(kind) + rest;
            && kind == (if At(ts, AbstractKeyword) then AbstractConstruct else if At(ts, NewKeyword) then Construct else Call)
            && ts[|SignaturePrefix(kind)|..] == rest
  {
  }

  /** A good tree built by the factory is printed and parsed back to itself, parentheses included. */
  lemma PrintThenParse(t: Type)
    requires Built(t) && Good(t)
    ensures ParseType(false, Print(t)) == Parsed(t, [])
  {
    CloserCloses(false, t, []);
    TypeOnto(false, t, []);
  }
}
