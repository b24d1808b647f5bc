/**
 * The converse: whatever the parser returns satisfies the guards, so a factory tree that breaks
 * one does not come back. Together with the round trip this gives the exact condition.
 */
module TypeConverse {
  import opened TypeNodes
  import opened TypeParser
  import opened TypeGuards
  import opened TypeRoundTrip
  import opened Wrappers

  /** What holds of a whole type the parser has just read in front of `rest`. */
  predicate WholeRead(strict: bool, t: Type, rest: seq<Token>) {
    Good(t) && Edge(strict, t, FollowOf(rest)) && (strict ==> BareFree(t))
    && !At(rest, Bar) && !At(rest, Ampersand) && (!strict ==> !At(rest, ExtendsKeyword))
  }

  /** What holds of a constituent the parser has just read in front of `rest`. */
  predicate PartRead(strict: bool, t: Type, rest: seq<Token>) {
    Good(t) && Edge(strict, t, FollowOf(rest))
    && (At(rest, Bar) || At(rest, Ampersand) ==> !EndsInConstraint(t))
  }

  predicate InnerClosed(ts: List<Type>) {
    ts.Cons? && ts.tail.Cons? ==> !EndsInConstraint(ts.head) && InnerClosed(ts.tail)
  }

  predicate PartsRead(strict: bool, ts: List<Type>, rest: seq<Token>) {
    GoodList(ts) && LastEdge(strict, ts, FollowOf(rest)) && InnerClosed(ts)
  }

  lemma {:induction false} SeveralAreMembers(ts: List<Type>)
    requires ts.Cons? && ts.tail.Cons? && InnerClosed(ts)
    ensures Members(ts)
  {
    if ts.tail.tail.Cons? {
      SeveralAreMembers(ts.tail);
    }
  }

  // ---------- Parenthesizing keeps the guards ----------

  lemma {:induction false} MapUnionKeeps(strict: bool, ts: List<Type>, rest: seq<Token>)
    requires PartsRead(strict, ts, rest)
    ensures PartsRead(strict, MapUnion(ts), rest)
    ensures ts.Cons? ==> MapUnion(ts).Cons? && MapUnion(ts).tail.Cons? == ts.tail.Cons?
  {
    if ts.Cons? && ts.tail.Cons? {
      MapUnionKeeps(strict, ts.tail, rest);
    }
  }

  lemma {:induction false} MapIntersectionKeeps(strict: bool, ts: List<Type>, rest: seq<Token>)
    requires PartsRead(strict, ts, rest)
    ensures PartsRead(strict, MapIntersection(ts), rest)
    ensures ts.Cons? ==> MapIntersection(ts).Cons? && MapIntersection(ts).tail.Cons? == ts.tail.Cons?
  {
    if ts.Cons? && ts.tail.Cons? {
      MapIntersectionKeeps(strict, ts.tail, rest);
    }
  }

  lemma ConditionalKeeps(check: Type, bound: Type, whenTrue: Type, whenFalse: Type, rest: seq<Token>)
    requires Good(check) && Edge(false, check, BeforeExtends)
    requires Good(bound) && BareFree(bound) && Edge(true, bound, BeforeQuestion)
    requires Good(whenTrue) && WholeRead(false, whenFalse, rest)
    ensures WholeRead(false, CreateConditional(check, bound, whenTrue, whenFalse), rest)
  {
    assert ExtendsTypeOfConditional(bound) == bound;
    assert Good(Paren(check)) && Edge(false, Paren(check), BeforeExtends);
  }

  lemma UnionKeeps(strict: bool, ts: List<Type>, rest: seq<Token>)
    requires PartsRead(strict, ts, rest) && ts.Cons? && ts.tail.Cons? && !At(rest, Bar) && !At(rest, Ampersand)
    ensures PartRead(strict, CreateUnion(ts), rest)
  {
    MapUnionKeeps(strict, ts, rest);
    SeveralAreMembers(MapUnion(ts));
  }

  lemma IntersectionKeeps(strict: bool, ts: List<Type>, rest: seq<Token>)
    requires PartsRead(strict, ts, rest) && ts.Cons? && ts.tail.Cons? && !At(rest, Ampersand)
    ensures PartRead(strict, CreateIntersection(ts), rest)
  {
    MapIntersectionKeeps(strict, ts, rest);
    SeveralAreMembers(MapIntersection(ts));
  }

  lemma OperatorKeeps(strict: bool, op: OperatorKind, t: Type, rest: seq<Token>)
    requires PartRead(strict, t, rest)
    ensures PartRead(strict, CreateOperator(op, t), rest)
  {
    var p := Paren(t);
    assert Good(p) && Edge(strict, p, FollowOf(rest)) && !EndsInConstraint(p);
  }

  lemma PartsJoin(strict: bool, h: Type, more: List<Type>, rest: seq<Token>)
    requires Good(h) && !EndsInConstraint(h) && more.Cons? && PartsRead(strict, more, rest)
    ensures PartsRead(strict, Cons(h, more), rest)
  {
  }

  // ---------- Every level ----------

  lemma {:induction false} TypeRead(strict: bool, ts: seq<Token>)
    requires ParseType(strict, ts).Parsed?
    ensures var r := ParseType(strict, ts); WholeRead(strict, r.node, r.rest)
    decreases |ts|, 9
  {
    if StartsFunction(ts) {
      FunctionRead(strict, ts);
    } else {
      UnionRead(strict, ts);
      var check := ParseUnion(strict, ts);
      if !strict && At(check.rest, ExtendsKeyword) {
        ConditionalRead(check.node, check.rest);
      }
    }
  }

  lemma {:induction false} ConditionalRead(check: Type, tail: seq<Token>)
    requires PartRead(false, check, tail) && At(tail, ExtendsKeyword)
    ensures var bound := ParseType(true, tail[1..]);
            bound.Parsed? && At(bound.rest, Question) ==>
            var whenTrue := ParseType(false, bound.rest[1..]);
            whenTrue.Parsed? && At(whenTrue.rest, Colon) ==>
            var whenFalse := ParseType(false, whenTrue.rest[1..]);
            whenFalse.Parsed? ==>
            WholeRead(false, CreateConditional(check, bound.node, whenTrue.node, whenFalse.node), whenFalse.rest)
    decreases |tail|, 10
  {
    var bound := ParseType(true, tail[1..]);
    if bound.Parsed? && At(bound.rest, Question) {
      TypeRead(true, tail[1..]);
      var whenTrue := ParseType(false, bound.rest[1..]);
      if whenTrue.Parsed? && At(whenTrue.rest, Colon) {
        TypeRead(false, bound.rest[1..]);
        var whenFalse := ParseType(false, whenTrue.rest[1..]);
        if whenFalse.Parsed? {
          TypeRead(false, whenTrue.rest[1..]);
          ConditionalKeeps(check, bound.node, whenTrue.node, whenFalse.node, whenFalse.rest);
        }
      }
    }
  }

  lemma {:induction false} FunctionRead(strict: bool, ts: seq<Token>)
    requires ParseFunction(strict, ts).Parsed?
    ensures var r := ParseFunction(strict, ts);
            r.node.Function? && WholeRead(strict, r.node, r.rest) && !At(r.rest, ExtendsKeyword)
    decreases |ts|, 8
  {
    hide ParseType, ParseParams, ParseTypeParams;
    var kind := if At(ts, AbstractKeyword) then AbstractConstruct else if At(ts, NewKeyword) then Construct else Call;
    var typeParams := ParseTypeParams(ts[|SignaturePrefix(kind)|..]);
    var params := ParseParams(strict, typeParams.rest[1..]);
    ParamsRead(strict, typeParams.rest[1..]);
    TypeRead(false, params.rest[2..]);
  }

  lemma {:induction false} ParamsRead(strict: bool, ts: seq<Token>)
    requires ParseParams(strict, ts).Parsed?
    ensures var r := ParseParams(strict, ts); GoodParams(r.node) && (strict ==> BareFreeParams(r.node))
    decreases |ts|, 11
  {
    if ts != [] && (ts[0].NameToken? || ts[0] == DotDotDot) {
      var p := ParseParam(strict, ts);
      ParamRead(strict, ts);
      if At(p.rest, Comma) {
        ParamsRead(strict, p.rest[1..]);
      }
    }
  }

  lemma {:induction false} ParamRead(strict: bool, ts: seq<Token>)
    requires ParseParam(strict, ts).Parsed?
    ensures var p := ParseParam(strict, ts).node;
            p.annotation.Some? ==> Good(p.annotation.value) && (strict ==> BareFree(p.annotation.value))
    decreases |ts|, 10
  {
    var named := if At(ts, DotDotDot) then ts[1..] else ts;
    var typed := if At(named[1..], Question) then named[2..] else named[1..];
    if At(typed, Colon) {
      TypeRead(strict, typed[1..]);
    }
  }

  lemma {:induction false} UnionRead(strict: bool, ts: seq<Token>)
    requires ParseUnion(strict, ts).Parsed?
    ensures var r := ParseUnion(strict, ts);
            PartRead(strict, r.node, r.rest) && !r.node.Function? && !r.node.Conditional?
            && !At(r.rest, Bar) && !At(r.rest, Ampersand)
    decreases |ts|, 7
  {
    var first := ParseIntersection(strict, ts);
    IntersectionRead(strict, ts);
    if At(first.rest, Bar) {
      MoreUnionRead(strict, first.rest);
      var more := ParseMoreUnion(strict, first.rest);
      PartsJoin(strict, first.node, more.node, more.rest);
      UnionKeeps(strict, Cons(first.node, more.node), more.rest);
    }
  }

  lemma {:induction false} MoreUnionRead(strict: bool, ts: seq<Token>)
    requires ParseMoreUnion(strict, ts).Parsed?
    ensures var r := ParseMoreUnion(strict, ts);
            PartsRead(strict, r.node, r.rest) && !At(r.rest, Bar) && r.node.Cons? == At(ts, Bar)
            && (At(ts, Bar) ==> !At(r.rest, Ampersand))
    decreases |ts|, 6
  {
    if At(ts, Bar) {
      var next := if StartsFunction(ts[1..]) then ParseFunction(strict, ts[1..]) else ParseIntersection(strict, ts[1..]);
      if StartsFunction(ts[1..]) { FunctionRead(strict, ts[1..]); } else { IntersectionRead(strict, ts[1..]); }
      MoreUnionRead(strict, next.rest);
    }
  }

  lemma {:induction false} IntersectionRead(strict: bool, ts: seq<Token>)
    requires ParseIntersection(strict, ts).Parsed?
    ensures var r := ParseIntersection(strict, ts);
            PartRead(strict, r.node, r.rest) && !r.node.Function? && !r.node.Conditional? && !At(r.rest, Ampersand)
    decreases |ts|, 5
  {
    var first := ParseOperator(strict, ts);
    OperatorRead(strict, ts);
    if At(first.rest, Ampersand) {
      MoreIntersectionRead(strict, first.rest);
      var more := ParseMoreIntersection(strict, first.rest);
      PartsJoin(strict, first.node, more.node, more.rest);
      IntersectionKeeps(strict, Cons(first.node, more.node), more.rest);
    }
  }

  lemma {:induction false} MoreIntersectionRead(strict: bool, ts: seq<Token>)
    requires ParseMoreIntersection(strict, ts).Parsed?
    ensures var r := ParseMoreIntersection(strict, ts);
            PartsRead(strict, r.node, r.rest) && !At(r.rest, Ampersand) && r.node.Cons? == At(ts, Ampersand)
    decreases |ts|, 4
  {
    if At(ts, Ampersand) {
      var next := if StartsFunction(ts[1..]) then ParseFunction(strict, ts[1..]) else ParseOperator(strict, ts[1..]);
      if StartsFunction(ts[1..]) { FunctionRead(strict, ts[1..]); } else { OperatorRead(strict, ts[1..]); }
      MoreIntersectionRead(strict, next.rest);
    }
  }

  lemma {:induction false} OperatorRead(strict: bool, ts: seq<Token>)
    requires ParseOperator(strict, ts).Parsed?
    ensures var r := ParseOperator(strict, ts);
            PartRead(strict, r.node, r.rest) && !r.node.Function? && !r.node.Conditional?
    decreases |ts|, 3
  {
    hide ParseInfer, ParsePostfix;
    if ts[0].OperatorKeyword? {
      OperatorRead(strict, ts[1..]);
      var operand := ParseOperator(strict, ts[1..]);
      hide ParseOperator;
      OperatorKeeps(strict, ts[0].op, operand.node, operand.rest);
    } else if ts[0] == InferKeyword {
      InferRead(strict, ts[1..]);
    } else {
      PostfixRead(ts);
    }
  }

  lemma {:induction false} InferRead(strict: bool, ts: seq<Token>)
    requires ParseInfer(strict, ts).Parsed?
    ensures var r := ParseInfer(strict, ts); r.node.Infer? && PartRead(strict, r.node, r.rest)
    decreases |ts|, 2
  {
    hide ParseType;
    if At(ts[1..], ExtendsKeyword) {
      TypeRead(true, ts[2..]);
    }
  }

  predicate PostfixShape(t: Type) {
    Good(t) && !t.Function? && !t.Conditional? && !t.Infer? && !t.Operator? && !t.Union? && !t.Intersection?
  }

  lemma PostfixKeeps(t: Type, i: Type)
    requires PostfixShape(t) && Good(i)
    ensures PostfixShape(CreateArray(t)) && PostfixShape(CreateIndexedAccess(t, i)) && PostfixShape(JSDocNullable(t))
  {
    assert Good(Paren(t));
  }

  lemma {:induction false} PostfixRead(ts: seq<Token>)
    requires ParsePostfix(ts).Parsed?
    ensures PostfixShape(ParsePostfix(ts).node)
    decreases |ts|, 1
  {
    var first := ParseNonArray(ts);
    NonArrayRead(ts);
    PostfixRestRead(first.node, first.rest);
  }

  lemma {:induction false} PostfixRestRead(t: Type, ts: seq<Token>)
    requires PostfixShape(t) && ParsePostfixRest(t, ts).Parsed?
    ensures PostfixShape(ParsePostfixRest(t, ts).node)
    decreases |ts|, 12
  {
    hide ParseType, StartsType, PostfixShape, CreateArray, CreateIndexedAccess;
    PostfixKeeps(t, Opaque(0));
    if At(ts, OpenBracket) && StartsType(ts[1..]) {
      var index := ParseType(false, ts[1..]);
      TypeRead(false, ts[1..]);
      PostfixKeeps(t, index.node);
      PostfixRestRead(CreateIndexedAccess(t, index.node), index.rest[1..]);
    } else if At(ts, OpenBracket) {
      PostfixRestRead(CreateArray(t), ts[2..]);
    } else if At(ts, Question) && !StartsType(ts[1..]) {
      PostfixRestRead(JSDocNullable(t), ts[1..]);
    }
  }

  lemma {:induction false} NonArrayRead(ts: seq<Token>)
    requires ParseNonArray(ts).Parsed?
    ensures PostfixShape(ParseNonArray(ts).node)
    decreases |ts|, 0
  {
    hide ParseArgs, ParseElements, ParseType, TypeArguments;
    match ts[0]
    case NameToken(_) => ArgsRead(ts[1..]);
    case TypeOfKeyword => ArgsRead(ts[2..]);
    case OpenBracket => ElementsRead(ts[1..]);
    case OpenParen => TypeRead(false, ts[1..]);
    case _ =>
  }

  lemma {:induction false} ArgsRead(ts: seq<Token>)
    requires ParseArgs(ts).Parsed?
    ensures GoodList(ParseArgs(ts).node) && GoodList(TypeArguments(ParseArgs(ts).node))
    decreases |ts|, 12
  {
    hide ParseTypes;
    if At(ts, LessThan) {
      TypesRead(ts[1..]);
    }
  }

  lemma {:induction false} TypesRead(ts: seq<Token>)
    requires ParseTypes(ts).Parsed?
    ensures GoodList(ParseTypes(ts).node)
    decreases |ts|, 12
  {
    if StartsType(ts) {
      var t := ParseType(false, ts);
      TypeRead(false, ts);
      if At(t.rest, Comma) {
        TypesRead(t.rest[1..]);
      }
    }
  }

  lemma OptionalKeeps(t: Type)
    requires Good(t)
    ensures t.JSDocNullable? ==> Good(CreateOptional(t.inner))
  {
    if t.JSDocNullable? {
      assert Good(Paren(t.inner));
    }
  }

  lemma {:induction false} ElementTypeRead(ts: seq<Token>)
    requires ParseElementType(ts).Parsed?
    ensures Good(ParseElementType(ts).node)
    decreases |ts|, 12
  {
    if At(ts, DotDotDot) {
      TypeRead(false, ts[1..]);
    } else {
      TypeRead(false, ts);
      OptionalKeeps(ParseType(false, ts).node);
    }
  }

  lemma {:induction false} ElementRead(ts: seq<Token>)
    requires ParseElement(ts).Parsed?
    ensures Good(ParseElement(ts).node)
    decreases |ts|, 13
  {
    if NamesElement(ts) {
      var named := if At(ts, DotDotDot) then ts[1..] else ts;
      ElementTypeRead(if At(named[1..], Question) then named[3..] else named[2..]);
    } else {
      ElementTypeRead(ts);
    }
  }

  lemma {:induction false} ElementsRead(ts: seq<Token>)
    requires ParseElements(ts).Parsed?
    ensures GoodList(ParseElements(ts).node)
    decreases |ts|, 14
  {
    if StartsType(ts) {
      var t := ParseElement(ts);
      ElementRead(ts);
      if At(t.rest, Comma) {
        ElementsRead(t.rest[1..]);
      }
    }
  }

  // ---------- Main results ----------

  /** A type built by the factory is printed and parsed back to itself if and only if it is good. */
  lemma ReadsBackIff(t: Type)
    requires Built(t)
    ensures Good(t) <==> ParseType(false, Print(t)) == Parsed(t, [])
  {
    if Good(t) {
      PrintThenParse(t);
    } else if ParseType(false, Print(t)).Parsed? {
      TypeRead(false, Print(t));
    }
  }
}
