/**
 * The parser read backwards: its result is what the factory makes of a tree whose text is exactly
 * the tokens read, but for trailing commas. So a factory type comes back up to parentheses only
 * when it comes back as it is.
 */
module TypeSource {
  import opened TypeNodes
  import opened TypeParser
  import opened TypeGuards
  import opened TypeRoundTrip
  import opened TypeConverse
  import opened TypeFactory
  import opened TypeUnique
  import opened Wrappers

  // ---------- Trailing commas ----------

  predicate Closes(t: Token) {
    t.CloseParen? || t.CloseBracket? || t.GreaterThan?
  }

  /** Without the commas in front of closing tokens, which the parser allows and the printer does not write. */
  function Trim(ts: seq<Token>): seq<Token> {
    if ts == [] then []
    else if |ts| > 1 && ts[0].Comma? && Closes(ts[1]) then Trim(ts[1..])
    else [ts[0]] + Trim(ts[1..])
  }

  /** Where nothing is lost in the count of tokens, there was no such comma. */
  lemma {:induction false} TrimLosesCommas(depth: nat, ts: seq<Token>)
    requires depth > |ts|
    ensures Inside(depth, Trim(ts)) <= Inside(depth, ts)
    ensures Inside(depth, Trim(ts)) == Inside(depth, ts) ==> Trim(ts) == ts
    decreases |ts|
  {
    if ts != [] {
      var d := if ts[0] == OpenParen then depth + 1 else if ts[0] == CloseParen then depth - 1 else depth;
      TrimLosesCommas(d, ts[1..]);
      InsideStep(depth, ts[0], Trim(ts[1..]));
    }
  }

  // ---------- Every level ----------

  /** The factory makes `node` of `raw`, whose text is what stands in `text` in front of `rest`. */
  predicate Source(raw: Type, text: seq<Token>, node: Type, rest: seq<Token>) {
    PrintOnto(raw, rest) == text && Rebuild(raw) == node
  }

  predicate ListSource(raws: List<Type>, separator: Token, text: seq<Token>, nodes: List<Type>, rest: seq<Token>) {
    PrintListOnto(raws, separator, rest) == text && RebuildList(raws) == nodes
  }

  /** The members of a union or intersection behind the first, each with its separator in front. */
  predicate MoreSource(raws: List<Type>, separator: Token, text: seq<Token>, nodes: List<Type>, rest: seq<Token>) {
    text == (if raws.Nil? then rest else [separator] + PrintListOnto(raws, separator, rest))
    && RebuildList(raws) == nodes
  }

  lemma JoinSource(raw: Type, raws: List<Type>, separator: Token, ts: seq<Token>, node: Type, tail: seq<Token>,
                   nodes: List<Type>, rest: seq<Token>)
    requires Source(raw, ts, node, tail) && MoreSource(raws, separator, tail, nodes, rest)
    ensures ListSource(Cons(raw, raws), separator, ts, Cons(node, nodes), rest)
  {
  }

  lemma Uncons(ts: seq<Token>)
    requires ts != []
    ensures ts == [ts[0]] + ts[1..]
    ensures Trim(ts) == if |ts| > 1 && ts[0].Comma? && Closes(ts[1]) then Trim(ts[1..]) else [ts[0]] + Trim(ts[1..])
  {
  }

  /** Whatever the parser returns is the factory's form of a tree with exactly the text it has read. */
  lemma {:induction false} TypeSource(strict: bool, ts: seq<Token>) returns (raw: Type)
    requires ParseType(strict, ts).Parsed?
    ensures Source(raw, Trim(ts), ParseType(strict, ts).node, Trim(ParseType(strict, ts).rest))
    decreases |ts|, 9
  {
    hide Source;
    if StartsFunction(ts) {
      raw := FunctionSource(strict, ts);
    } else {
      var check := ParseUnion(strict, ts);
      raw := UnionSource(strict, ts);
      if !strict && At(check.rest, ExtendsKeyword) {
        raw := ConditionalSource(ts, raw, check.node, check.rest);
      }
    }
  }

  lemma JoinConditional(ts: seq<Token>, c: Type, check: Type, tail: seq<Token>, e: Type, bound: Type, tail2: seq<Token>,
                        a: Type, whenTrue: Type, tail3: seq<Token>, b: Type, whenFalse: Type, rest: seq<Token>)
    requires Source(c, ts, check, [ExtendsKeyword] + tail) && Source(e, tail, bound, [Question] + tail2)
    requires Source(a, tail2, whenTrue, [Colon] + tail3) && Source(b, tail3, whenFalse, rest)
    ensures Source(Conditional(c, e, a, b), ts, CreateConditional(check, bound, whenTrue, whenFalse), rest)
  {
  }

  lemma {:induction false} ConditionalSource(ts: seq<Token>, raw: Type, check: Type, tail: seq<Token>) returns (r: Type)
    requires Source(raw, Trim(ts), check, Trim(tail)) && At(tail, ExtendsKeyword)
    requires var bound := ParseType(true, tail[1..]);
             bound.Parsed? && At(bound.rest, Question)
             && var whenTrue := ParseType(false, bound.rest[1..]);
                whenTrue.Parsed? && At(whenTrue.rest, Colon) && ParseType(false, whenTrue.rest[1..]).Parsed?
    ensures var bound := ParseType(true, tail[1..]);
            var whenTrue := ParseType(false, bound.rest[1..]);
            var whenFalse := ParseType(false, whenTrue.rest[1..]);
            Source(r, Trim(ts), CreateConditional(check, bound.node, whenTrue.node, whenFalse.node), Trim(whenFalse.rest))
    decreases |tail|, 10
  {
    hide ParseType, PrintOnto, Rebuild, CreateConditional, Trim;
    var bound := ParseType(true, tail[1..]);
    Uncons(tail);
    var e := TypeSource(true, tail[1..]);
    var whenTrue := ParseType(false, bound.rest[1..]);
    Uncons(bound.rest);
    var a := TypeSource(false, bound.rest[1..]);
    var whenFalse := ParseType(false, whenTrue.rest[1..]);
    Uncons(whenTrue.rest);
    var b := TypeSource(false, whenTrue.rest[1..]);
    r := Conditional(raw, e, a, b);
    JoinConditional(Trim(ts), raw, check, Trim(tail[1..]), e, bound.node, Trim(bound.rest[1..]),
                    a, whenTrue.node, Trim(whenTrue.rest[1..]), b, whenFalse.node, Trim(whenFalse.rest));
  }

  lemma TwoFirst(a: Token, b: Token, ts: seq<Token>)
    ensures [a] + ([b] + ts) == [a, b] + ts
  {
  }

  lemma PrefixSource(kind: SignatureKind, ts: seq<Token>)
    requires match kind
             case Call => true
             case Construct => At(ts, NewKeyword)
             case AbstractConstruct => At(ts, AbstractKeyword) && At(ts[1..], NewKeyword)
    ensures var n := |SignaturePrefix(kind)|;
            n <= |ts| && Trim(ts) == SignaturePrefix(kind) + Trim(ts[n..])
  {
    hide Trim;
    match kind
    case Call => assert ts[0..] == ts && [] + Trim(ts) == Trim(ts);
    case Construct => Uncons(ts);
    case AbstractConstruct =>
      var tail := ts[1..];
      assert tail[1..] == ts[2..];
      Uncons(ts);
      Uncons(tail);
      TwoFirst(AbstractKeyword, NewKeyword, Trim(ts[2..]));
  }

  lemma JoinFunction(kind: SignatureKind, names: List<nat>, ps: List<Param>, params: List<Param>, r: Type, ret: Type,
                     ts: seq<Token>, tail: seq<Token>, tail2: seq<Token>, rest: seq<Token>)
    requires ts == SignaturePrefix(kind) + PrintTypeParamsOnto(names, [OpenParen] + tail)
    requires tail == PrintParamsOnto(ps, [CloseParen] + ([Arrow] + tail2)) && RebuildParams(ps) == params
    requires Source(r, tail2, ret, rest)
    ensures Source(Function(kind, names, ps, r), ts, Function(kind, names, params, ret), rest)
  {
  }

  lemma {:induction false} FunctionSource(strict: bool, ts: seq<Token>) returns (raw: Type)
    requires StartsFunction(ts) && ParseFunction(strict, ts).Parsed?
    ensures Source(raw, Trim(ts), ParseFunction(strict, ts).node, Trim(ParseFunction(strict, ts).rest))
    decreases |ts|, 8
  {
    hide ParseType, ParseParams, ParseTypeParams, UnambiguousFunction, Source, PrintOnto, Trim;
    hide PrintTypeParamsOnto, PrintParamsOnto, RebuildParams;
    var kind := if At(ts, AbstractKeyword) then AbstractConstruct else if At(ts, NewKeyword) then Construct else Call;
    var named := ts[|SignaturePrefix(kind)|..];
    PrefixSource(kind, ts);
    hide SignaturePrefix;
    var typeParams := ParseTypeParams(named);
    TypeParamsSource(named);
    Uncons(typeParams.rest);
    var params := ParseParams(strict, typeParams.rest[1..]);
    var ps := ParamsSource(strict, typeParams.rest[1..]);
    Uncons(params.rest);
    Uncons(params.rest[1..]);
    assert params.rest[1..][1..] == params.rest[2..];
    var ret := ParseType(false, params.rest[2..]);
    var r := TypeSource(false, params.rest[2..]);
    raw := Function(kind, typeParams.node, ps, r);
    JoinFunction(kind, typeParams.node, ps, params.node, r, ret.node,
                 Trim(ts), Trim(typeParams.rest[1..]), Trim(params.rest[2..]), Trim(ret.rest));
  }

  lemma TypeParamsSource(ts: seq<Token>)
    requires ParseTypeParams(ts).Parsed?
    ensures var r := ParseTypeParams(ts); PrintTypeParamsOnto(r.node, Trim(r.rest)) == Trim(ts)
  {
    if At(ts, LessThan) {
      var names := ParseNames(ts[1..]);
      NamesSource(ts[1..]);
      Uncons(ts);
      Uncons(names.rest);
    }
  }

  lemma {:induction false} NamesSource(ts: seq<Token>)
    requires ParseNames(ts).Parsed? && At(ParseNames(ts).rest, GreaterThan)
    ensures var r := ParseNames(ts); PrintNamesOnto(r.node, Trim(r.rest)) == Trim(ts)
    decreases |ts|
  {
    if ts != [] && ts[0].NameToken? {
      Uncons(ts);
      if At(ts[1..], Comma) {
        Uncons(ts[1..]);
        NamesSource(ts[2..]);
      }
    }
  }

  lemma NameSource(dots: bool, question: bool, ts: seq<Token>) returns (name: nat, typed: seq<Token>)
    requires dots == At(ts, DotDotDot)
    requires var named := if dots then ts[1..] else ts;
             named != [] && named[0].NameToken? && question == At(named[1..], Question)
    ensures var named := if dots then ts[1..] else ts;
            name == named[0].id && typed == if question then named[2..] else named[1..]
    ensures Trim(ts) == Flag(dots, DotDotDot, [NameToken(name)] + Flag(question, Question, Trim(typed)))
  {
    var named := if dots then ts[1..] else ts;
    name, typed := named[0].id, if question then named[2..] else named[1..];
    Uncons(ts);
    Uncons(named);
    if question {
      Uncons(named[1..]);
      assert named[1..][1..] == typed;
    }
  }

  lemma {:induction false} ParamSource(strict: bool, ts: seq<Token>) returns (raw: Param)
    requires ParseParam(strict, ts).Parsed?
    ensures var r := ParseParam(strict, ts);
            PrintParamOnto(raw, Trim(r.rest)) == Trim(ts) && RebuildParam(raw) == r.node
    decreases |ts|, 10
  {
    hide ParseType, Trim;
    var dots := At(ts, DotDotDot);
    var question := At((if dots then ts[1..] else ts)[1..], Question);
    var name, typed := NameSource(dots, question, ts);
    raw := Param(dots, name, question, None);
    if At(typed, Colon) {
      Uncons(typed);
      var annotation := TypeSource(strict, typed[1..]);
      raw := Param(dots, name, question, Some(annotation));
    }
  }

  lemma {:induction false} ParamsSource(strict: bool, ts: seq<Token>) returns (raws: List<Param>)
    requires ParseParams(strict, ts).Parsed? && At(ParseParams(strict, ts).rest, CloseParen)
    ensures var r := ParseParams(strict, ts);
            PrintParamsOnto(raws, Trim(r.rest)) == Trim(ts) && RebuildParams(raws) == r.node
    decreases |ts|, 11
  {
    hide ParseParam, Trim;
    raws := Nil;
    if ts != [] && (ts[0].NameToken? || ts[0] == DotDotDot) {
      var p := ParseParam(strict, ts);
      var raw := ParamSource(strict, ts);
      if At(p.rest, Comma) {
        Uncons(p.rest);
        raws := ParamsSource(strict, p.rest[1..]);
      }
      raws := Cons(raw, raws);
    }
  }

  lemma {:induction false} UnionSource(strict: bool, ts: seq<Token>) returns (raw: Type)
    requires ParseUnion(strict, ts).Parsed?
    ensures Source(raw, Trim(ts), ParseUnion(strict, ts).node, Trim(ParseUnion(strict, ts).rest))
    decreases |ts|, 7
  {
    hide ParseIntersection, ParseMoreUnion, CreateUnion;
    var first := ParseIntersection(strict, ts);
    raw := IntersectionSource(strict, ts);
    if At(first.rest, Bar) {
      var more := MoreUnionSource(strict, first.rest);
      var tail := ParseMoreUnion(strict, first.rest);
      JoinSource(raw, more, Bar, Trim(ts), first.node, Trim(first.rest), tail.node, Trim(tail.rest));
      raw := Union(Cons(raw, more));
    }
  }

  lemma {:induction false} MoreUnionSource(strict: bool, ts: seq<Token>) returns (raws: List<Type>)
    requires ParseMoreUnion(strict, ts).Parsed?
    ensures MoreSource(raws, Bar, Trim(ts), ParseMoreUnion(strict, ts).node, Trim(ParseMoreUnion(strict, ts).rest))
    ensures At(ts, Bar) ==> raws.Cons?
    decreases |ts|, 6
  {
    hide ParseFunction, ParseIntersection, Trim, StartsFunction;
    raws := Nil;
    if At(ts, Bar) {
      Uncons(ts);
      var raw: Type;
      if StartsFunction(ts[1..]) {
        raw := FunctionSource(strict, ts[1..]);
        raws := MoreUnionSource(strict, ParseFunction(strict, ts[1..]).rest);
      } else {
        raw := IntersectionSource(strict, ts[1..]);
        raws := MoreUnionSource(strict, ParseIntersection(strict, ts[1..]).rest);
      }
      raws := Cons(raw, raws);
    }
  }

  lemma {:induction false} IntersectionSource(strict: bool, ts: seq<Token>) returns (raw: Type)
    requires ParseIntersection(strict, ts).Parsed?
    ensures Source(raw, Trim(ts), ParseIntersection(strict, ts).node, Trim(ParseIntersection(strict, ts).rest))
    decreases |ts|, 5
  {
    hide ParseOperator, ParseMoreIntersection, CreateIntersection;
    var first := ParseOperator(strict, ts);
    raw := OperatorSource(strict, ts);
    if At(first.rest, Ampersand) {
      var more := MoreIntersectionSource(strict, first.rest);
      var tail := ParseMoreIntersection(strict, first.rest);
      JoinSource(raw, more, Ampersand, Trim(ts), first.node, Trim(first.rest), tail.node, Trim(tail.rest));
      raw := Intersection(Cons(raw, more));
    }
  }

  lemma {:induction false} MoreIntersectionSource(strict: bool, ts: seq<Token>) returns (raws: List<Type>)
    requires ParseMoreIntersection(strict, ts).Parsed?
    ensures MoreSource(raws, Ampersand, Trim(ts), ParseMoreIntersection(strict, ts).node, Trim(ParseMoreIntersection(strict, ts).rest))
    ensures At(ts, Ampersand) ==> raws.Cons?
    decreases |ts|, 4
  {
    hide ParseFunction, ParseOperator, Trim, StartsFunction;
    raws := Nil;
    if At(ts, Ampersand) {
      Uncons(ts);
      var raw: Type;
      if StartsFunction(ts[1..]) {
        raw := FunctionSource(strict, ts[1..]);
        raws := MoreIntersectionSource(strict, ParseFunction(strict, ts[1..]).rest);
      } else {
        raw := OperatorSource(strict, ts[1..]);
        raws := MoreIntersectionSource(strict, ParseOperator(strict, ts[1..]).rest);
      }
      raws := Cons(raw, raws);
    }
  }

  lemma {:induction false} OperatorSource(strict: bool, ts: seq<Token>) returns (raw: Type)
    requires ParseOperator(strict, ts).Parsed?
    ensures Source(raw, Trim(ts), ParseOperator(strict, ts).node, Trim(ParseOperator(strict, ts).rest))
    decreases |ts|, 3
  {
    hide ParseInfer, ParsePostfix, CreateOperator;
    Uncons(ts);
    if ts[0].OperatorKeyword? {
      var operand := OperatorSource(strict, ts[1..]);
      raw := Operator(ts[0].op, operand);
    } else if ts[0] == InferKeyword {
      raw := InferSource(strict, ts[1..]);
    } else {
      raw := PostfixSource(ts);
    }
  }

  lemma {:induction false} InferSource(strict: bool, ts: seq<Token>) returns (raw: Type)
    requires ParseInfer(strict, ts).Parsed?
    ensures Source(raw, [InferKeyword] + Trim(ts), ParseInfer(strict, ts).node, Trim(ParseInfer(strict, ts).rest))
    decreases |ts|, 2
  {
    hide ParseType, Trim;
    Uncons(ts);
    raw := Infer(ts[0].id, None);
    if At(ts[1..], ExtendsKeyword) {
      Uncons(ts[1..]);
      var constraint := TypeSource(true, ts[2..]);
      if strict || !At(ParseType(true, ts[2..]).rest, Question) {
        raw := Infer(ts[0].id, Some(constraint));
      }
    }
  }

  lemma {:induction false} PostfixSource(ts: seq<Token>) returns (raw: Type)
    requires ParsePostfix(ts).Parsed?
    ensures Source(raw, Trim(ts), ParsePostfix(ts).node, Trim(ParsePostfix(ts).rest))
    decreases |ts|, 1
  {
    hide ParseNonArray, ParsePostfixRest;
    var first := NonArraySource(ts);
    raw := PostfixRestSource(first, ParseNonArray(ts).rest);
  }

  lemma JoinPostfix(t: Type, i: Type, tail: seq<Token>)
    ensures PrintOnto(Array(t), tail) == PrintOnto(t, [OpenBracket] + ([CloseBracket] + tail))
    ensures PrintOnto(IndexedAccess(t, i), tail) == PrintOnto(t, [OpenBracket] + PrintOnto(i, [CloseBracket] + tail))
    ensures PrintOnto(JSDocNullable(t), tail) == PrintOnto(t, [Question] + tail)
    ensures Rebuild(Array(t)) == CreateArray(Rebuild(t)) && Rebuild(JSDocNullable(t)) == JSDocNullable(Rebuild(t))
    ensures Rebuild(IndexedAccess(t, i)) == CreateIndexedAccess(Rebuild(t), Rebuild(i))
  {
  }

  lemma {:induction false} PostfixRestSource(t: Type, ts: seq<Token>) returns (raw: Type)
    requires ParsePostfixRest(Rebuild(t), ts).Parsed?
    ensures var r := ParsePostfixRest(Rebuild(t), ts); Source(raw, PrintOnto(t, Trim(ts)), r.node, Trim(r.rest))
    decreases |ts|, 12
  {
    hide ParseType, StartsType, CreateArray, CreateIndexedAccess, PrintOnto, Rebuild;
    raw := t;
    if At(ts, OpenBracket) && StartsType(ts[1..]) {
      var index := ParseType(false, ts[1..]);
      Uncons(ts);
      var i := TypeSource(false, ts[1..]);
      Uncons(index.rest);
      JoinPostfix(t, i, Trim(index.rest[1..]));
      raw := PostfixRestSource(IndexedAccess(t, i), index.rest[1..]);
    } else if At(ts, OpenBracket) {
      Uncons(ts);
      Uncons(ts[1..]);
      assert ts[1..][1..] == ts[2..];
      JoinPostfix(t, t, Trim(ts[2..]));
      raw := PostfixRestSource(Array(t), ts[2..]);
    } else if At(ts, Question) && !StartsType(ts[1..]) {
      Uncons(ts);
      JoinPostfix(t, t, Trim(ts[1..]));
      raw := PostfixRestSource(JSDocNullable(t), ts[1..]);
    }
  }

  lemma {:induction false} NonArraySource(ts: seq<Token>) returns (raw: Type)
    requires ParseNonArray(ts).Parsed?
    ensures Source(raw, Trim(ts), ParseNonArray(ts).node, Trim(ParseNonArray(ts).rest))
    decreases |ts|, 0
  {
    hide ParseArgs, ParseElements, ParseType, CreateReference, CreateQuery, Trim;
    Uncons(ts);
    match ts[0]
    case NameToken(name) =>
      var args := ArgsSource(ts[1..]);
      raw := Reference(name, args);
    case OpaqueToken(id) => raw := Opaque(id);
    case BracesToken(id) => raw := Braces(id);
    case TypeOfKeyword =>
      Uncons(ts[1..]);
      var args := ArgsSource(ts[2..]);
      raw := Query(ts[1].id, args);
    case OpenBracket =>
      var elements := ElementsSource(ts[1..]);
      Uncons(ParseElements(ts[1..]).rest);
      raw := Tuple(elements);
    case OpenParen =>
      var inner := TypeSource(false, ts[1..]);
      Uncons(ParseType(false, ts[1..]).rest);
      raw := Paren(inner);
  }

  lemma {:induction false} ArgsSource(ts: seq<Token>) returns (raws: List<Type>)
    requires ParseArgs(ts).Parsed?
    ensures var r := ParseArgs(ts);
            PrintArgsOnto(raws, Trim(r.rest)) == Trim(ts) && RebuildList(raws) == r.node
    decreases |ts|, 12
  {
    hide ParseTypes;
    raws := Nil;
    if At(ts, LessThan) {
      Uncons(ts);
      raws := TypesSource(ts[1..]);
      Uncons(ParseTypes(ts[1..]).rest);
    }
  }

  lemma {:induction false} TypesSource(ts: seq<Token>) returns (raws: List<Type>)
    requires ParseTypes(ts).Parsed? && At(ParseTypes(ts).rest, GreaterThan)
    ensures ListSource(raws, Comma, Trim(ts), ParseTypes(ts).node, Trim(ParseTypes(ts).rest))
    decreases |ts|, 12
  {
    hide ParseType;
    raws := Nil;
    if StartsType(ts) {
      var t := ParseType(false, ts);
      var raw := TypeSource(false, ts);
      if At(t.rest, Comma) {
        Uncons(t.rest);
        raws := TypesSource(t.rest[1..]);
      }
      JoinSource(raw, raws, Comma, Trim(ts), t.node, Trim(t.rest), RebuildList(raws), Trim(ParseTypes(ts).rest));
      raws := Cons(raw, raws);
    }
  }

  lemma {:induction false} ElementTypeSource(ts: seq<Token>) returns (raw: Type)
    requires ParseElementType(ts).Parsed?
    ensures Source(raw, Trim(ts), ParseElementType(ts).node, Trim(ParseElementType(ts).rest))
    decreases |ts|, 12
  {
    hide ParseType, Trim;
    if At(ts, DotDotDot) {
      Uncons(ts);
      var inner := TypeSource(false, ts[1..]);
      raw := Rest(inner);
    } else {
      raw := TypeSource(false, ts);
      if raw.JSDocNullable? {
        raw := Optional(raw.inner);
      }
    }
  }

  lemma {:induction false} NamedSource(ts: seq<Token>) returns (raw: Type)
    requires NamesElement(ts) && ParseElement(ts).Parsed?
    ensures Source(raw, Trim(ts), ParseElement(ts).node, Trim(ParseElement(ts).rest))
    decreases |ts|, 12
  {
    hide ParseElementType, IsWord, Trim;
    var dots := At(ts, DotDotDot);
    var named := if dots then ts[1..] else ts;
    var question := At(named[1..], Question);
    var name, typed := NameSource(dots, question, ts);
    Uncons(typed);
    assert typed[1..] == if question then named[3..] else named[2..];
    var inner := ElementTypeSource(typed[1..]);
    raw := Named(dots, name, question, inner);
  }

  lemma {:induction false} ElementSource(ts: seq<Token>) returns (raw: Type)
    requires ParseElement(ts).Parsed?
    ensures Source(raw, Trim(ts), ParseElement(ts).node, Trim(ParseElement(ts).rest))
    decreases |ts|, 13
  {
    hide ParseElementType, NamesElement;
    if NamesElement(ts) {
      raw := NamedSource(ts);
    } else {
      raw := ElementTypeSource(ts);
    }
  }

  lemma {:induction false} ElementsSource(ts: seq<Token>) returns (raws: List<Type>)
    requires ParseElements(ts).Parsed? && At(ParseElements(ts).rest, CloseBracket)
    ensures ListSource(raws, Comma, Trim(ts), ParseElements(ts).node, Trim(ParseElements(ts).rest))
    decreases |ts|, 14
  {
    hide ParseElement;
    raws := Nil;
    if StartsType(ts) {
      var t := ParseElement(ts);
      var raw := ElementSource(ts);
      if At(t.rest, Comma) {
        Uncons(t.rest);
        raws := ElementsSource(t.rest[1..]);
      }
      JoinSource(raw, raws, Comma, Trim(ts), t.node, Trim(t.rest), RebuildList(raws), Trim(ParseElements(ts).rest));
      raws := Cons(raw, raws);
    }
  }

  // ---------- Main results ----------

  /** Printed and parsed, the tree comes back whole, as it was but for parentheses. */
  predicate Survives(t: Type) {
    var p := ParseType(false, Print(t));
    p.Parsed? && p.rest == [] && Erase(p.node) == Erase(t)
  }

  lemma NothingTrimmed(raw: Type, t: Type)
    requires Print(raw) == Trim(Print(t)) && Erase(raw) == Erase(t)
    ensures Print(raw) == Print(t)
  {
    var depth := |Print(t)| + 1;
    EraseKeepsWeight(raw);
    EraseKeepsWeight(t);
    InsidePrinted(depth, raw, []);
    InsidePrinted(depth, t, []);
    TrimLosesCommas(depth, Print(t));
  }

  /** A type built by the factory survives if and only if it is good. */
  lemma SurvivesIff(t: Type)
    requires Built(t)
    ensures Good(t) <==> Survives(t)
  {
    var p := ParseType(false, Print(t));
    if Good(t) {
      PrintThenParse(t);
    } else if Survives(t) {
      TypeRead(false, Print(t));
      GoodIsSized(p.node);
      var raw := TypeSource(false, Print(t));
      RebuildOnlyAddsParens(raw);
      NothingTrimmed(raw, t);
      SameText(raw, t, [], []);
      BuiltStays(t);
      assert false;
    }
  }

  /** Any type tree, rebuilt by the factory, survives if and only if the rebuilt tree is good. */
  lemma RebuildSurvivesIff(t: Type)
    requires Shaped(t)
    ensures var p := ParseType(false, Print(Rebuild(t)));
            Good(Rebuild(t)) <==> p.Parsed? && p.rest == [] && Erase(p.node) == Erase(t)
  {
    RebuildIsBuilt(t);
    SurvivesIff(Rebuild(t));
  }

  /** A conditional parameter type after `extends`: `c extends (x: a extends b ? d : e) => r ? p : q`. */
  lemma ConditionalParameterExample(c: Type, inner: Type, r: Type, p: Type, q: Type, x: nat)
    requires c.Opaque? && r.Opaque? && p.Opaque? && q.Opaque?
    requires inner.Conditional? && Built(inner)
    ensures var f := Function(Call, Nil, Cons(Param(false, x, false, Some(inner)), Nil), r);
            var t := CreateConditional(c, f, p, q);
            Built(t) && t == Conditional(c, f, p, q) && !Survives(t)
  {
    var params := Cons(Param(false, x, false, Some(inner)), Nil);
    var f := Function(Call, Nil, params, r);
    var t := Conditional(c, f, p, q);
    assert Built(c) && Built(r) && Built(p) && Built(q);
    assert BuiltParams(params) && Built(f) && Built(t);
    assert !BareFreeParams(params);
    SurvivesIff(t);
  }

  /** A constrained `infer` before the last member: `infer u extends a | b` reads as `infer u extends (a | b)`. */
  lemma ConstraintInUnionExample(u: nat, a: Type, b: Type)
    requires a.Opaque? && b.Opaque?
    ensures var t := CreateUnion(Cons(Infer(u, Some(a)), Cons(b, Nil)));
            Built(t) && !Survives(t)
  {
    var i := Infer(u, Some(a));
    var ts := Cons(i, Cons(b, Nil));
    assert MapUnion(Cons(b, Nil)) == Cons(b, Nil);
    assert MapUnion(ts) == ts;
    assert Built(a) && Built(b) && Built(i) && BuiltList(Cons(b, Nil)) && BuiltList(ts);
    assert Built(Union(ts)) && !Members(ts);
    SurvivesIff(Union(ts));
  }
}
