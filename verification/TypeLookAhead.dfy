/**
 * What the parser's look-aheads answer on printed types.
 */
module TypeLookAhead {
  import opened TypeNodes
  import opened TypeParser
  import opened TypeGuards
  import opened Wrappers

  // ---------- Brackets balance ----------

  lemma Step(depth: nat, x: Token, rest: seq<Token>)
    requires depth >= 1
    ensures SkipBrackets(depth, [x] + rest)
            == SkipBrackets(if x == OpenBracket then depth + 1 else if x == CloseBracket then depth - 1 else depth, rest)
  {
    assert ([x] + rest)[1..] == rest;
  }

  lemma {:induction false} Balanced(depth: nat, t: Type, rest: seq<Token>)
    requires depth >= 1
    ensures SkipBrackets(depth, PrintOnto(t, rest)) == SkipBrackets(depth, rest)
    decreases t, 1
  {
    match t
    case Reference(_, args) => BalancedArgs(depth, args, rest);
    case Opaque(_) =>
    case Braces(_) =>
    case Query(name, args) => BalancedArgs(depth, args, rest); Step(depth, NameToken(name), PrintArgsOnto(args, rest));
    case Function(_, _, _, _) => BalancedFunction(depth, t, rest);
    case Array(_) => BalancedPostfix(depth, t, rest);
    case Tuple(elements) => BalancedTuple(depth, t, rest);
    case Union(types) => BalancedList(depth, types, Bar, rest);
    case Intersection(types) => BalancedList(depth, types, Ampersand, rest);
    case Conditional(_, _, _, _) => BalancedConditional(depth, t, rest);
    case Infer(_, _) => BalancedInfer(depth, t, rest);
    case Paren(inner) => Balanced(depth, inner, [CloseParen] + rest); Step(depth, CloseParen, rest);
    case Operator(_, operand) => Balanced(depth, operand, rest);
    case IndexedAccess(_, _) => BalancedPostfix(depth, t, rest);
    case _ => BalancedMember(depth, t, rest);
  }

  lemma {:induction false} BalancedTuple(depth: nat, t: Type, rest: seq<Token>)
    requires depth >= 1 && t.Tuple?
    ensures SkipBrackets(depth, PrintOnto(t, rest)) == SkipBrackets(depth, rest)
    decreases t, 0
  {
    BalancedList(depth + 1, t.elements, Comma, [CloseBracket] + rest);
    Step(depth + 1, CloseBracket, rest);
    Step(depth, OpenBracket, PrintListOnto(t.elements, Comma, [CloseBracket] + rest));
  }

  lemma {:induction false} BalancedPostfix(depth: nat, t: Type, rest: seq<Token>)
    requires depth >= 1 && (t.Array? || t.IndexedAccess?)
    ensures SkipBrackets(depth, PrintOnto(t, rest)) == SkipBrackets(depth, rest)
    decreases t, 0
  {
    var close := [CloseBracket] + rest;
    Step(depth + 1, CloseBracket, rest);
    if t.Array? {
      Balanced(depth, t.element, [OpenBracket] + close);
      Step(depth, OpenBracket, close);
    } else {
      var tail := PrintOnto(t.indexType, close);
      Balanced(depth + 1, t.indexType, close);
      Balanced(depth, t.objectType, [OpenBracket] + tail);
      Step(depth, OpenBracket, tail);
    }
  }

  lemma {:induction false} BalancedMember(depth: nat, t: Type, rest: seq<Token>)
    requires depth >= 1 && !Plain(t)
    ensures SkipBrackets(depth, PrintOnto(t, rest)) == SkipBrackets(depth, rest)
    decreases t, 0
  {
    if t.Optional? || t.JSDocNullable? {
      Balanced(depth, t.inner, [Question] + rest);
      Step(depth, Question, rest);
    } else {
      Balanced(depth, t.inner, rest);
      if t.Named? {
        BalancedNamed(depth, t, rest);
      }
    }
  }

  lemma {:induction false} BalancedConditional(depth: nat, t: Type, rest: seq<Token>)
    requires depth >= 1 && t.Conditional?
    ensures SkipBrackets(depth, PrintOnto(t, rest)) == SkipBrackets(depth, rest)
    decreases t, 0
  {
    var Conditional(c, e, a, b) := t;
    Balanced(depth, b, rest);
    Step(depth, Colon, PrintOnto(b, rest));
    var tail3 := [Colon] + PrintOnto(b, rest);
    Balanced(depth, a, tail3);
    Step(depth, Question, PrintOnto(a, tail3));
    var tail2 := [Question] + PrintOnto(a, tail3);
    Balanced(depth, e, tail2);
    Step(depth, ExtendsKeyword, PrintOnto(e, tail2));
    Balanced(depth, c, [ExtendsKeyword] + PrintOnto(e, tail2));
  }

  lemma {:induction false} BalancedInfer(depth: nat, t: Type, rest: seq<Token>)
    requires depth >= 1 && t.Infer?
    ensures SkipBrackets(depth, PrintOnto(t, rest)) == SkipBrackets(depth, rest)
    decreases t, 0
  {
    var tail := if t.constraint.Some? then [ExtendsKeyword] + PrintOnto(t.constraint.value, rest) else rest;
    if t.constraint.Some? {
      Balanced(depth, t.constraint.value, rest);
      Step(depth, ExtendsKeyword, PrintOnto(t.constraint.value, rest));
    }
    Step(depth, NameToken(t.name), tail);
    Step(depth, InferKeyword, [NameToken(t.name)] + tail);
  }

  lemma BalancedNamed(depth: nat, t: Type, rest: seq<Token>)
    requires depth >= 1 && t.Named?
    ensures SkipBrackets(depth, PrintOnto(t, rest)) == SkipBrackets(depth, PrintOnto(t.inner, rest))
  {
    var tail := [Colon] + PrintOnto(t.inner, rest);
    assert SkipBrackets(depth, tail) == SkipBrackets(depth, PrintOnto(t.inner, rest));
    var tail2 := Flag(t.question, Question, tail);
    assert SkipBrackets(depth, tail2) == SkipBrackets(depth, tail);
    assert SkipBrackets(depth, [NameToken(t.name)] + tail2) == SkipBrackets(depth, tail2);
  }

  lemma {:induction false} BalancedFunction(depth: nat, t: Type, rest: seq<Token>)
    requires depth >= 1 && t.Function?
    ensures SkipBrackets(depth, PrintOnto(t, rest)) == SkipBrackets(depth, rest)
    decreases t, 0
  {
    Balanced(depth, t.ret, rest);
    var tail2 := [CloseParen] + ([Arrow] + PrintOnto(t.ret, rest));
    assert SkipBrackets(depth, tail2) == SkipBrackets(depth, rest);
    BalancedParams(depth, t.params, tail2);
    var tail := [OpenParen] + PrintParamsOnto(t.params, tail2);
    assert SkipBrackets(depth, tail) == SkipBrackets(depth, rest);
    BalancedTypeParams(depth, t.typeParams, tail);
    BalancedPrefix(depth, t.kind, PrintTypeParamsOnto(t.typeParams, tail));
  }

  lemma BalancedPrefix(depth: nat, kind: SignatureKind, rest: seq<Token>)
    requires depth >= 1
    ensures SkipBrackets(depth, SignaturePrefix(kind) + rest) == SkipBrackets(depth, rest)
  {
    match kind
    case Call => assert [] + rest == rest;
    case Construct =>
    case AbstractConstruct =>
      assert [AbstractKeyword, NewKeyword] + rest == [AbstractKeyword] + ([NewKeyword] + rest);
      assert SkipBrackets(depth, [NewKeyword] + rest) == SkipBrackets(depth, rest);
  }

  lemma {:induction false} BalancedList(depth: nat, ts: List<Type>, separator: Token, rest: seq<Token>)
    requires depth >= 1 && separator != OpenBracket && separator != CloseBracket
    ensures SkipBrackets(depth, PrintListOnto(ts, separator, rest)) == SkipBrackets(depth, rest)
    decreases ts, 0
  {
    match ts
    case Nil =>
    case Cons(t, Nil) => Balanced(depth, t, rest);
    case Cons(t, tail) =>
      BalancedList(depth, tail, separator, rest);
      Balanced(depth, t, [separator] + PrintListOnto(tail, separator, rest));
  }

  lemma {:induction false} BalancedArgs(depth: nat, args: List<Type>, rest: seq<Token>)
    requires depth >= 1
    ensures SkipBrackets(depth, PrintArgsOnto(args, rest)) == SkipBrackets(depth, rest)
    decreases args, 1
  {
    if args.Cons? {
      BalancedList(depth, args, Comma, [GreaterThan] + rest);
    }
  }

  lemma {:induction false} BalancedParams(depth: nat, ps: List<Param>, rest: seq<Token>)
    requires depth >= 1
    ensures SkipBrackets(depth, PrintParamsOnto(ps, rest)) == SkipBrackets(depth, rest)
    decreases ps
  {
    match ps
    case Nil =>
    case Cons(p, Nil) => BalancedParam(depth, p, rest);
    case Cons(p, tail) =>
      BalancedParams(depth, tail, rest);
      BalancedParam(depth, p, [Comma] + PrintParamsOnto(tail, rest));
  }

  lemma {:induction false} BalancedParam(depth: nat, p: Param, rest: seq<Token>)
    requires depth >= 1
    ensures SkipBrackets(depth, PrintParamOnto(p, rest)) == SkipBrackets(depth, rest)
    decreases p
  {
    if p.annotation.Some? {
      Balanced(depth, p.annotation.value, rest);
    }
    var tail := if p.annotation.Some? then [Colon] + PrintOnto(p.annotation.value, rest) else rest;
    assert SkipBrackets(depth, tail) == SkipBrackets(depth, rest);
    var tail2 := Flag(p.question, Question, tail);
    assert SkipBrackets(depth, tail2) == SkipBrackets(depth, tail);
    assert SkipBrackets(depth, [NameToken(p.name)] + tail2) == SkipBrackets(depth, tail2);
  }

  lemma {:induction false} BalancedNames(depth: nat, names: List<nat>, rest: seq<Token>)
    requires depth >= 1
    ensures SkipBrackets(depth, PrintNamesOnto(names, rest)) == SkipBrackets(depth, rest)
  {
    match names
    case Nil =>
    case Cons(n, Nil) =>
    case Cons(n, tail) =>
      BalancedNames(depth, tail, rest);
      var more := PrintNamesOnto(tail, rest);
      assert SkipBrackets(depth, [Comma] + more) == SkipBrackets(depth, more);
  }

  lemma BalancedTypeParams(depth: nat, names: List<nat>, rest: seq<Token>)
    requires depth >= 1
    ensures SkipBrackets(depth, PrintTypeParamsOnto(names, rest)) == SkipBrackets(depth, rest)
  {
    if names.Cons? {
      BalancedNames(depth, names, [GreaterThan] + rest);
    }
  }

  // ---------- First tokens ----------

  /** A token that a type can begin with. */
  predicate Begins(ts: seq<Token>) {
    ts != [] && (ts[0].NameToken? || ts[0].OpaqueToken? || ts[0].BracesToken? || ts[0] == OpenParen
                 || ts[0] == OpenBracket || ts[0] == LessThan || ts[0] == InferKeyword || ts[0] == TypeOfKeyword
                 || ts[0] == NewKeyword || ts[0] == AbstractKeyword || ts[0].OperatorKeyword?)
  }

  /** The node a type begins with, when printing it starts by printing another type. */
  function Leftmost(t: Type): Option<Type> {
    match t
    case Array(e) => Some(e)
    case IndexedAccess(o, _) => Some(o)
    case Conditional(c, _, _, _) => Some(c)
    case Union(Cons(h, _)) => Some(h)
    case Intersection(Cons(h, _)) => Some(h)
    case _ => None
  }

  /** The tokens between the leftmost node and `rest`. */
  function AfterLeftmost(t: Type, rest: seq<Token>): (r: seq<Token>)
    requires Good(t) && Leftmost(t).Some?
    ensures r != [] && (r[0] == OpenBracket || r[0] == ExtendsKeyword || r[0] == Bar || r[0] == Ampersand)
  {
    match t
    case Array(e) => [OpenBracket] + ([CloseBracket] + rest)
    case IndexedAccess(_, i) => [OpenBracket] + PrintOnto(i, [CloseBracket] + rest)
    case Conditional(_, e, a, b) =>
      [ExtendsKeyword] + PrintOnto(e, [Question] + PrintOnto(a, [Colon] + PrintOnto(b, rest)))
    case Union(Cons(_, tail)) => [Bar] + PrintListOnto(tail, Bar, rest)
    case Intersection(Cons(_, tail)) => [Ampersand] + PrintListOnto(tail, Ampersand, rest)
  }

  lemma LeftmostFirst(t: Type, rest: seq<Token>)
    requires Built(t) && Good(t) && Leftmost(t).Some?
    ensures var h := Leftmost(t).value;
            && Built(h) && Good(h) && !h.Function? && h < t
            && PrintOnto(t, rest) == PrintOnto(h, AfterLeftmost(t, rest))
  {
  }

  lemma {:induction false} TypeBegins(t: Type, rest: seq<Token>)
    requires Built(t) && Good(t)
    ensures Begins(PrintOnto(t, rest))
    decreases t
  {
    if Leftmost(t).Some? {
      LeftmostFirst(t, rest);
      TypeBegins(Leftmost(t).value, AfterLeftmost(t, rest));
    }
  }

  lemma {:induction false} TypeStarts(t: Type, rest: seq<Token>)
    requires Built(t) && Good(t)
    ensures StartsType(PrintOnto(t, rest))
    decreases t
  {
    TypeBegins(t, rest);
    if Leftmost(t).Some? {
      LeftmostFirst(t, rest);
      TypeStarts(Leftmost(t).value, AfterLeftmost(t, rest));
    } else if t.Paren? {
      TypeStarts(t.inner, [CloseParen] + rest);
    } else if t.Function? && t.kind == Call && t.typeParams.Nil? {
      var tail := [CloseParen] + ([Arrow] + PrintOnto(t.ret, rest));
      assert PrintOnto(t, rest) == [OpenParen] + PrintParamsOnto(t.params, tail);
      ParamsStart(t.params, tail);
    }
  }

  /** A parameter list begins with a name, `...`, or whatever follows it when it is empty. */
  lemma ParamsStart(ps: List<Param>, rest: seq<Token>)
    ensures var ts := PrintParamsOnto(ps, rest);
            if ps.Nil? then ts == rest else ts != [] && (ts[0].NameToken? || ts[0] == DotDotDot)
  {
  }

  // ---------- Function or parenthesis ----------

  lemma {:induction false} NotParameter(t: Type, rest: seq<Token>)
    requires Built(t) && Good(t) && !MarksParameter(rest)
    ensures !LooksLikeParameter(PrintOnto(t, rest))
    decreases t
  {
    if Leftmost(t).Some? {
      LeftmostFirst(t, rest);
      NotParameter(Leftmost(t).value, AfterLeftmost(t, rest));
    } else if t.Operator? {
      NotParameter(t.operand, rest);
      OperatorIsNoParameter(t, rest);
    } else if t.Tuple? {
      TupleIsNoParameter(t, rest);
    } else if t.Function? {
      FunctionIsNoParameter(t, rest);
    } else {
      SimpleIsNoParameter(t, rest);
    }
  }

  lemma OperatorIsNoParameter(t: Type, rest: seq<Token>)
    requires t.Operator? && Built(t) && Good(t) && !LooksLikeParameter(PrintOnto(t.operand, rest))
    ensures !LooksLikeParameter(PrintOnto(t, rest))
  {
    var ts := PrintOnto(t, rest);
    assert ts[1..] == PrintOnto(t.operand, rest);
    TypeBegins(t.operand, rest);
  }

  lemma TupleIsNoParameter(t: Type, rest: seq<Token>)
    requires t.Tuple? && !MarksParameter(rest)
    ensures !LooksLikeParameter(PrintOnto(t, rest))
  {
    var ts := PrintOnto(t, rest);
    var tail := [CloseBracket] + rest;
    BalancedList(1, t.elements, Comma, tail);
    Step(1, CloseBracket, rest);
    assert ts[1..] == PrintListOnto(t.elements, Comma, tail);
    assert SkipParameterStart(ts) == SkipBrackets(1, ts[1..]);
  }

  lemma SimpleIsNoParameter(t: Type, rest: seq<Token>)
    requires t.Reference? || t.Opaque? || t.Braces? || t.Query? || t.Infer? || t.Paren?
    requires !MarksParameter(rest)
    ensures !LooksLikeParameter(PrintOnto(t, rest))
  {
    var ts := PrintOnto(t, rest);
    assert SkipModifiers(ts) == ts;
    if t.Reference? {
      assert ts[1..] == PrintArgsOnto(t.args, rest);
    } else if t.Braces? {
      assert ts[1..] == rest;
    } else if t.Infer? {
      assert ts[1].NameToken?;
    }
  }

  lemma FunctionIsNoParameter(t: Type, rest: seq<Token>)
    requires t.Function?
    ensures SkipParameterStart(PrintOnto(t, rest)).None?
  {
    var ts := PrintOnto(t, rest);
    if t.kind.AbstractConstruct? {
      assert ts[0] == AbstractKeyword && ts[1] == NewKeyword;
      assert SkipModifiers(ts[1..]) == ts[1..];
    }
  }

  lemma FunctionStarts(t: Type, rest: seq<Token>)
    requires t.Function?
    ensures StartsFunction(PrintOnto(t, rest))
  {
    var ts := PrintOnto(t, rest);
    if t.kind.AbstractConstruct? {
      assert ts[0] == AbstractKeyword && ts[1] == NewKeyword;
    } else if t.kind.Call? && t.typeParams.Nil? {
      var tail2 := [Arrow] + PrintOnto(t.ret, rest);
      var tail := [CloseParen] + tail2;
      var inside := PrintParamsOnto(t.params, tail);
      assert ts == [OpenParen] + inside;
      assert ts[1..] == inside;
      assert tail[1..] == tail2;
      if t.params.Cons? {
        FirstParamMarks(t.params.head,
                        if t.params.tail.Nil? then tail else [Comma] + PrintParamsOnto(t.params.tail, tail));
      }
    }
  }

  lemma FirstParamMarks(p: Param, rest: seq<Token>)
    requires MarksParameter(rest)
    ensures UnambiguousFunction(PrintParamOnto(p, rest))
  {
    var tail := if p.annotation.Some? then [Colon] + PrintOnto(p.annotation.value, rest) else rest;
    var tail2 := Flag(p.question, Question, tail);
    assert MarksParameter(tail2);
    assert ([NameToken(p.name)] + tail2)[1..] == tail2;
  }

  /** Only function and constructor types are taken for one. */
  lemma {:induction false} StartsFunctionIff(t: Type, rest: seq<Token>)
    requires Built(t) && Good(t) && !At(rest, Arrow)
    ensures StartsFunction(PrintOnto(t, rest)) <==> t.Function?
    decreases t
  {
    if t.Function? {
      FunctionStarts(t, rest);
    } else if Leftmost(t).Some? {
      LeftmostFirst(t, rest);
      StartsFunctionIff(Leftmost(t).value, AfterLeftmost(t, rest));
    } else if t.Paren? {
      ParenIsNoFunction(t, rest);
    } else {
      FirstTokenKind(t, rest);
    }
  }

  lemma ParenIsNoFunction(t: Type, rest: seq<Token>)
    requires t.Paren? && Built(t) && Good(t) && !At(rest, Arrow)
    ensures !StartsFunction(PrintOnto(t, rest))
  {
    var inside := PrintOnto(t.inner, [CloseParen] + rest);
    assert ([OpenParen] + inside)[1..] == inside;
    InsideIsNoParameter(t.inner, rest);
  }

  lemma InsideIsNoParameter(t: Type, rest: seq<Token>)
    requires Built(t) && Good(t) && !At(rest, Arrow)
    ensures !UnambiguousFunction(PrintOnto(t, [CloseParen] + rest))
  {
    var tail := [CloseParen] + rest;
    assert tail[1..] == rest;
    TypeBegins(t, tail);
    NotParameter(t, tail);
  }

  /** Types that do not begin with another type begin with a token of their own. */
  lemma FirstTokenKind(t: Type, rest: seq<Token>)
    requires Built(t) && Good(t) && Leftmost(t).None? && !t.Function? && !t.Paren?
    ensures var ts := PrintOnto(t, rest);
            ts != [] && ts[0] != LessThan && ts[0] != NewKeyword && ts[0] != OpenParen && ts[0] != AbstractKeyword
  {
  }

  // ---------- Tuple members ----------

  predicate MarksName(ts: seq<Token>) {
    At(ts, Colon) || (At(ts, Question) && At(ts[1..], Colon))
  }

  lemma {:induction false} NotNamed(t: Type, rest: seq<Token>)
    requires Built(t) && Good(t) && !MarksName(rest)
    ensures !NamesElement(PrintOnto(t, rest))
    decreases t
  {
    if Leftmost(t).Some? {
      LeftmostFirst(t, rest);
      NotNamed(Leftmost(t).value, AfterLeftmost(t, rest));
    } else if t.Operator? {
      TypeBegins(t.operand, rest);
      WordIsNotNamed(OperatorKeyword(t.op), PrintOnto(t.operand, rest));
    } else if t.Reference? {
      WordIsNotNamed(NameToken(t.name), PrintArgsOnto(t.args, rest));
    } else if t.Opaque? {
      WordIsNotNamed(OpaqueToken(t.id), rest);
    } else if t.Function? {
      FunctionIsNotNamed(t, rest);
    } else {
      OtherIsNotNamed(t, rest);
    }
  }

  lemma OtherIsNotNamed(t: Type, rest: seq<Token>)
    requires t.Braces? || t.Query? || t.Tuple? || t.Infer? || t.Paren?
    ensures !NamesElement(PrintOnto(t, rest))
  {
  }

  lemma WordIsNotNamed(word: Token, rest: seq<Token>)
    requires word != DotDotDot && !MarksName(rest)
    ensures !NamesElement([word] + rest)
  {
    var ts := [word] + rest;
    assert ts[1..] == rest;
    assert rest != [] ==> ts[2..] == rest[1..];
  }

  lemma FunctionIsNotNamed(t: Type, rest: seq<Token>)
    requires t.Function?
    ensures !NamesElement(PrintOnto(t, rest))
  {
    var ts := PrintOnto(t, rest);
    if t.kind.AbstractConstruct? {
      assert ts[0] == AbstractKeyword && ts[1] == NewKeyword;
    } else if t.kind.Construct? {
      assert ts[1] == LessThan || ts[1] == OpenParen;
    }
  }
}
