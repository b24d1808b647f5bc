/**
 * The text of a type tells where its parentheses stand: two trees that differ in parentheses only
 * and are printed alike are the same tree. Unions and intersections with fewer than two members
 * are left out, since `(a)` is the text of such a union in parentheses and of one with a
 * parenthesized member.
 */
module TypeUnique {
  import opened TypeNodes
  import opened TypeParser
  import opened TypeGuards
  import opened Wrappers

  // ---------- Trees without parentheses ----------

  /** Every union and intersection has two members. */
  predicate Sized(t: Type)
    decreases t
  {
    match t
    case Reference(_, args) => SizedList(args)
    case Query(_, args) => SizedList(args)
    case Function(_, _, params, ret) => SizedParams(params) && Sized(ret)
    case Array(e) => Sized(e)
    case Tuple(elements) => SizedList(elements)
    case Union(types) => types.Cons? && types.tail.Cons? && SizedList(types)
    case Intersection(types) => types.Cons? && types.tail.Cons? && SizedList(types)
    case Conditional(c, e, a, b) => Sized(c) && Sized(e) && Sized(a) && Sized(b)
    case Infer(_, constraint) => constraint.Some? ==> Sized(constraint.value)
    case Operator(_, operand) => Sized(operand)
    case IndexedAccess(o, i) => Sized(o) && Sized(i)
    case Opaque(_) => true
    case Braces(_) => true
    case _ => Sized(t.inner)
  }

  predicate SizedList(ts: List<Type>)
    decreases ts
  {
    ts.Cons? ==> Sized(ts.head) && SizedList(ts.tail)
  }

  predicate SizedParams(ps: List<Param>)
    decreases ps
  {
    ps.Cons? ==> (ps.head.annotation.Some? ==> Sized(ps.head.annotation.value)) && SizedParams(ps.tail)
  }

  lemma {:induction false} GoodIsSized(t: Type)
    requires Good(t)
    ensures Sized(Erase(t))
    decreases t
  {
    match t
    case Reference(_, args) => GoodListIsSized(args);
    case Query(_, args) => GoodListIsSized(args);
    case Function(_, _, params, ret) => GoodParamsAreSized(params); GoodIsSized(ret);
    case Array(e) => GoodIsSized(e);
    case Tuple(elements) => GoodListIsSized(elements);
    case Union(types) => GoodListIsSized(types);
    case Intersection(types) => GoodListIsSized(types);
    case Conditional(c, e, a, b) =>
      GoodIsSized(c);
      GoodIsSized(e);
      GoodIsSized(a);
      GoodIsSized(b);
    case Infer(_, constraint) => if constraint.Some? { GoodIsSized(constraint.value); }
    case Operator(_, operand) => GoodIsSized(operand);
    case IndexedAccess(o, i) => GoodIsSized(o); GoodIsSized(i);
    case Opaque(_) =>
    case Braces(_) =>
    case _ => GoodIsSized(t.inner);
  }

  lemma {:induction false} GoodListIsSized(ts: List<Type>)
    requires GoodList(ts)
    ensures SizedList(EraseList(ts))
    ensures ts.Cons? && ts.tail.Cons? ==> EraseList(ts).Cons? && EraseList(ts).tail.Cons?
    decreases ts
  {
    if ts.Cons? {
      GoodIsSized(ts.head);
      GoodListIsSized(ts.tail);
    }
  }

  lemma {:induction false} GoodParamsAreSized(ps: List<Param>)
    requires GoodParams(ps)
    ensures SizedParams(EraseParams(ps))
    decreases ps
  {
    if ps.Cons? {
      if ps.head.annotation.Some? {
        GoodIsSized(ps.head.annotation.value);
      }
      GoodParamsAreSized(ps.tail);
    }
  }

  // ---------- Tokens other than parentheses ----------

  /** The tokens other than parentheses in front of the one that closes `depth` open parentheses. */
  function Inside(depth: nat, ts: seq<Token>): nat
    decreases |ts|
  {
    if depth == 0 || ts == [] then 0
    else if ts[0] == OpenParen then Inside(depth + 1, ts[1..])
    else if ts[0] == CloseParen then Inside(depth - 1, ts[1..])
    else 1 + Inside(depth, ts[1..])
  }

  lemma InsideStep(depth: nat, x: Token, rest: seq<Token>)
    requires depth > 0
    ensures Inside(depth, [x] + rest)
            == if x == OpenParen then Inside(depth + 1, rest) else if x == CloseParen then Inside(depth - 1, rest)
               else 1 + Inside(depth, rest)
  {
    assert ([x] + rest)[1..] == rest;
  }

  function Bit(b: bool): nat { if b then 1 else 0 }

  /** The number of tokens of `t` other than parentheses. */
  function Weight(t: Type): nat
    decreases t
  {
    match t
    case Reference(_, args) => 1 + WeightArgs(args)
    case Opaque(_) => 1
    case Braces(_) => 1
    case Query(_, args) => 2 + WeightArgs(args)
    case Function(kind, tps, params, ret) =>
      |SignaturePrefix(kind)| + WeightTypeParams(tps) + WeightParams(params) + 1 + Weight(ret)
    case Array(e) => Weight(e) + 2
    case Tuple(elements) => WeightList(elements) + 2
    case Union(types) => WeightList(types)
    case Intersection(types) => WeightList(types)
    case Conditional(c, e, a, b) => Weight(c) + Weight(e) + Weight(a) + Weight(b) + 3
    case Infer(_, constraint) => if constraint.Some? then 3 + Weight(constraint.value) else 2
    case Paren(inner) => Weight(inner)
    case Operator(_, operand) => 1 + Weight(operand)
    case IndexedAccess(o, i) => Weight(o) + Weight(i) + 2
    case Rest(inner) => 1 + Weight(inner)
    case Optional(inner) => Weight(inner) + 1
    case Named(dots, _, question, inner) => Bit(dots) + Bit(question) + 2 + Weight(inner)
    case JSDocNullable(inner) => Weight(inner) + 1
  }

  function WeightList(ts: List<Type>): nat
    decreases ts, 0
  {
    match ts
    case Nil => 0
    case Cons(t, Nil) => Weight(t)
    case Cons(t, tail) => Weight(t) + 1 + WeightList(tail)
  }

  function WeightArgs(args: List<Type>): nat
    decreases args, 1
  {
    if args.Nil? then 0 else WeightList(args) + 2
  }

  function WeightNames(names: List<nat>): nat {
    match names
    case Nil => 0
    case Cons(_, Nil) => 1
    case Cons(_, tail) => 2 + WeightNames(tail)
  }

  function WeightTypeParams(names: List<nat>): nat {
    if names.Nil? then 0 else WeightNames(names) + 2
  }

  function WeightParam(p: Param): nat
    decreases p
  {
    Bit(p.dots) + 1 + Bit(p.question) + (if p.annotation.Some? then 1 + Weight(p.annotation.value) else 0)
  }

  function WeightParams(ps: List<Param>): nat
    decreases ps
  {
    match ps
    case Nil => 0
    case Cons(p, Nil) => WeightParam(p)
    case Cons(p, tail) => WeightParam(p) + 1 + WeightParams(tail)
  }

  /** The weight does not see parentheses. */
  lemma {:induction false} EraseKeepsWeight(t: Type)
    ensures Weight(Erase(t)) == Weight(t)
    decreases t, 1
  {
    hide Erase, Weight;
    if t.Reference? || t.Query? || t.Tuple? || t.Union? || t.Intersection? || t.Function? {
      EraseKeepsListNode(t);
    } else {
      EraseKeepsOtherNode(t);
    }
  }

  lemma {:induction false} EraseKeepsListNode(t: Type)
    requires t.Reference? || t.Query? || t.Tuple? || t.Union? || t.Intersection? || t.Function?
    ensures Weight(Erase(t)) == Weight(t)
    decreases t, 0
  {
    match t
    case Reference(_, args) => EraseKeepsWeights(args);
    case Query(_, args) => EraseKeepsWeights(args);
    case Tuple(elements) => EraseKeepsWeights(elements);
    case Union(types) => EraseKeepsWeights(types);
    case Intersection(types) => EraseKeepsWeights(types);
    case Function(_, _, params, ret) => EraseKeepsParamWeights(params); EraseKeepsWeight(ret);
  }

  lemma {:induction false} EraseKeepsOtherNode(t: Type)
    requires !t.Reference? && !t.Query? && !t.Tuple? && !t.Union? && !t.Intersection? && !t.Function?
    ensures Weight(Erase(t)) == Weight(t)
    decreases t, 0
  {
    if t.Array? {
      EraseKeepsWeight(t.element);
    } else if t.IndexedAccess? {
      EraseKeepsWeight(t.objectType);
      EraseKeepsWeight(t.indexType);
    } else if t.Conditional? {
      EraseKeepsWeight(t.check);
      EraseKeepsWeight(t.bound);
      EraseKeepsWeight(t.whenTrue);
      EraseKeepsWeight(t.whenFalse);
    } else if t.Infer? {
      if t.constraint.Some? {
        EraseKeepsWeight(t.constraint.value);
      }
    } else if t.Operator? {
      EraseKeepsWeight(t.operand);
    } else if !t.Opaque? && !t.Braces? {
      EraseKeepsWeight(t.inner);
    }
  }

  lemma {:induction false} EraseKeepsWeights(ts: List<Type>)
    ensures WeightList(EraseList(ts)) == WeightList(ts) && WeightArgs(EraseList(ts)) == WeightArgs(ts)
    decreases ts
  {
    if ts.Cons? {
      EraseKeepsWeight(ts.head);
      EraseKeepsWeights(ts.tail);
    }
  }

  lemma {:induction false} EraseKeepsParamWeights(ps: List<Param>)
    ensures WeightParams(EraseParams(ps)) == WeightParams(ps)
    decreases ps
  {
    if ps.Cons? {
      if ps.head.annotation.Some? {
        EraseKeepsWeight(ps.head.annotation.value);
      }
      EraseKeepsParamWeights(ps.tail);
    }
  }

  // ---------- Counting over printed trees ----------

  lemma {:induction false} InsidePrinted(depth: nat, t: Type, rest: seq<Token>)
    requires depth > 0
    ensures Inside(depth, PrintOnto(t, rest)) == Weight(t) + Inside(depth, rest)
    decreases t, 1
  {
    match t
    case Reference(name, args) =>
      InsideArgs(depth, args, rest);
      InsideStep(depth, NameToken(name), PrintArgsOnto(args, rest));
    case Query(name, args) =>
      InsideArgs(depth, args, rest);
      InsideStep(depth, NameToken(name), PrintArgsOnto(args, rest));
      InsideStep(depth, TypeOfKeyword, [NameToken(name)] + PrintArgsOnto(args, rest));
    case Function(_, _, _, _) => InsideFunction(depth, t, rest);
    case Array(_) => InsidePostfix(depth, t, rest);
    case IndexedAccess(_, _) => InsidePostfix(depth, t, rest);
    case Tuple(elements) =>
      InsideStep(depth, CloseBracket, rest);
      InsideList(depth, elements, Comma, [CloseBracket] + rest);
      InsideStep(depth, OpenBracket, PrintListOnto(elements, Comma, [CloseBracket] + rest));
    case Union(types) => InsideList(depth, types, Bar, rest);
    case Intersection(types) => InsideList(depth, types, Ampersand, rest);
    case Conditional(_, _, _, _) => InsideConditional(depth, t, rest);
    case Infer(_, _) => InsideInfer(depth, t, rest);
    case Paren(inner) =>
      InsideStep(depth + 1, CloseParen, rest);
      InsidePrinted(depth + 1, inner, [CloseParen] + rest);
      InsideStep(depth, OpenParen, PrintOnto(inner, [CloseParen] + rest));
    case Operator(op, operand) =>
      InsidePrinted(depth, operand, rest);
      InsideStep(depth, OperatorKeyword(op), PrintOnto(operand, rest));
    case Opaque(id) => InsideStep(depth, OpaqueToken(id), rest);
    case Braces(id) => InsideStep(depth, BracesToken(id), rest);
    case _ => InsideMember(depth, t, rest);
  }

  lemma {:induction false} InsidePostfix(depth: nat, t: Type, rest: seq<Token>)
    requires depth > 0 && (t.Array? || t.IndexedAccess?)
    ensures Inside(depth, PrintOnto(t, rest)) == Weight(t) + Inside(depth, rest)
    decreases t, 0
  {
    var close := [CloseBracket] + rest;
    InsideStep(depth, CloseBracket, rest);
    if t.Array? {
      InsideStep(depth, OpenBracket, close);
      InsidePrinted(depth, t.element, [OpenBracket] + close);
    } else {
      var tail := PrintOnto(t.indexType, close);
      InsidePrinted(depth, t.indexType, close);
      InsideStep(depth, OpenBracket, tail);
      InsidePrinted(depth, t.objectType, [OpenBracket] + tail);
    }
  }

  lemma {:induction false} InsideConditional(depth: nat, t: Type, rest: seq<Token>)
    requires depth > 0 && t.Conditional?
    ensures Inside(depth, PrintOnto(t, rest)) == Weight(t) + Inside(depth, rest)
    decreases t, 0
  {
    var Conditional(c, e, a, b) := t;
    InsidePrinted(depth, b, rest);
    InsideStep(depth, Colon, PrintOnto(b, rest));
    var tail3 := [Colon] + PrintOnto(b, rest);
    InsidePrinted(depth, a, tail3);
    InsideStep(depth, Question, PrintOnto(a, tail3));
    var tail2 := [Question] + PrintOnto(a, tail3);
    InsidePrinted(depth, e, tail2);
    InsideStep(depth, ExtendsKeyword, PrintOnto(e, tail2));
    InsidePrinted(depth, c, [ExtendsKeyword] + PrintOnto(e, tail2));
  }

  lemma {:induction false} InsideInfer(depth: nat, t: Type, rest: seq<Token>)
    requires depth > 0 && t.Infer?
    ensures Inside(depth, PrintOnto(t, rest)) == Weight(t) + Inside(depth, rest)
    decreases t, 0
  {
    var tail := if t.constraint.Some? then [ExtendsKeyword] + PrintOnto(t.constraint.value, rest) else rest;
    if t.constraint.Some? {
      InsidePrinted(depth, t.constraint.value, rest);
      InsideStep(depth, ExtendsKeyword, PrintOnto(t.constraint.value, rest));
    }
    InsideStep(depth, NameToken(t.name), tail);
    InsideStep(depth, InferKeyword, [NameToken(t.name)] + tail);
  }

  lemma InsideFlag(depth: nat, b: bool, x: Token, rest: seq<Token>)
    requires depth > 0 && x != OpenParen && x != CloseParen
    ensures Inside(depth, Flag(b, x, rest)) == Bit(b) + Inside(depth, rest)
  {
    InsideStep(depth, x, rest);
  }

  lemma {:induction false} InsideMember(depth: nat, t: Type, rest: seq<Token>)
    requires depth > 0 && !Plain(t)
    ensures Inside(depth, PrintOnto(t, rest)) == Weight(t) + Inside(depth, rest)
    decreases t, 0
  {
    if t.Optional? || t.JSDocNullable? {
      InsideStep(depth, Question, rest);
      InsidePrinted(depth, t.inner, [Question] + rest);
    } else {
      InsidePrinted(depth, t.inner, rest);
      InsideStep(depth, DotDotDot, PrintOnto(t.inner, rest));
      if t.Named? {
        InsideNamed(depth, t.dots, t.name, t.question, PrintOnto(t.inner, rest));
      }
    }
  }

  lemma InsideNamed(depth: nat, dots: bool, name: nat, question: bool, rest: seq<Token>)
    requires depth > 0
    ensures Inside(depth, Flag(dots, DotDotDot, [NameToken(name)] + Flag(question, Question, [Colon] + rest)))
            == Bit(dots) + Bit(question) + 2 + Inside(depth, rest)
  {
    var tail := Flag(question, Question, [Colon] + rest);
    InsideStep(depth, Colon, rest);
    InsideFlag(depth, question, Question, [Colon] + rest);
    InsideStep(depth, NameToken(name), tail);
    InsideFlag(depth, dots, DotDotDot, [NameToken(name)] + tail);
  }

  lemma {:induction false} InsideFunction(depth: nat, t: Type, rest: seq<Token>)
    requires depth > 0 && t.Function?
    ensures Inside(depth, PrintOnto(t, rest)) == Weight(t) + Inside(depth, rest)
    decreases t, 0
  {
    var ret := [Arrow] + PrintOnto(t.ret, rest);
    InsidePrinted(depth, t.ret, rest);
    InsideStep(depth, Arrow, PrintOnto(t.ret, rest));
    InsideStep(depth + 1, CloseParen, ret);
    InsideParams(depth + 1, t.params, [CloseParen] + ret);
    var params := PrintParamsOnto(t.params, [CloseParen] + ret);
    InsideStep(depth, OpenParen, params);
    InsideTypeParams(depth, t.typeParams, [OpenParen] + params);
    InsidePrefix(depth, t.kind, PrintTypeParamsOnto(t.typeParams, [OpenParen] + params));
  }

  lemma InsidePrefix(depth: nat, kind: SignatureKind, rest: seq<Token>)
    requires depth > 0
    ensures Inside(depth, SignaturePrefix(kind) + rest) == |SignaturePrefix(kind)| + Inside(depth, rest)
  {
    match kind
    case Call => assert [] + rest == rest;
    case Construct => InsideStep(depth, NewKeyword, rest);
    case AbstractConstruct =>
      assert [AbstractKeyword, NewKeyword] + rest == [AbstractKeyword] + ([NewKeyword] + rest);
      InsideStep(depth, NewKeyword, rest);
      InsideStep(depth, AbstractKeyword, [NewKeyword] + rest);
  }

  lemma {:induction false} InsideList(depth: nat, ts: List<Type>, separator: Token, rest: seq<Token>)
    requires depth > 0 && separator != OpenParen && separator != CloseParen
    ensures Inside(depth, PrintListOnto(ts, separator, rest)) == WeightList(ts) + Inside(depth, rest)
    decreases ts, 0
  {
    match ts
    case Nil =>
    case Cons(t, Nil) => InsidePrinted(depth, t, rest);
    case Cons(t, tail) =>
      InsideList(depth, tail, separator, rest);
      InsideStep(depth, separator, PrintListOnto(tail, separator, rest));
      InsidePrinted(depth, t, [separator] + PrintListOnto(tail, separator, rest));
  }

  lemma {:induction false} InsideArgs(depth: nat, args: List<Type>, rest: seq<Token>)
    requires depth > 0
    ensures Inside(depth, PrintArgsOnto(args, rest)) == WeightArgs(args) + Inside(depth, rest)
    decreases args, 1
  {
    if args.Cons? {
      InsideStep(depth, GreaterThan, rest);
      InsideList(depth, args, Comma, [GreaterThan] + rest);
      InsideStep(depth, LessThan, PrintListOnto(args, Comma, [GreaterThan] + rest));
    }
  }

  lemma {:induction false} InsideParams(depth: nat, ps: List<Param>, rest: seq<Token>)
    requires depth > 0
    ensures Inside(depth, PrintParamsOnto(ps, rest)) == WeightParams(ps) + Inside(depth, rest)
    decreases ps
  {
    match ps
    case Nil =>
    case Cons(p, Nil) => InsideParam(depth, p, rest);
    case Cons(p, tail) =>
      InsideParams(depth, tail, rest);
      InsideStep(depth, Comma, PrintParamsOnto(tail, rest));
      InsideParam(depth, p, [Comma] + PrintParamsOnto(tail, rest));
  }

  lemma {:induction false} InsideParam(depth: nat, p: Param, rest: seq<Token>)
    requires depth > 0
    ensures Inside(depth, PrintParamOnto(p, rest)) == WeightParam(p) + Inside(depth, rest)
    decreases p
  {
    var tail := if p.annotation.Some? then [Colon] + PrintOnto(p.annotation.value, rest) else rest;
    if p.annotation.Some? {
      InsidePrinted(depth, p.annotation.value, rest);
      InsideStep(depth, Colon, PrintOnto(p.annotation.value, rest));
    }
    InsideFlag(depth, p.question, Question, tail);
    InsideStep(depth, NameToken(p.name), Flag(p.question, Question, tail));
    InsideFlag(depth, p.dots, DotDotDot, [NameToken(p.name)] + Flag(p.question, Question, tail));
  }

  lemma {:induction false} InsideNames(depth: nat, names: List<nat>, rest: seq<Token>)
    requires depth > 0
    ensures Inside(depth, PrintNamesOnto(names, rest)) == WeightNames(names) + Inside(depth, rest)
  {
    match names
    case Nil =>
    case Cons(n, Nil) => InsideStep(depth, NameToken(n), rest);
    case Cons(n, tail) =>
      var more := PrintNamesOnto(tail, rest);
      InsideNames(depth, tail, rest);
      InsideStep(depth, Comma, more);
      InsideStep(depth, NameToken(n), [Comma] + more);
  }

  lemma InsideTypeParams(depth: nat, names: List<nat>, rest: seq<Token>)
    requires depth > 0
    ensures Inside(depth, PrintTypeParamsOnto(names, rest)) == WeightTypeParams(names) + Inside(depth, rest)
  {
    if names.Cons? {
      InsideStep(depth, GreaterThan, rest);
      InsideNames(depth, names, [GreaterThan] + rest);
      InsideStep(depth, LessThan, PrintNamesOnto(names, [GreaterThan] + rest));
    }
  }

  // ---------- Parentheses around a whole tree ----------

  /**
   * What the first parenthesis of a text encloses: all of the tree when it stands in parentheses,
   * and less than all of it otherwise.
   */
  lemma {:induction false} FirstGroup(t: Type, rest: seq<Token>)
    requires Sized(Erase(t)) && At(PrintOnto(t, rest), OpenParen)
    ensures var inside := Inside(1, PrintOnto(t, rest)[1..]);
            if t.Paren? then inside == Weight(t) else inside < Weight(t)
    decreases t
  {
    match t
    case Paren(inner) => InsidePrinted(1, inner, [CloseParen] + rest); InsideStep(1, CloseParen, rest);
    case Function(_, _, _, _) => FirstGroupOfFunction(t, rest);
    case Array(e) => FirstGroup(e, [OpenBracket] + ([CloseBracket] + rest));
    case IndexedAccess(o, i) => FirstGroup(o, [OpenBracket] + PrintOnto(i, [CloseBracket] + rest));
    case Union(types) => FirstGroupOfList(types, Bar, rest);
    case Intersection(types) => FirstGroupOfList(types, Ampersand, rest);
    case Conditional(c, e, a, b) =>
      FirstGroup(c, [ExtendsKeyword] + PrintOnto(e, [Question] + PrintOnto(a, [Colon] + PrintOnto(b, rest))));
    case Optional(inner) => FirstGroup(inner, [Question] + rest);
    case JSDocNullable(inner) => FirstGroup(inner, [Question] + rest);
    case _ =>
  }

  lemma FirstGroupOfFunction(t: Type, rest: seq<Token>)
    requires t.Function? && At(PrintOnto(t, rest), OpenParen)
    ensures Inside(1, PrintOnto(t, rest)[1..]) < Weight(t)
  {
    var tail := [CloseParen] + ([Arrow] + PrintOnto(t.ret, rest));
    assert t.kind.Call? && t.typeParams.Nil?;
    assert PrintOnto(t, rest) == [OpenParen] + PrintParamsOnto(t.params, tail);
    InsideParams(1, t.params, tail);
    InsideStep(1, CloseParen, [Arrow] + PrintOnto(t.ret, rest));
  }

  lemma {:induction false} FirstGroupOfList(ts: List<Type>, separator: Token, rest: seq<Token>)
    requires SizedList(EraseList(ts)) && EraseList(ts).Cons? && EraseList(ts).tail.Cons?
    requires At(PrintListOnto(ts, separator, rest), OpenParen)
    ensures Inside(1, PrintListOnto(ts, separator, rest)[1..]) < WeightList(ts)
    decreases ts
  {
    FirstGroup(ts.head, [separator] + PrintListOnto(ts.tail, separator, rest));
  }

  // ---------- One tree to a text ----------

  lemma Unprefix(x: Token, a: seq<Token>, b: seq<Token>)
    requires [x] + a == [x] + b
    ensures a == b
  {
    assert a == ([x] + a)[1..] && b == ([x] + b)[1..];
  }

  /**
   * Two trees that differ in parentheses at most and have the same text, whatever follows it, are
   * the same tree.
   */
  lemma {:induction false} SameText(a: Type, b: Type, ra: seq<Token>, rb: seq<Token>)
    requires Erase(a) == Erase(b) && Sized(Erase(a)) && PrintOnto(a, ra) == PrintOnto(b, rb)
    ensures a == b && ra == rb
    decreases a, 2
  {
    if a.Paren? != b.Paren? {
      EraseKeepsWeight(a);
      EraseKeepsWeight(b);
      FirstGroup(a, ra);
      FirstGroup(b, rb);
      assert false;
    } else if a.Paren? {
      Unprefix(OpenParen, PrintOnto(a.inner, [CloseParen] + ra), PrintOnto(b.inner, [CloseParen] + rb));
      SameText(a.inner, b.inner, [CloseParen] + ra, [CloseParen] + rb);
      Unprefix(CloseParen, ra, rb);
    } else {
      SameNode(a, b, ra, rb);
    }
  }

  lemma {:induction false} SameNode(a: Type, b: Type, ra: seq<Token>, rb: seq<Token>)
    requires Erase(a) == Erase(b) && Sized(Erase(a)) && PrintOnto(a, ra) == PrintOnto(b, rb)
    requires !a.Paren? && !b.Paren?
    ensures a == b && ra == rb
    decreases a, 1
  {
    match a
    case Reference(_, _) => SameReference(a, b, ra, rb);
    case Opaque(id) => Unprefix(OpaqueToken(id), ra, rb);
    case Braces(id) => Unprefix(BracesToken(id), ra, rb);
    case Query(_, _) => SameReference(a, b, ra, rb);
    case Function(_, _, _, _) => SameFunction(a, b, ra, rb);
    case Array(_) => SamePostfix(a, b, ra, rb);
    case IndexedAccess(_, _) => SamePostfix(a, b, ra, rb);
    case Tuple(_) => SameTuple(a, b, ra, rb);
    case Union(types) => SameList(types, b.types, Bar, ra, rb);
    case Intersection(types) => SameList(types, b.types, Ampersand, ra, rb);
    case Conditional(_, _, _, _) => SameConditional(a, b, ra, rb);
    case Infer(_, _) => SameInfer(a, b, ra, rb);
    case Operator(op, operand) =>
      Unprefix(OperatorKeyword(op), PrintOnto(operand, ra), PrintOnto(b.operand, rb));
      SameText(operand, b.operand, ra, rb);
    case Rest(_) => SameMember(a, b, ra, rb);
    case Optional(_) => SameMember(a, b, ra, rb);
    case Named(_, _, _, _) => SameMember(a, b, ra, rb);
    case JSDocNullable(_) => SameMember(a, b, ra, rb);
    case Paren(_) => assert false;
  }

  lemma {:induction false} SameReference(a: Type, b: Type, ra: seq<Token>, rb: seq<Token>)
    requires Erase(a) == Erase(b) && Sized(Erase(a)) && PrintOnto(a, ra) == PrintOnto(b, rb)
    requires (a.Reference? && b.Reference?) || (a.Query? && b.Query?)
    ensures a == b && ra == rb
    decreases a, 0
  {
    var aa, ab := PrintArgsOnto(a.args, ra), PrintArgsOnto(b.args, rb);
    if a.Query? {
      Unprefix(TypeOfKeyword, [NameToken(a.name)] + aa, [NameToken(a.name)] + ab);
    }
    Unprefix(NameToken(a.name), aa, ab);
    SameArgs(a.args, b.args, ra, rb);
  }

  lemma {:induction false} SameTuple(a: Type, b: Type, ra: seq<Token>, rb: seq<Token>)
    requires Erase(a) == Erase(b) && Sized(Erase(a)) && PrintOnto(a, ra) == PrintOnto(b, rb)
    requires a.Tuple? && b.Tuple?
    ensures a == b && ra == rb
    decreases a, 0
  {
    var ca, cb := [CloseBracket] + ra, [CloseBracket] + rb;
    Unprefix(OpenBracket, PrintListOnto(a.elements, Comma, ca), PrintListOnto(b.elements, Comma, cb));
    SameList(a.elements, b.elements, Comma, ca, cb);
    Unprefix(CloseBracket, ra, rb);
  }

  lemma {:induction false} SamePostfix(a: Type, b: Type, ra: seq<Token>, rb: seq<Token>)
    requires Erase(a) == Erase(b) && Sized(Erase(a)) && PrintOnto(a, ra) == PrintOnto(b, rb)
    requires (a.Array? && b.Array?) || (a.IndexedAccess? && b.IndexedAccess?)
    ensures a == b && ra == rb
    decreases a, 0
  {
    var ca, cb := [CloseBracket] + ra, [CloseBracket] + rb;
    if a.Array? {
      SameText(a.element, b.element, [OpenBracket] + ca, [OpenBracket] + cb);
      Unprefix(OpenBracket, ca, cb);
    } else {
      var ia, ib := PrintOnto(a.indexType, ca), PrintOnto(b.indexType, cb);
      SameText(a.objectType, b.objectType, [OpenBracket] + ia, [OpenBracket] + ib);
      Unprefix(OpenBracket, ia, ib);
      SameText(a.indexType, b.indexType, ca, cb);
    }
    Unprefix(CloseBracket, ra, rb);
  }

  lemma {:induction false} SameConditional(a: Type, b: Type, ra: seq<Token>, rb: seq<Token>)
    requires Erase(a) == Erase(b) && Sized(Erase(a)) && PrintOnto(a, ra) == PrintOnto(b, rb)
    requires a.Conditional? && b.Conditional?
    ensures a == b && ra == rb
    decreases a, 0
  {
    var fa, fb := PrintOnto(a.whenFalse, ra), PrintOnto(b.whenFalse, rb);
    var ta, tb := PrintOnto(a.whenTrue, [Colon] + fa), PrintOnto(b.whenTrue, [Colon] + fb);
    var ea, eb := PrintOnto(a.bound, [Question] + ta), PrintOnto(b.bound, [Question] + tb);
    SameText(a.check, b.check, [ExtendsKeyword] + ea, [ExtendsKeyword] + eb);
    Unprefix(ExtendsKeyword, ea, eb);
    SameText(a.bound, b.bound, [Question] + ta, [Question] + tb);
    Unprefix(Question, ta, tb);
    SameText(a.whenTrue, b.whenTrue, [Colon] + fa, [Colon] + fb);
    Unprefix(Colon, fa, fb);
    SameText(a.whenFalse, b.whenFalse, ra, rb);
  }

  lemma {:induction false} SameInfer(a: Type, b: Type, ra: seq<Token>, rb: seq<Token>)
    requires Erase(a) == Erase(b) && Sized(Erase(a)) && PrintOnto(a, ra) == PrintOnto(b, rb)
    requires a.Infer? && b.Infer?
    ensures a == b && ra == rb
    decreases a, 0
  {
    var ta := if a.constraint.Some? then [ExtendsKeyword] + PrintOnto(a.constraint.value, ra) else ra;
    var tb := if b.constraint.Some? then [ExtendsKeyword] + PrintOnto(b.constraint.value, rb) else rb;
    Unprefix(InferKeyword, [NameToken(a.name)] + ta, [NameToken(a.name)] + tb);
    Unprefix(NameToken(a.name), ta, tb);
    if a.constraint.Some? {
      Unprefix(ExtendsKeyword, PrintOnto(a.constraint.value, ra), PrintOnto(b.constraint.value, rb));
      SameText(a.constraint.value, b.constraint.value, ra, rb);
    }
  }

  lemma {:induction false} SameMember(a: Type, b: Type, ra: seq<Token>, rb: seq<Token>)
    requires Erase(a) == Erase(b) && Sized(Erase(a)) && PrintOnto(a, ra) == PrintOnto(b, rb)
    requires !Plain(a) && !Plain(b)
    ensures a == b && ra == rb
    decreases a, 0
  {
    if a.Optional? || a.JSDocNullable? {
      SameText(a.inner, b.inner, [Question] + ra, [Question] + rb);
      Unprefix(Question, ra, rb);
    } else {
      var ia, ib := PrintOnto(a.inner, ra), PrintOnto(b.inner, rb);
      if a.Rest? {
        Unprefix(DotDotDot, ia, ib);
      } else {
        SameName(a.dots, a.name, a.question, [Colon] + ia, [Colon] + ib);
        Unprefix(Colon, ia, ib);
      }
      SameText(a.inner, b.inner, ra, rb);
    }
  }

  lemma SameFlag(b: bool, x: Token, ra: seq<Token>, rb: seq<Token>)
    requires Flag(b, x, ra) == Flag(b, x, rb)
    ensures ra == rb
  {
    if b {
      Unprefix(x, ra, rb);
    }
  }

  lemma SameName(dots: bool, name: nat, question: bool, ra: seq<Token>, rb: seq<Token>)
    requires Flag(dots, DotDotDot, [NameToken(name)] + Flag(question, Question, ra))
             == Flag(dots, DotDotDot, [NameToken(name)] + Flag(question, Question, rb))
    ensures ra == rb
  {
    var fa, fb := Flag(question, Question, ra), Flag(question, Question, rb);
    SameFlag(dots, DotDotDot, [NameToken(name)] + fa, [NameToken(name)] + fb);
    Unprefix(NameToken(name), fa, fb);
    SameFlag(question, Question, ra, rb);
  }

  lemma {:induction false} SameFunction(a: Type, b: Type, ra: seq<Token>, rb: seq<Token>)
    requires Erase(a) == Erase(b) && Sized(Erase(a)) && PrintOnto(a, ra) == PrintOnto(b, rb)
    requires a.Function? && b.Function?
    ensures a == b && ra == rb
    decreases a, 0
  {
    var wa, wb := [Arrow] + PrintOnto(a.ret, ra), [Arrow] + PrintOnto(b.ret, rb);
    var ca, cb := [CloseParen] + wa, [CloseParen] + wb;
    var pa, pb := PrintParamsOnto(a.params, ca), PrintParamsOnto(b.params, cb);
    var ta, tb := PrintTypeParamsOnto(a.typeParams, [OpenParen] + pa), PrintTypeParamsOnto(a.typeParams, [OpenParen] + pb);
    var prefix := SignaturePrefix(a.kind);
    assert ta == (prefix + ta)[|prefix|..] && tb == (prefix + tb)[|prefix|..];
    SameTypeParams(a.typeParams, [OpenParen] + pa, [OpenParen] + pb);
    Unprefix(OpenParen, pa, pb);
    SameParams(a.params, b.params, ca, cb);
    Unprefix(CloseParen, wa, wb);
    Unprefix(Arrow, PrintOnto(a.ret, ra), PrintOnto(b.ret, rb));
    SameText(a.ret, b.ret, ra, rb);
  }

  lemma {:induction false} SameList(a: List<Type>, b: List<Type>, separator: Token, ra: seq<Token>, rb: seq<Token>)
    requires EraseList(a) == EraseList(b) && SizedList(EraseList(a))
    requires PrintListOnto(a, separator, ra) == PrintListOnto(b, separator, rb)
    ensures a == b && ra == rb
    decreases a, 0
  {
    match a
    case Nil =>
    case Cons(t, Nil) => SameText(t, b.head, ra, rb);
    case Cons(t, tail) =>
      var ta, tb := PrintListOnto(tail, separator, ra), PrintListOnto(b.tail, separator, rb);
      SameText(t, b.head, [separator] + ta, [separator] + tb);
      Unprefix(separator, ta, tb);
      SameList(tail, b.tail, separator, ra, rb);
  }

  lemma {:induction false} SameArgs(a: List<Type>, b: List<Type>, ra: seq<Token>, rb: seq<Token>)
    requires EraseList(a) == EraseList(b) && SizedList(EraseList(a)) && PrintArgsOnto(a, ra) == PrintArgsOnto(b, rb)
    ensures a == b && ra == rb
    decreases a, 1
  {
    if a.Cons? {
      var ca, cb := [GreaterThan] + ra, [GreaterThan] + rb;
      Unprefix(LessThan, PrintListOnto(a, Comma, ca), PrintListOnto(b, Comma, cb));
      SameList(a, b, Comma, ca, cb);
      Unprefix(GreaterThan, ra, rb);
    }
  }

  lemma {:induction false} SameParams(a: List<Param>, b: List<Param>, ra: seq<Token>, rb: seq<Token>)
    requires EraseParams(a) == EraseParams(b) && SizedParams(EraseParams(a))
    requires PrintParamsOnto(a, ra) == PrintParamsOnto(b, rb)
    ensures a == b && ra == rb
    decreases a
  {
    match a
    case Nil =>
    case Cons(p, Nil) => SameParam(p, b.head, ra, rb);
    case Cons(p, tail) =>
      var ta, tb := PrintParamsOnto(tail, ra), PrintParamsOnto(b.tail, rb);
      SameParam(p, b.head, [Comma] + ta, [Comma] + tb);
      Unprefix(Comma, ta, tb);
      SameParams(tail, b.tail, ra, rb);
  }

  lemma {:induction false} SameParam(a: Param, b: Param, ra: seq<Token>, rb: seq<Token>)
    requires EraseParams(Cons(a, Nil)) == EraseParams(Cons(b, Nil)) && SizedParams(EraseParams(Cons(a, Nil)))
    requires PrintParamOnto(a, ra) == PrintParamOnto(b, rb)
    ensures a == b && ra == rb
    decreases a
  {
    var ta := if a.annotation.Some? then [Colon] + PrintOnto(a.annotation.value, ra) else ra;
    var tb := if b.annotation.Some? then [Colon] + PrintOnto(b.annotation.value, rb) else rb;
    SameName(a.dots, a.name, a.question, ta, tb);
    if a.annotation.Some? {
      Unprefix(Colon, PrintOnto(a.annotation.value, ra), PrintOnto(b.annotation.value, rb));
      SameText(a.annotation.value, b.annotation.value, ra, rb);
    }
  }

  lemma {:induction false} SameNames(names: List<nat>, ra: seq<Token>, rb: seq<Token>)
    requires PrintNamesOnto(names, ra) == PrintNamesOnto(names, rb)
    ensures ra == rb
  {
    match names
    case Nil =>
    case Cons(n, Nil) => Unprefix(NameToken(n), ra, rb);
    case Cons(n, tail) =>
      var ta, tb := PrintNamesOnto(tail, ra), PrintNamesOnto(tail, rb);
      Unprefix(NameToken(n), [Comma] + ta, [Comma] + tb);
      Unprefix(Comma, ta, tb);
      SameNames(tail, ra, rb);
  }

  lemma SameTypeParams(names: List<nat>, ra: seq<Token>, rb: seq<Token>)
    requires PrintTypeParamsOnto(names, ra) == PrintTypeParamsOnto(names, rb)
    ensures ra == rb
  {
    if names.Cons? {
      var ca, cb := [GreaterThan] + ra, [GreaterThan] + rb;
      Unprefix(LessThan, PrintNamesOnto(names, ca), PrintNamesOnto(names, cb));
      SameNames(names, ca, cb);
      Unprefix(GreaterThan, ra, rb);
    }
  }
}
