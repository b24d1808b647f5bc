/**
 * The factory calls as a whole: they add parentheses and nothing else, they keep trees built, and
 * a whole tree rebuilt with them is built; on a built tree they change nothing.
 */
module TypeFactory {
  import opened TypeNodes
  import opened Wrappers

  // ---------- Each call ----------

  lemma {:induction false} MapUnionBuilt(ts: List<Type>)
    requires BuiltList(ts)
    ensures BuiltList(MapUnion(ts)) && MapUnion(MapUnion(ts)) == MapUnion(ts) && EraseList(MapUnion(ts)) == EraseList(ts)
  {
    if ts.Cons? {
      MapUnionBuilt(ts.tail);
    }
  }

  lemma {:induction false} MapIntersectionBuilt(ts: List<Type>)
    requires BuiltList(ts)
    ensures BuiltList(MapIntersection(ts)) && MapIntersection(MapIntersection(ts)) == MapIntersection(ts)
    ensures EraseList(MapIntersection(ts)) == EraseList(ts)
  {
    if ts.Cons? {
      MapIntersectionBuilt(ts.tail);
    }
  }

  lemma UnionCallKeepsBuilt(ts: List<Type>)
    requires BuiltList(ts)
    ensures Built(CreateUnion(ts)) && Erase(CreateUnion(ts)) == Union(EraseList(ts))
  {
    MapUnionBuilt(ts);
  }

  lemma IntersectionCallKeepsBuilt(ts: List<Type>)
    requires BuiltList(ts)
    ensures Built(CreateIntersection(ts)) && Erase(CreateIntersection(ts)) == Intersection(EraseList(ts))
  {
    MapIntersectionBuilt(ts);
  }

  lemma ArgumentCallsKeepBuilt(name: nat, ts: List<Type>)
    requires BuiltList(ts)
    ensures Built(CreateReference(name, ts)) && Erase(CreateReference(name, ts)) == Reference(name, EraseList(ts))
    ensures Built(CreateQuery(name, ts)) && Erase(CreateQuery(name, ts)) == Query(name, EraseList(ts))
  {
    if ts.Cons? {
      var p := Paren(ts.head);
      assert Built(p) && Erase(p) == Erase(ts.head);
      assert BuiltList(TypeArguments(ts)) && EraseList(TypeArguments(ts)) == EraseList(ts);
      assert TypeArguments(TypeArguments(ts)) == TypeArguments(ts);
    }
  }

  lemma PostfixCallsKeepBuilt(t: Type, i: Type)
    requires Built(t) && Built(i)
    ensures Built(CreateArray(t)) && Erase(CreateArray(t)) == Array(Erase(t))
    ensures Built(CreateIndexedAccess(t, i)) && Erase(CreateIndexedAccess(t, i)) == IndexedAccess(Erase(t), Erase(i))
  {
    assert Built(Paren(t)) && Erase(Paren(t)) == Erase(t);
  }

  lemma OperatorCallKeepsBuilt(op: OperatorKind, t: Type)
    requires Built(t)
    ensures Built(CreateOperator(op, t)) && Erase(CreateOperator(op, t)) == Operator(op, Erase(t))
  {
    assert Built(Paren(t)) && Erase(Paren(t)) == Erase(t);
  }

  lemma OptionalCallKeepsBuilt(t: Type)
    requires Built(t)
    ensures BuiltElement(CreateOptional(t)) && Erase(CreateOptional(t)) == Optional(Erase(t))
  {
    assert Built(Paren(t)) && Erase(Paren(t)) == Erase(t);
  }

  lemma ConditionalCallKeepsBuilt(c: Type, e: Type, a: Type, b: Type)
    requires Built(c) && Built(e) && Built(a) && Built(b)
    ensures var t := CreateConditional(c, e, a, b);
            Built(t) && Erase(t) == Conditional(Erase(c), Erase(e), Erase(a), Erase(b))
  {
    assert Built(Paren(c)) && Erase(Paren(c)) == Erase(c);
    assert Built(Paren(e)) && Erase(Paren(e)) == Erase(e);
  }

  // ---------- Rebuilding a tree ----------

  /** Tuple members stand in tuples only. */
  predicate Shaped(t: Type)
    decreases t, 0
  {
    match t
    case Reference(_, args) => ShapedList(args)
    case Query(_, args) => ShapedList(args)
    case Function(_, _, params, ret) => ShapedParams(params) && Shaped(ret)
    case Array(e) => Shaped(e)
    case Tuple(elements) => ShapedElements(elements)
    case Union(types) => ShapedList(types)
    case Intersection(types) => ShapedList(types)
    case Conditional(c, e, a, b) => Shaped(c) && Shaped(e) && Shaped(a) && Shaped(b)
    case Infer(_, constraint) => constraint.Some? ==> Shaped(constraint.value)
    case Paren(inner) => Shaped(inner)
    case Operator(_, operand) => Shaped(operand)
    case IndexedAccess(o, i) => Shaped(o) && Shaped(i)
    case Opaque(_) => true
    case Braces(_) => true
    case _ => false
  }

  predicate ShapedList(ts: List<Type>)
    decreases ts
  {
    ts.Cons? ==> Shaped(ts.head) && ShapedList(ts.tail)
  }

  predicate ShapedParams(ps: List<Param>)
    decreases ps
  {
    ps.Cons? ==> (ps.head.annotation.Some? ==> Shaped(ps.head.annotation.value)) && ShapedParams(ps.tail)
  }

  predicate ShapedElement(t: Type)
    decreases t, 1
  {
    if t.Rest? || t.Optional? || t.Named? then Shaped(t.inner) else Shaped(t)
  }

  predicate ShapedElements(ts: List<Type>)
    decreases ts
  {
    ts.Cons? ==> ShapedElement(ts.head) && ShapedElements(ts.tail)
  }

  /** Builds a tree bottom-up with the factory; parentheses it already has stay. */
  function Rebuild(t: Type): Type
    decreases t
  {
    match t
    case Reference(name, args) => CreateReference(name, RebuildList(args))
    case Opaque(_) => t
    case Braces(_) => t
    case Query(name, args) => CreateQuery(name, RebuildList(args))
    case Function(kind, tps, params, ret) => Function(kind, tps, RebuildParams(params), Rebuild(ret))
    case Array(e) => CreateArray(Rebuild(e))
    case Tuple(elements) => Tuple(RebuildList(elements))
    case Union(types) => CreateUnion(RebuildList(types))
    case Intersection(types) => CreateIntersection(RebuildList(types))
    case Conditional(c, e, a, b) => CreateConditional(Rebuild(c), Rebuild(e), Rebuild(a), Rebuild(b))
    case Infer(name, constraint) => Infer(name, if constraint.Some? then Some(Rebuild(constraint.value)) else None)
    case Paren(inner) => Paren(Rebuild(inner))
    case Operator(op, operand) => CreateOperator(op, Rebuild(operand))
    case IndexedAccess(o, i) => CreateIndexedAccess(Rebuild(o), Rebuild(i))
    case Rest(inner) => Rest(Rebuild(inner))
    case Optional(inner) => CreateOptional(Rebuild(inner))
    case Named(dots, name, question, inner) => Named(dots, name, question, Rebuild(inner))
    case JSDocNullable(inner) => JSDocNullable(Rebuild(inner))
  }

  function RebuildList(ts: List<Type>): List<Type>
    decreases ts
  {
    if ts.Nil? then Nil else Cons(Rebuild(ts.head), RebuildList(ts.tail))
  }

  function RebuildParams(ps: List<Param>): List<Param>
    decreases ps
  {
    if ps.Nil? then Nil else Cons(RebuildParam(ps.head), RebuildParams(ps.tail))
  }

  function RebuildParam(p: Param): Param
    decreases p
  {
    p.(annotation := if p.annotation.Some? then Some(Rebuild(p.annotation.value)) else None)
  }

  lemma {:induction false} RebuildIsBuilt(t: Type)
    requires Shaped(t)
    ensures Built(Rebuild(t)) && Erase(Rebuild(t)) == Erase(t)
    decreases t, 0
  {
    match t
    case Reference(name, args) => RebuildListIsBuilt(args); ArgumentCallsKeepBuilt(name, RebuildList(args));
    case Query(name, args) => RebuildListIsBuilt(args); ArgumentCallsKeepBuilt(name, RebuildList(args));
    case Function(_, _, params, ret) => RebuildParamsIsBuilt(params); RebuildIsBuilt(ret);
    case Array(e) => RebuildIsBuilt(e); PostfixCallsKeepBuilt(Rebuild(e), Rebuild(e));
    case Tuple(elements) => RebuildElementsIsBuilt(elements);
    case Union(types) => RebuildListIsBuilt(types); UnionCallKeepsBuilt(RebuildList(types));
    case Intersection(types) => RebuildListIsBuilt(types); IntersectionCallKeepsBuilt(RebuildList(types));
    case Conditional(c, e, a, b) =>
      RebuildIsBuilt(c);
      RebuildIsBuilt(e);
      RebuildIsBuilt(a);
      RebuildIsBuilt(b);
      ConditionalCallKeepsBuilt(Rebuild(c), Rebuild(e), Rebuild(a), Rebuild(b));
    case Infer(_, constraint) => if constraint.Some? { RebuildIsBuilt(constraint.value); }
    case Paren(inner) => RebuildIsBuilt(inner);
    case Operator(op, operand) => RebuildIsBuilt(operand); OperatorCallKeepsBuilt(op, Rebuild(operand));
    case IndexedAccess(o, i) => RebuildIsBuilt(o); RebuildIsBuilt(i); PostfixCallsKeepBuilt(Rebuild(o), Rebuild(i));
    case _ =>
  }

  lemma {:induction false} RebuildListIsBuilt(ts: List<Type>)
    requires ShapedList(ts)
    ensures BuiltList(RebuildList(ts)) && EraseList(RebuildList(ts)) == EraseList(ts)
    decreases ts
  {
    if ts.Cons? {
      RebuildIsBuilt(ts.head);
      RebuildListIsBuilt(ts.tail);
    }
  }

  lemma {:induction false} RebuildParamsIsBuilt(ps: List<Param>)
    requires ShapedParams(ps)
    ensures BuiltParams(RebuildParams(ps)) && EraseParams(RebuildParams(ps)) == EraseParams(ps)
    decreases ps
  {
    if ps.Cons? {
      if ps.head.annotation.Some? {
        RebuildIsBuilt(ps.head.annotation.value);
      }
      RebuildParamsIsBuilt(ps.tail);
    }
  }

  lemma {:induction false} RebuildElementsIsBuilt(ts: List<Type>)
    requires ShapedElements(ts)
    ensures BuiltElements(RebuildList(ts)) && EraseList(RebuildList(ts)) == EraseList(ts)
    decreases ts
  {
    if ts.Cons? {
      RebuildElementIsBuilt(ts.head);
      RebuildElementsIsBuilt(ts.tail);
    }
  }

  lemma BuiltIsElement(t: Type)
    requires Built(t)
    ensures BuiltElement(t)
  {
  }

  lemma {:induction false} RebuildElementIsBuilt(t: Type)
    requires ShapedElement(t)
    ensures BuiltElement(Rebuild(t)) && Erase(Rebuild(t)) == Erase(t)
    decreases t, 1
  {
    if t.Rest? || t.Named? {
      RebuildIsBuilt(t.inner);
    } else if t.Optional? {
      RebuildIsBuilt(t.inner);
      OptionalCallKeepsBuilt(Rebuild(t.inner));
    } else {
      RebuildIsBuilt(t);
      BuiltIsElement(Rebuild(t));
    }
  }

  lemma RulesAddParens(t: Type)
    ensures Erase(CheckTypeOfConditional(t)) == Erase(t) && Erase(ExtendsTypeOfConditional(t)) == Erase(t)
    ensures Erase(ConstituentOfUnion(t)) == Erase(t) && Erase(ConstituentOfIntersection(t)) == Erase(t)
    ensures Erase(OperandOfTypeOperator(t)) == Erase(t) && Erase(OperandOfReadonly(t)) == Erase(t)
    ensures Erase(NonArrayTypeOfPostfix(t)) == Erase(t) && Erase(TypeOfOptional(t)) == Erase(t)
    ensures Erase(LeadingTypeArgument(t)) == Erase(t)
  {
    hide HasPostfixQuestion;
    assert Erase(Paren(t)) == Erase(t);
  }

  lemma {:induction false} ListRulesAddParens(ts: List<Type>)
    ensures EraseList(MapUnion(ts)) == EraseList(ts) && EraseList(MapIntersection(ts)) == EraseList(ts)
    ensures EraseList(TypeArguments(ts)) == EraseList(ts)
  {
    hide ConstituentOfUnion, ConstituentOfIntersection, LeadingTypeArgument;
    if ts.Cons? {
      RulesAddParens(ts.head);
      ListRulesAddParens(ts.tail);
    }
  }

  /** The factory changes nothing but parentheses, even on nodes that the parser holds for a moment only. */
  lemma {:induction false} RebuildOnlyAddsParens(t: Type)
    ensures Erase(Rebuild(t)) == Erase(t)
    decreases t, 1
  {
    hide Erase, Rebuild;
    if t.Reference? || t.Query? || t.Tuple? || t.Union? || t.Intersection? || t.Function? {
      RebuiltListNode(t);
    } else if t.Array? || t.IndexedAccess? || t.Conditional? || t.Infer? || t.Operator? {
      RebuiltOperandNode(t);
    } else {
      RebuiltWrapper(t);
    }
  }

  lemma {:induction false} RebuiltListNode(t: Type)
    requires t.Reference? || t.Query? || t.Tuple? || t.Union? || t.Intersection? || t.Function?
    ensures Erase(Rebuild(t)) == Erase(t)
    decreases t, 0
  {
    hide MapUnion, MapIntersection, TypeArguments;
    match t
    case Reference(_, args) => RebuildListOnlyAddsParens(args); ListRulesAddParens(RebuildList(args));
    case Query(_, args) => RebuildListOnlyAddsParens(args); ListRulesAddParens(RebuildList(args));
    case Tuple(elements) => RebuildListOnlyAddsParens(elements);
    case Union(types) => RebuildListOnlyAddsParens(types); ListRulesAddParens(RebuildList(types));
    case Intersection(types) => RebuildListOnlyAddsParens(types); ListRulesAddParens(RebuildList(types));
    case Function(_, _, params, ret) => RebuildParamsOnlyAddsParens(params); RebuildOnlyAddsParens(ret);
  }

  lemma {:induction false} RebuiltOperandNode(t: Type)
    requires t.Array? || t.IndexedAccess? || t.Conditional? || t.Infer? || t.Operator?
    ensures Erase(Rebuild(t)) == Erase(t)
    decreases t, 0
  {
    hide CheckTypeOfConditional, ExtendsTypeOfConditional, OperandOfTypeOperator, OperandOfReadonly;
    hide NonArrayTypeOfPostfix;
    match t
    case Array(e) => RebuildOnlyAddsParens(e); RulesAddParens(Rebuild(e));
    case IndexedAccess(o, i) => RebuildOnlyAddsParens(o); RulesAddParens(Rebuild(o)); RebuildOnlyAddsParens(i);
    case Conditional(c, e, a, b) =>
      RebuildOnlyAddsParens(c);
      RulesAddParens(Rebuild(c));
      RebuildOnlyAddsParens(e);
      RulesAddParens(Rebuild(e));
      RebuildOnlyAddsParens(a);
      RebuildOnlyAddsParens(b);
    case Infer(_, constraint) => if constraint.Some? { RebuildOnlyAddsParens(constraint.value); }
    case Operator(_, operand) => RebuildOnlyAddsParens(operand); RulesAddParens(Rebuild(operand));
  }

  lemma {:induction false} RebuiltWrapper(t: Type)
    requires !Plain(t) || t.Paren? || t.Opaque? || t.Braces?
    ensures Erase(Rebuild(t)) == Erase(t)
    decreases t, 0
  {
    hide TypeOfOptional;
    if !t.Opaque? && !t.Braces? {
      RebuildOnlyAddsParens(t.inner);
      RulesAddParens(Rebuild(t.inner));
    }
  }

  lemma {:induction false} RebuildListOnlyAddsParens(ts: List<Type>)
    ensures EraseList(RebuildList(ts)) == EraseList(ts)
    decreases ts
  {
    if ts.Cons? {
      RebuildOnlyAddsParens(ts.head);
      RebuildListOnlyAddsParens(ts.tail);
    }
  }

  lemma {:induction false} RebuildParamsOnlyAddsParens(ps: List<Param>)
    ensures EraseParams(RebuildParams(ps)) == EraseParams(ps)
    decreases ps
  {
    if ps.Cons? {
      if ps.head.annotation.Some? {
        RebuildOnlyAddsParens(ps.head.annotation.value);
      }
      RebuildParamsOnlyAddsParens(ps.tail);
    }
  }

  /** On finished trees the factory adds nothing, call by call. */
  lemma {:induction false} BuiltStays(t: Type)
    requires BuiltElement(t)
    ensures Rebuild(t) == t
    decreases t
  {
    match t
    case Reference(_, args) => BuiltListStays(args);
    case Query(_, args) => BuiltListStays(args);
    case Function(_, _, params, ret) => BuiltParamsStay(params); BuiltStays(ret);
    case Array(e) => BuiltStays(e);
    case Tuple(elements) => BuiltElementsStay(elements);
    case Union(types) => BuiltListStays(types);
    case Intersection(types) => BuiltListStays(types);
    case Conditional(c, e, a, b) =>
      BuiltStays(c);
      BuiltStays(e);
      BuiltStays(a);
      BuiltStays(b);
    case Infer(_, constraint) => if constraint.Some? { BuiltStays(constraint.value); }
    case IndexedAccess(o, i) => BuiltStays(o); BuiltStays(i);
    case Operator(_, operand) => BuiltStays(operand);
    case Paren(inner) => BuiltStays(inner);
    case Rest(inner) => BuiltStays(inner);
    case Optional(inner) => BuiltStays(inner);
    case Named(_, _, _, inner) => BuiltStays(inner);
    case _ =>
  }

  lemma {:induction false} BuiltListStays(ts: List<Type>)
    requires BuiltList(ts)
    ensures RebuildList(ts) == ts
    decreases ts
  {
    if ts.Cons? {
      BuiltStays(ts.head);
      BuiltListStays(ts.tail);
    }
  }

  lemma {:induction false} BuiltElementsStay(ts: List<Type>)
    requires BuiltElements(ts)
    ensures RebuildList(ts) == ts
    decreases ts
  {
    if ts.Cons? {
      BuiltStays(ts.head);
      BuiltElementsStay(ts.tail);
    }
  }

  lemma {:induction false} BuiltParamsStay(ps: List<Param>)
    requires BuiltParams(ps)
    ensures RebuildParams(ps) == ps
    decreases ps
  {
    if ps.Cons? {
      if ps.head.annotation.Some? {
        BuiltStays(ps.head.annotation.value);
      }
      BuiltParamsStay(ps.tail);
    }
  }
}
