/**
 * Which type trees the parser can give back. Three things get in the way: unions and
 * intersections with fewer than two members, conditional types in a parameter of a function
 * type after `extends`, and `infer` at the right edge of a type in front of `extends`, `?`,
 * `|` or `&`.
 */
module TypeGuards {
  import opened TypeNodes
  import opened TypeParser
  import opened Wrappers

  /** No conditional type is read at this level while conditional types are disallowed. */
  predicate BareFree(t: Type)
    decreases t
  {
    !t.Conditional? && (t.Function? ==> BareFreeParams(t.params))
  }

  predicate BareFreeParams(ps: List<Param>)
    decreases ps
  {
    ps.Cons? ==> (ps.head.annotation.Some? ==> BareFree(ps.head.annotation.value)) && BareFreeParams(ps.tail)
  }

  datatype Follow = BeforeQuestion | BeforeExtends | BeforeOther

  function FollowOf(ts: seq<Token>): Follow {
    if At(ts, Question) then BeforeQuestion else if At(ts, ExtendsKeyword) then BeforeExtends else BeforeOther
  }

  /** The right edge of `t`, read in this context, does not swallow what follows. */
  predicate Edge(strict: bool, t: Type, follow: Follow)
    decreases t
  {
    match t
    case Infer(_, None) => follow.BeforeExtends? ==> !strict
    case Infer(_, Some(c)) => Edge(true, c, follow) && (strict || !follow.BeforeQuestion?)
    case Operator(_, operand) => Edge(strict, operand, follow)
    case Union(types) => LastEdge(strict, types, follow)
    case Intersection(types) => LastEdge(strict, types, follow)
    case Conditional(_, _, _, f) => !follow.BeforeExtends? && Edge(false, f, follow)
    case Function(_, _, _, ret) => !follow.BeforeExtends? && Edge(false, ret, follow)
    case _ => true
  }

  predicate LastEdge(strict: bool, ts: List<Type>, follow: Follow)
    decreases ts
  {
    match ts
    case Nil => true
    case Cons(t, Nil) => Edge(strict, t, follow)
    case Cons(_, tail) => LastEdge(strict, tail, follow)
  }

  /** `t` ends in the constraint of an `infer`, which would take in a following `|` or `&`. */
  predicate EndsInConstraint(t: Type) {
    match t
    case Infer(_, constraint) => constraint.Some?
    case Operator(_, operand) => EndsInConstraint(operand)
    case _ => false
  }

  /** At least two members, and only the last may end in a constraint. */
  predicate Members(ts: List<Type>) {
    ts.Cons? && ts.tail.Cons? && !EndsInConstraint(ts.head) && (ts.tail.tail.Cons? ==> Members(ts.tail))
  }

  predicate Good(t: Type)
    decreases t
  {
    match t
    case Reference(_, args) => GoodList(args)
    case Query(_, args) => GoodList(args)
    case Function(_, _, params, ret) => GoodParams(params) && Good(ret)
    case Array(e) => Good(e)
    case Tuple(elements) => GoodList(elements)
    case Union(types) => Members(types) && GoodList(types)
    case Intersection(types) => Members(types) && GoodList(types)
    case Conditional(c, e, a, b) =>
      Good(c) && Good(e) && Good(a) && Good(b)
      && BareFree(e) && Edge(true, e, BeforeQuestion) && Edge(false, c, BeforeExtends)
    case Infer(_, constraint) => constraint.Some? ==> Good(constraint.value) && BareFree(constraint.value)
    case Paren(inner) => Good(inner)
    case Operator(_, operand) => Good(operand)
    case IndexedAccess(o, i) => Good(o) && Good(i)
    case Rest(inner) => Good(inner)
    case Optional(inner) => Good(inner)
    case Named(_, _, _, inner) => Good(inner)
    case JSDocNullable(inner) => Good(inner)
    case _ => true
  }

  predicate GoodList(ts: List<Type>)
    decreases ts
  {
    ts.Cons? ==> Good(ts.head) && GoodList(ts.tail)
  }

  predicate GoodParams(ps: List<Param>)
    decreases ps
  {
    ps.Cons? ==> (ps.head.annotation.Some? ==> Good(ps.head.annotation.value)) && GoodParams(ps.tail)
  }

  lemma {:induction false} EdgeBeforeOther(strict: bool, t: Type)
    ensures Edge(strict, t, BeforeOther)
    decreases t
  {
    match t
    case Infer(_, Some(c)) => EdgeBeforeOther(true, c);
    case Operator(_, operand) => EdgeBeforeOther(strict, operand);
    case Union(types) => LastEdgeBeforeOther(strict, types);
    case Intersection(types) => LastEdgeBeforeOther(strict, types);
    case Conditional(_, _, _, f) => EdgeBeforeOther(false, f);
    case Function(_, _, _, ret) => EdgeBeforeOther(false, ret);
    case _ =>
  }

  lemma {:induction false} LastEdgeBeforeOther(strict: bool, ts: List<Type>)
    ensures LastEdge(strict, ts, BeforeOther)
    decreases ts
  {
    match ts
    case Nil =>
    case Cons(t, Nil) => EdgeBeforeOther(strict, t);
    case Cons(_, tail) => LastEdgeBeforeOther(strict, tail);
  }
}
