/**
 * Type nodes, the type half of the parenthesizer, and the factory constructors that apply it.
 */
module TypeNodes {
  import opened Wrappers

  /** A NodeArray, read from `head` along `next`. */
  datatype List<+T> = Nil | Cons(head: T, tail: List<T>)

  datatype OperatorKind = KeyOf | Unique | Readonly

  /** FunctionType, ConstructorType, and ConstructorType with the `abstract` modifier. */
  datatype SignatureKind = Call | Construct | AbstractConstruct

  datatype Param = Param(dots: bool, name: nat, question: bool, annotation: Option<Type>)

  datatype Type =
    | Reference(name: nat, args: List<Type>)   // keyword types and `this` are references without arguments
    | Opaque(id: nat)                          // literal types, `void` and `null`
    | Braces(id: nat)                          // a type literal or mapped type
    | Query(name: nat, args: List<Type>)
    | Function(kind: SignatureKind, typeParams: List<nat>, params: List<Param>, ret: Type)
    | Array(element: Type)
    | Tuple(elements: List<Type>)
    | Union(types: List<Type>)
    | Intersection(types: List<Type>)
    | Conditional(check: Type, bound: Type, whenTrue: Type, whenFalse: Type)
    | Infer(name: nat, constraint: Option<Type>)
    | Paren(inner: Type)
    | Operator(op: OperatorKind, operand: Type)
    | IndexedAccess(objectType: Type, indexType: Type)
    | Rest(inner: Type)
    | Optional(inner: Type)
    | Named(dots: bool, name: nat, question: bool, inner: Type)
    | JSDocNullable(inner: Type)

  // ---------- Parenthesizer rules ----------

  function CheckTypeOfConditional(t: Type): Type {
    if t.Function? || t.Conditional? then Paren(t) else t
  }

  function ExtendsTypeOfConditional(t: Type): Type {
    if t.Conditional? then Paren(t) else t
  }

  function ConstituentOfUnion(t: Type): Type {
    if t.Union? || t.Intersection? then Paren(t) else CheckTypeOfConditional(t)
  }

  function ConstituentOfIntersection(t: Type): Type {
    if t.Union? || t.Intersection? then Paren(t) else ConstituentOfUnion(t)
  }

  function OperandOfTypeOperator(t: Type): Type {
    if t.Intersection? then Paren(t) else ConstituentOfIntersection(t)
  }

  function OperandOfReadonly(t: Type): Type {
    if t.Operator? then Paren(t) else OperandOfTypeOperator(t)
  }

  function NonArrayTypeOfPostfix(t: Type): Type {
    if t.Infer? || t.Operator? || t.Query? then Paren(t) else OperandOfTypeOperator(t)
  }

  /** `hasJSDocPostfixQuestion` */
  predicate HasPostfixQuestion(t: Type)
    decreases t
  {
    match t
    case JSDocNullable(_) => true
    case Named(_, _, _, inner) => HasPostfixQuestion(inner)
    case Function(_, _, _, ret) => HasPostfixQuestion(ret)
    case Operator(_, operand) => HasPostfixQuestion(operand)
    case Conditional(_, _, _, f) => HasPostfixQuestion(f)
    case Union(types) => LastHasPostfixQuestion(types)
    case Intersection(types) => LastHasPostfixQuestion(types)
    case Infer(_, constraint) => constraint.Some? && HasPostfixQuestion(constraint.value)
    case _ => false
  }

  predicate LastHasPostfixQuestion(types: List<Type>)
    decreases types
  {
    match types
    case Nil => false
    case Cons(t, Nil) => HasPostfixQuestion(t)
    case Cons(_, tail) => LastHasPostfixQuestion(tail)
  }

  function TypeOfOptional(t: Type): Type {
    if HasPostfixQuestion(t) then Paren(t) else NonArrayTypeOfPostfix(t)
  }

  function LeadingTypeArgument(t: Type): Type {
    if t.Function? && t.typeParams.Cons? then Paren(t) else t
  }

  /** `parenthesizeTypeArguments`: only index 0 can change. */
  function TypeArguments(args: List<Type>): List<Type> {
    match args
    case Nil => Nil
    case Cons(t, tail) => Cons(LeadingTypeArgument(t), tail)
  }

  function MapUnion(types: List<Type>): List<Type> {
    match types
    case Nil => Nil
    case Cons(t, tail) => Cons(ConstituentOfUnion(t), MapUnion(tail))
  }

  function MapIntersection(types: List<Type>): List<Type> {
    match types
    case Nil => Nil
    case Cons(t, tail) => Cons(ConstituentOfIntersection(t), MapIntersection(tail))
  }

  // ---------- Factory ----------

  function CreateReference(name: nat, args: List<Type>): Type { Reference(name, TypeArguments(args)) }
  function CreateQuery(name: nat, args: List<Type>): Type { Query(name, TypeArguments(args)) }
  function CreateArray(element: Type): Type { Array(NonArrayTypeOfPostfix(element)) }
  function CreateIndexedAccess(objectType: Type, indexType: Type): Type { IndexedAccess(NonArrayTypeOfPostfix(objectType), indexType) }
  function CreateOptional(t: Type): Type { Optional(TypeOfOptional(t)) }
  function CreateUnion(types: List<Type>): Type { Union(MapUnion(types)) }
  function CreateIntersection(types: List<Type>): Type { Intersection(MapIntersection(types)) }

  function CreateOperator(op: OperatorKind, t: Type): Type {
    Operator(op, if op.Readonly? then OperandOfReadonly(t) else OperandOfTypeOperator(t))
  }

  function CreateConditional(check: Type, bound: Type, whenTrue: Type, whenFalse: Type): Type {
    Conditional(CheckTypeOfConditional(check), ExtendsTypeOfConditional(bound), whenTrue, whenFalse)
  }

  // ---------- Trees made of factory calls ----------

  /** Not one of the nodes that only a tuple holds, nor the parser's intermediate `T?`. */
  predicate Plain(t: Type) {
    !t.Rest? && !t.Optional? && !t.Named? && !t.JSDocNullable?
  }

  predicate Built(t: Type)
    decreases t, 0
  {
    match t
    case Reference(name, args) => BuiltList(args) && CreateReference(name, args) == t
    case Opaque(_) => true
    case Braces(_) => true
    case Query(name, args) => BuiltList(args) && CreateQuery(name, args) == t
    case Function(_, _, params, ret) => BuiltParams(params) && Built(ret)
    case Array(e) => Built(e) && CreateArray(e) == t
    case Tuple(elements) => BuiltElements(elements)
    case Union(types) => BuiltList(types) && CreateUnion(types) == t
    case Intersection(types) => BuiltList(types) && CreateIntersection(types) == t
    case Conditional(c, e, a, b) => Built(c) && Built(e) && Built(a) && Built(b) && CreateConditional(c, e, a, b) == t
    case Infer(_, constraint) => constraint.Some? ==> Built(constraint.value)
    case Paren(inner) => Built(inner)
    case Operator(op, operand) => Built(operand) && CreateOperator(op, operand) == t
    case IndexedAccess(o, i) => Built(o) && Built(i) && CreateIndexedAccess(o, i) == t
    case _ => false
  }

  predicate BuiltList(ts: List<Type>)
    decreases ts
  {
    ts.Cons? ==> Built(ts.head) && BuiltList(ts.tail)
  }

  predicate BuiltParams(ps: List<Param>)
    decreases ps
  {
    ps.Cons? ==> (ps.head.annotation.Some? ==> Built(ps.head.annotation.value)) && BuiltParams(ps.tail)
  }

  predicate BuiltElement(t: Type)
    decreases t, 1
  {
    match t
    case Rest(inner) => Built(inner)
    case Optional(inner) => Built(inner) && CreateOptional(inner) == t
    case Named(_, _, _, inner) => Built(inner)
    case _ => Built(t)
  }

  predicate BuiltElements(ts: List<Type>)
    decreases ts
  {
    ts.Cons? ==> BuiltElement(ts.head) && BuiltElements(ts.tail)
  }

  lemma BuiltIsPlain(t: Type)
    requires Built(t)
    ensures Plain(t)
  {
  }

  // ---------- Abstract trees ----------

  /** Removes every ParenthesizedType node. */
  function Erase(t: Type): Type
    decreases t
  {
    match t
    case Reference(name, args) => Reference(name, EraseList(args))
    case Opaque(_) => t
    case Braces(_) => t
    case Query(name, args) => Query(name, EraseList(args))
    case Function(kind, tps, params, ret) => Function(kind, tps, EraseParams(params), Erase(ret))
    case Array(e) => Array(Erase(e))
    case Tuple(elements) => Tuple(EraseList(elements))
    case Union(types) => Union(EraseList(types))
    case Intersection(types) => Intersection(EraseList(types))
    case Conditional(c, e, a, b) => Conditional(Erase(c), Erase(e), Erase(a), Erase(b))
    case Infer(name, constraint) => Infer(name, if constraint.Some? then Some(Erase(constraint.value)) else None)
    case Paren(inner) => Erase(inner)
    case Operator(op, operand) => Operator(op, Erase(operand))
    case IndexedAccess(o, i) => IndexedAccess(Erase(o), Erase(i))
    case Rest(inner) => Rest(Erase(inner))
    case Optional(inner) => Optional(Erase(inner))
    case Named(dots, name, question, inner) => Named(dots, name, question, Erase(inner))
    case JSDocNullable(inner) => JSDocNullable(Erase(inner))
  }

  function EraseList(ts: List<Type>): List<Type>
    decreases ts
  {
    if ts.Nil? then Nil else Cons(Erase(ts.head), EraseList(ts.tail))
  }

  function EraseParams(ps: List<Param>): List<Param>
    decreases ps
  {
    if ps.Nil? then Nil
    else
      var p := ps.head;
      Cons(Param(p.dots, p.name, p.question,
                 if p.annotation.Some? then Some(Erase(p.annotation.value)) else None), EraseParams(ps.tail))
  }
}
