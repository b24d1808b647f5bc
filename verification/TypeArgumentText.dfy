/**
 * The texts that the trial for type arguments passes, as trees: types in the sense of the grammar,
 * and the malformed ones that the type parser recovers from. The trial stops where such a text
 * ends, and nowhere else.
 */
module TypeArgumentText {
  import opened TypeArguments
  import opened Wrappers

  datatype List<+T> = Nil | Cons(head: T, tail: List<T>)

  /** What one function of the type parser passes. */
  datatype Passage =
    | Simple(token: Raw)                                 // `this` and literals
    | Negative(number: Raw)
    | Group(inner: Passage, closed: bool)                // malformed without its closing parenthesis
    | Reference(name: Option<Raw>, dots: List<Option<Raw>>, arguments: Option<Arguments>)  // names may be missing
    | Function(header: Header, ret: Passage)             // malformed: no `=>` occurs in an expression
    | Members(separator: Raw, first: Passage, more: List<Passage>)  // a union or intersection of one or more
    | Leading(separator: Raw, member: Option<Passage>)   // malformed: a separator with no member before it

  datatype Arguments = Arguments(opening: Raw, items: Items, closed: bool)

  datatype Items = NoItem | Item(head: Passage, tail: ItemTail)

  datatype ItemTail = LastItem | CommaThen(items: Items)

  datatype Header = Header(typeParameters: Option<TypeParameters>, parameters: Option<Parameters>)

  datatype TypeParameters = TypeParameters(first: TypeParameterList, closed: bool)

  datatype TypeParameterList =
    | NoTypeParameter
    | TypeParameter(modifiers: nat, named: bool, default: Option<Passage>, tail: TypeParameterTail)

  datatype TypeParameterTail =
    | LastTypeParameter
    | CommaThenTypeParameter(more: TypeParameterList)
    | ThenTypeParameter(more: TypeParameterList)          // malformed: no comma
    | SkipThenTypeParameter(more: TypeParameterList)      // malformed: a lone `in` is passed over

  datatype Parameters = Parameters(first: ParameterList, closed: bool)

  datatype ParameterName = ThisName | WordName | LoneIn | Unnamed

  datatype ParameterList =
    | NoParameter
    | Parameter(modifiers: nat, name: ParameterName, initializer: Option<seq<Raw>>, tail: ParameterTail)

  datatype ParameterTail =
    | LastParameter
    | CommaThenParameter(more: ParameterList)
    | ThenParameter(more: ParameterList)                  // malformed: no comma
    | SkipThenParameter(skipped: Raw, more: ParameterList) // malformed: a token that no parameter begins with

  // ---------- Texts ----------

  function Flag(b: bool, t: Raw, rest: seq<Raw>): seq<Raw> {
    if b then [t] + rest else rest
  }

  function Repeat(n: nat, t: Raw, rest: seq<Raw>): seq<Raw> {
    if n == 0 then rest else [t] + Repeat(n - 1, t, rest)
  }

  function Text(p: Passage, rest: seq<Raw>): seq<Raw>
    decreases p
  {
    match p
    case Simple(token) => [token] + rest
    case Negative(number) => [Minus] + ([number] + rest)
    case Group(inner, closed) => [OpenParen] + Text(inner, Flag(closed, CloseParen, rest))
    case Reference(name, dots, arguments) =>
      var tail := DotsText(dots, if arguments.Some? then ArgumentsText(arguments.value, rest) else rest);
      if name.Some? then [name.value] + tail else tail
    case Function(header, ret) => HeaderText(header, Text(ret, rest))
    case Members(separator, first, more) => Text(first, MoreText(separator, more, rest))
    case Leading(separator, member) => [separator] + (if member.Some? then Text(member.value, rest) else rest)
  }

  function MoreText(separator: Raw, more: List<Passage>, rest: seq<Raw>): seq<Raw>
    decreases more
  {
    match more
    case Nil => rest
    case Cons(h, tail) => [separator] + Text(h, MoreText(separator, tail, rest))
  }

  function DotsText(dots: List<Option<Raw>>, rest: seq<Raw>): seq<Raw>
    decreases dots
  {
    match dots
    case Nil => rest
    case Cons(name, tail) => [Dot] + (if name.Some? then [name.value] + DotsText(tail, rest) else DotsText(tail, rest))
  }

  function ArgumentsText(a: Arguments, rest: seq<Raw>): seq<Raw>
    decreases a
  {
    [a.opening] + ItemsText(a.items, Flag(a.closed, Greater, rest))
  }

  function ItemsText(items: Items, rest: seq<Raw>): seq<Raw>
    decreases items
  {
    match items
    case NoItem => rest
    case Item(head, tail) => Text(head, ItemTailText(tail, rest))
  }

  function ItemTailText(tail: ItemTail, rest: seq<Raw>): seq<Raw>
    decreases tail
  {
    match tail
    case LastItem => rest
    case CommaThen(items) => [Comma] + ItemsText(items, rest)
  }

  function HeaderText(h: Header, rest: seq<Raw>): seq<Raw>
    decreases h
  {
    var tail := if h.parameters.Some? then ParametersText(h.parameters.value, rest) else rest;
    if h.typeParameters.Some? then TypeParametersText(h.typeParameters.value, tail) else tail
  }

  function TypeParametersText(t: TypeParameters, rest: seq<Raw>): seq<Raw>
    decreases t
  {
    [Less] + TypeParameterText(t.first, Flag(t.closed, Greater, rest))
  }

  function TypeParameterText(t: TypeParameterList, rest: seq<Raw>): seq<Raw>
    decreases t
  {
    match t
    case NoTypeParameter => rest
    case TypeParameter(modifiers, named, default, tail) =>
      Repeat(modifiers, In, Flag(named, Word, DefaultText(default, TypeParameterTailText(tail, rest))))
  }

  function DefaultText(default: Option<Passage>, rest: seq<Raw>): seq<Raw>
    decreases default
  {
    if default.Some? then [Equals] + Text(default.value, rest) else rest
  }

  function TypeParameterTailText(tail: TypeParameterTail, rest: seq<Raw>): seq<Raw>
    decreases tail
  {
    match tail
    case LastTypeParameter => rest
    case CommaThenTypeParameter(more) => [Comma] + TypeParameterText(more, rest)
    case ThenTypeParameter(more) => TypeParameterText(more, rest)
    case SkipThenTypeParameter(more) => [In] + TypeParameterText(more, rest)
  }

  function ParametersText(p: Parameters, rest: seq<Raw>): seq<Raw> {
    [OpenParen] + ParameterText(p.first, Flag(p.closed, CloseParen, rest))
  }

  function NameText(name: ParameterName, rest: seq<Raw>): seq<Raw> {
    match name
    case ThisName => [This] + rest
    case WordName => [Word] + rest
    case LoneIn => [In] + rest
    case Unnamed => rest
  }

  function ParameterText(p: ParameterList, rest: seq<Raw>): seq<Raw>
    decreases p
  {
    match p
    case NoParameter => rest
    case Parameter(modifiers, name, initializer, tail) =>
      Repeat(modifiers, In, NameText(name, InitializerText(initializer, ParameterTailText(tail, rest))))
  }

  function InitializerText(initializer: Option<seq<Raw>>, rest: seq<Raw>): seq<Raw> {
    if initializer.Some? then [Equals] + (initializer.value + rest) else rest
  }

  function ParameterTailText(tail: ParameterTail, rest: seq<Raw>): seq<Raw>
    decreases tail
  {
    match tail
    case LastParameter => rest
    case CommaThenParameter(more) => [Comma] + ParameterText(more, rest)
    case ThenParameter(more) => ParameterText(more, rest)
    case SkipThenParameter(skipped, more) => [skipped] + ParameterText(more, rest)
  }

  // ---------- First tokens ----------

  predicate BeginsType(ts: seq<Raw>) {
    ts != []
    && (ts[0] in {Word, This, Less, Bar, Ampersand, Star, StringText, NumericText, BigIntText, TemplateText}
        || (ts[0] == Minus && |ts| > 1 && ts[1] in {NumericText, BigIntText}))
  }

  predicate AllOpen(ts: seq<Raw>, k: nat) {
    k <= |ts| && forall i :: 0 <= i < k ==> ts[i] == OpenParen
  }

  predicate OpensAt(ts: seq<Raw>, k: nat) {
    k < |ts| && AllOpen(ts, k) && (BeginsType(ts[k..]) || (k > 0 && (ts[k] == CloseParen || ts[k] == In)))
  }

  /** Behind any opening parentheses a type begins, or behind one at least a parameter or nothing does. */
  ghost predicate OpensType(ts: seq<Raw>) {
    exists k :: OpensAt(ts, k)
  }

  /** Type parameters, or a parameter list that is empty or begins with a name in front of `,` or `=`. */
  predicate OpensFunction(ts: seq<Raw>) {
    ts != []
    && (ts[0] == Less
        || (ts[0] == OpenParen && |ts| > 1
            && (ts[1] == CloseParen
                || (|ts| > 2 && ts[1] in {Word, This} && ts[2] in {Comma, Equals}))))
  }

  predicate OpensParameter(ts: seq<Raw>) {
    ts != []
    && ts[0] in {Word, This, In, Less, Bar, Ampersand, Star, StringText, NumericText, BigIntText, TemplateText}
  }

  /** What a modifier can stand in front of. */
  predicate TakesModifier(ts: seq<Raw>) {
    ts != [] && ts[0] in {Word, This, In, InstanceOf, StringText, NumericText, Star}
  }

  const NAMES: set<Raw> := {Word, This, In, InstanceOf}

  // ---------- Which trees are read in front of which tokens ----------

  ghost predicate PassesType(p: Passage, rest: seq<Raw>)
    decreases p, 3
  {
    if p.Function? then PassesFunction(p, rest)
    else !OpensFunction(Text(p, rest)) && PassesUnion(p, rest)
  }

  ghost predicate PassesFunction(p: Passage, rest: seq<Raw>)
    decreases p, 2
  {
    p.Function? && OpensFunction(Text(p, rest)) && PassesHeader(p.header, Text(p.ret, rest)) && PassesType(p.ret, rest)
  }

  ghost predicate PassesUnion(p: Passage, rest: seq<Raw>)
    decreases p, 1
  {
    p.Members? && p.separator == Bar && PassesMembers(p.more, Bar, rest)
    && var tail := MoreText(Bar, p.more, rest);
       if p.first.Leading? then PassesLeading(p.first, Bar, tail)
       else !At(Text(p.first, tail), Bar) && PassesIntersection(p.first, tail)
  }

  ghost predicate PassesIntersection(p: Passage, rest: seq<Raw>)
    decreases p, 0
  {
    p.Members? && p.separator == Ampersand && PassesMembers(p.more, Ampersand, rest)
    && var tail := MoreText(Ampersand, p.more, rest);
       if p.first.Leading? then PassesLeading(p.first, Ampersand, tail)
       else !At(Text(p.first, tail), Ampersand) && PassesOperand(p.first, tail)
  }

  /** Behind a separator with nothing before it only a function type is read. */
  ghost predicate PassesLeading(p: Passage, separator: Raw, rest: seq<Raw>)
    decreases p, 3
  {
    p.Leading? && p.separator == separator
    && if p.member.Some? then PassesFunction(p.member.value, rest) else !OpensFunction(rest)
  }

  ghost predicate PassesMembers(more: List<Passage>, separator: Raw, rest: seq<Raw>)
    decreases more
  {
    match more
    case Nil => !At(rest, separator)
    case Cons(h, tail) =>
      var next := MoreText(separator, tail, rest);
      && PassesMembers(tail, separator, rest)
      && if h.Function? then PassesFunction(h, next)
         else !OpensFunction(Text(h, next))
              && if separator == Bar then PassesIntersection(h, next) else PassesOperand(h, next)
  }

  ghost predicate PassesOperand(p: Passage, rest: seq<Raw>)
    decreases p, 0
  {
    match p
    case Simple(token) => token in {This, StringText, NumericText, BigIntText, TemplateText}
    case Negative(number) => number in {NumericText, BigIntText}
    case Group(inner, closed) =>
      PassesType(inner, Flag(closed, CloseParen, rest)) && (!closed ==> !At(rest, CloseParen))
    case Reference(name, dots, arguments) =>
      var tail := if arguments.Some? then ArgumentsText(arguments.value, rest) else rest;
      && (if name.Some? then name.value in NAMES && name.value != This else LacksName(Text(p, rest)))
      && PassesDots(dots, tail)
      && (if arguments.Some? then PassesArguments(arguments.value, rest) else !At(rest, Less) && !At(rest, LessJoined))
    case _ => false
  }

  /** A type is missing here: none of the tokens that begin one, or that the parser takes for a JSDoc type. */
  predicate LacksName(ts: seq<Raw>) {
    ts == []
    || (ts[0] !in NAMES
        && ts[0] !in {StringText, NumericText, BigIntText, TemplateText, OpenParen, Star, StarEquals, QuestionQuestion}
        && !(ts[0] == Minus && |ts| > 1 && ts[1] in {NumericText, BigIntText}))
  }

  predicate PassesDots(dots: List<Option<Raw>>, rest: seq<Raw>)
    decreases dots
  {
    match dots
    case Nil => !At(rest, Dot)
    case Cons(name, tail) =>
      PassesDots(tail, rest)
      && if name.Some? then name.value in NAMES
         else
           var next := DotsText(tail, rest);
           next == [] || next[0] !in NAMES
  }

  ghost predicate PassesArguments(a: Arguments, rest: seq<Raw>)
    decreases a
  {
    (a.opening == Less || a.opening == LessJoined)
    && PassesItems(a.items, Flag(a.closed, Greater, rest)) && (!a.closed ==> !At(rest, Greater))
  }

  /** An item is read wherever a comma stands or a type begins. */
  ghost predicate PassesItems(items: Items, rest: seq<Raw>)
    decreases items
  {
    match items
    case NoItem => !At(rest, Comma) && !OpensType(rest)
    case Item(head, tail) =>
      var next := ItemTailText(tail, rest);
      && (At(Text(head, next), Comma) || OpensType(Text(head, next)))
      && PassesType(head, next) && PassesItemTail(tail, rest)
  }

  ghost predicate PassesItemTail(tail: ItemTail, rest: seq<Raw>)
    decreases tail
  {
    match tail
    case LastItem => !At(rest, Comma)
    case CommaThen(items) => PassesItems(items, rest)
  }

  ghost predicate PassesHeader(h: Header, rest: seq<Raw>)
    decreases h
  {
    var tail := if h.parameters.Some? then ParametersText(h.parameters.value, rest) else rest;
    && (if h.typeParameters.Some? then PassesTypeParameters(h.typeParameters.value, tail) else h.parameters.Some?)
    && (if h.parameters.Some? then PassesParameters(h.parameters.value, rest) else !At(rest, OpenParen))
  }

  ghost predicate PassesTypeParameters(t: TypeParameters, rest: seq<Raw>)
    decreases t
  {
    PassesTypeParameter(t.first, Flag(t.closed, Greater, rest)) && (!t.closed ==> !At(rest, Greater))
  }

  predicate PassesModifiers(modifiers: nat, rest: seq<Raw>) {
    (modifiers > 0 ==> TakesModifier(rest)) && !(At(rest, In) && TakesModifier(rest[1..]))
  }

  ghost predicate PassesTypeParameter(t: TypeParameterList, rest: seq<Raw>)
    decreases t
  {
    match t
    case NoTypeParameter => rest == [] || rest[0] !in {Word, In}
    case TypeParameter(modifiers, named, default, tail) =>
      var end := TypeParameterTailText(tail, rest);
      var name := Flag(named, Word, DefaultText(default, end));
      var text := Repeat(modifiers, In, name);
      && text != [] && text[0] in {Word, In}
      && PassesModifiers(modifiers, name) && (!named ==> !At(name, Word))
      && (if default.Some? then PassesType(default.value, end) else !At(end, Equals))
      && PassesTypeParameterTail(tail, modifiers > 0 || named || default.Some?, rest)
  }

  ghost predicate PassesTypeParameterTail(tail: TypeParameterTail, progress: bool, rest: seq<Raw>)
    decreases tail
  {
    match tail
    case LastTypeParameter => rest == [] || rest[0] in {Greater, OpenParen}
    case CommaThenTypeParameter(more) => PassesTypeParameter(more, rest)
    case ThenTypeParameter(more) =>
      var next := TypeParameterText(more, rest);
      progress && next != [] && next[0] !in {Comma, Greater, OpenParen} && PassesTypeParameter(more, rest)
    case SkipThenTypeParameter(more) => !progress && PassesTypeParameter(more, rest)
  }

  predicate PassesParameters(p: Parameters, rest: seq<Raw>)
    decreases p
  {
    PassesParameter(p.first, Flag(p.closed, CloseParen, rest)) && (!p.closed ==> !At(rest, CloseParen))
  }

  predicate PassesParameter(p: ParameterList, rest: seq<Raw>)
    decreases p
  {
    match p
    case NoParameter => !OpensParameter(rest)
    case Parameter(modifiers, name, initializer, tail) =>
      var end := ParameterTailText(tail, rest);
      var value := InitializerText(initializer, end);
      var text := Repeat(modifiers, In, NameText(name, value));
      && OpensParameter(text)
      && (name == ThisName ==> modifiers == 0 && initializer.None?)
      && (name != ThisName ==> !At(text, This) && PassesModifiers(modifiers, NameText(name, value)))
      && (name == LoneIn ==> modifiers == 0)
      && (name == Unnamed ==> !At(value, Word) && (modifiers == 0 ==> !At(value, In)))
      && (if initializer.Some? then IsInitializer(0, initializer.value, end) else name == ThisName || !At(end, Equals))
      && PassesParameterTail(tail, modifiers > 0 || name != Unnamed || initializer.Some?, rest)
  }

  predicate PassesParameterTail(tail: ParameterTail, progress: bool, rest: seq<Raw>)
    decreases tail
  {
    match tail
    case LastParameter => rest == [] || rest[0] == CloseParen
    case CommaThenParameter(more) => PassesParameter(more, rest)
    case ThenParameter(more) =>
      var next := ParameterText(more, rest);
      progress && next != [] && next[0] !in {Comma, CloseParen} && PassesParameter(more, rest)
    case SkipThenParameter(skipped, more) =>
      !progress && skipped !in {Comma, CloseParen} && PassesParameter(more, rest)
  }

  /** How many parentheses are open behind `ts`, from `open` on; -1 once one has been closed too many. */
  function Depth(open: int, ts: seq<Raw>): int {
    if ts == [] then open
    else
      var d := Depth(open, ts[..|ts| - 1]);
      if d < 0 then -1
      else match ts[|ts| - 1] case OpenParen => d + 1 case CloseParen => d - 1 case _ => d
  }

  predicate EndsInitializer(depth: int, ts: seq<Raw>) {
    ts == [] || (depth == 0 && (ts[0] == Comma || ts[0] == CloseParen))
  }

  /** The tokens up to a comma or closing parenthesis that stands outside all parentheses, or to the end. */
  predicate IsInitializer(open: int, ts: seq<Raw>, rest: seq<Raw>) {
    (forall k :: 0 <= k < |ts| ==> !EndsInitializer(Depth(open, ts[..k]), ts[k..]))
    && EndsInitializer(Depth(open, ts), rest)
  }
}
