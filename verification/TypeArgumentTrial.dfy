/**
 * The trial for type arguments passes exactly the texts of `TypeArgumentText`.
 */
module TypeArgumentTrial {
  import opened TypeArguments
  import opened TypeArgumentText
  import opened Wrappers

  // ---------- First tokens ----------

  lemma OpensFunctionIff(ts: seq<Raw>)
    ensures StartsFunction(ts) <==> OpensFunction(ts)
  {
  }

  lemma OpensParameterIff(ts: seq<Raw>)
    ensures OpensParameter(ts) <==> ts != [] && StartsParameter(ts[0])
  {
  }

  lemma TakesModifierIff(ts: seq<Raw>)
    ensures TakesModifier(ts) <==>
            ts != [] && (IsName(ts[0]) || ts[0].StringText? || ts[0].NumericText? || ts[0].Star?)
  {
  }

  lemma OpenStep(ts: seq<Raw>, k: nat)
    requires ts != [] && ts[0] == OpenParen && k < |ts| - 1
    ensures AllOpen(ts[1..], k) <==> AllOpen(ts, k + 1)
    ensures ts[1..][k..] == ts[k + 1..]
  {
    if AllOpen(ts[1..], k) {
      forall i | 0 <= i < k + 1 ensures ts[i] == OpenParen {
        if i > 0 {
          assert ts[1..][i - 1] == ts[i];
        }
      }
    }
  }

  lemma OpenedOnce(ts: seq<Raw>, k: nat)
    requires ts != [] && ts[0] == OpenParen
    ensures OpensAt(ts[1..], k) && k > 0 ==> OpensAt(ts, k + 1)
    ensures OpensAt(ts, k + 1) && k > 0 ==> OpensAt(ts[1..], k)
    ensures OpensAt(ts, 1) <==> |ts| > 1 && (BeginsType(ts[1..]) || ts[1] == CloseParen || ts[1] == In)
    ensures !OpensAt(ts, 0)
  {
    if k < |ts| - 1 {
      OpenStep(ts, k);
    }
    hide BeginsType;
    assert AllOpen(ts, 1);
    assert !BeginsType(ts[0..]) by {
      assert ts[0..] == ts;
      BeginsNoParen(ts);
    }
  }

  lemma BeginsNoParen(ts: seq<Raw>)
    ensures At(ts, OpenParen) ==> !BeginsType(ts)
    ensures BeginsType(ts) <==> StartsType(ts) && !At(ts, OpenParen)
  {
  }

  lemma BehindParenIff(ts: seq<Raw>)
    requires At(ts, OpenParen)
    ensures StartsType(ts) <==>
            |ts| > 1 && (BeginsType(ts[1..]) || ts[1] == CloseParen || ts[1] == In
                         || (ts[1] == OpenParen && StartsType(ts[1..])))
  {
    BeginsNoParen(ts[1..]);
  }

  lemma {:induction false} OpensTypeIff(ts: seq<Raw>)
    ensures StartsType(ts) <==> OpensType(ts)
    decreases |ts|
  {
    assert ts[0..] == ts;
    if At(ts, OpenParen) {
      var tail := ts[1..];
      OpensTypeIff(tail);
      BehindParenIff(ts);
      OpenedOnce(ts, 0);
      hide StartsType, BeginsType, AllOpen;
      if At(tail, OpenParen) {
        if k: nat :| OpensAt(tail, k) {
          NotAtOnce(tail, k);
          OpenedOnce(ts, k);
        }
      }
      if k: nat :| OpensAt(ts, k) {
        if k > 1 {
          OpenedOnce(ts, k - 1);
          NotBehindOther(ts, k);
        }
      }
    } else {
      BeginsNoParen(ts);
      if k: nat :| OpensAt(ts, k) {
        assert k == 0;
      }
      assert BeginsType(ts) ==> OpensAt(ts, 0);
    }
  }

  lemma NotAtOnce(ts: seq<Raw>, k: nat)
    requires At(ts, OpenParen) && OpensAt(ts, k)
    ensures k > 0
  {
    assert ts[0..] == ts;
    BeginsNoParen(ts);
  }

  lemma NotBehindOther(ts: seq<Raw>, k: nat)
    requires k > 1 && OpensAt(ts, k)
    ensures At(ts[1..], OpenParen)
  {
    assert ts[1] == OpenParen;
  }

  // ---------- Modifiers and initializers ----------

  lemma {:induction false} ModifiersPassed(n: nat, rest: seq<Raw>)
    requires PassesModifiers(n, rest)
    ensures AfterModifiers(Repeat(n, In, rest)) == rest
  {
    if n == 0 {
      if At(rest, In) {
        TakesModifierIff(rest[1..]);
      }
    } else {
      ModifiersPassed(n - 1, rest);
      var tail := Repeat(n - 1, In, rest);
      assert ([In] + tail)[1..] == tail;
      TakesModifierIff(tail);
    }
  }

  lemma {:induction false} ModifiersHaveText(ts: seq<Raw>) returns (n: nat)
    ensures ts == Repeat(n, In, AfterModifiers(ts)) && PassesModifiers(n, AfterModifiers(ts))
    ensures n == 0 <==> AfterModifiers(ts) == ts
  {
    n := 0;
    if At(ts, In) {
      TakesModifierIff(ts[1..]);
      if TakesModifier(ts[1..]) {
        n := ModifiersHaveText(ts[1..]);
        n := n + 1;
        assert ts == [In] + ts[1..];
      }
    }
  }

  function Deeper(depth: int, x: Raw): int {
    if depth < 0 then -1 else match x case OpenParen => depth + 1 case CloseParen => depth - 1 case _ => depth
  }

  lemma {:induction false} DepthSplits(open: int, x: Raw, ts: seq<Raw>)
    requires open >= 0
    ensures Depth(open, [x] + ts) == Depth(Deeper(open, x), ts)
    decreases |ts|
  {
    var all := [x] + ts;
    if ts == [] {
      assert all[..|all| - 1] == [];
    } else {
      assert all[..|all| - 1] == [x] + ts[..|ts| - 1];
      DepthSplits(open, x, ts[..|ts| - 1]);
    }
  }

  lemma InitializerStep(open: int, x: Raw, ts: seq<Raw>, rest: seq<Raw>)
    requires open >= 0
    ensures IsInitializer(open, [x] + ts, rest) <==>
            !EndsInitializer(open, [x] + ts) && IsInitializer(Deeper(open, x), ts, rest)
  {
    var all := [x] + ts;
    assert all[..0] == [] && all[0..] == all;
    forall k | 0 <= k <= |ts| ensures Depth(open, all[..k + 1]) == Depth(Deeper(open, x), ts[..k]) && all[k + 1..] == ts[k..] {
      assert all[..k + 1] == [x] + ts[..k];
      DepthSplits(open, x, ts[..k]);
    }
    assert all[..|ts| + 1] == all && ts[..|ts|] == ts;
    hide EndsInitializer, Depth;
    if IsInitializer(open, all, rest) {
      forall k | 0 <= k < |ts| ensures !EndsInitializer(Depth(Deeper(open, x), ts[..k]), ts[k..]) {
        assert !EndsInitializer(Depth(open, all[..k + 1]), all[k + 1..]);
      }
      assert !EndsInitializer(Depth(open, all[..0]), all[0..]);
    }
    if !EndsInitializer(open, all) && IsInitializer(Deeper(open, x), ts, rest) {
      forall k | 0 <= k < |all| ensures !EndsInitializer(Depth(open, all[..k]), all[k..]) {
        if k > 0 {
          assert !EndsInitializer(Depth(Deeper(open, x), ts[..k - 1]), ts[k - 1..]);
        }
      }
    }
  }

  lemma {:induction false} InitializerPassed(open: nat, init: seq<Raw>, rest: seq<Raw>)
    requires IsInitializer(open, init, rest)
    ensures AfterInitializer(open, init + rest) == rest
    decreases |init|
  {
    if init == [] {
      assert init + rest == rest;
    } else {
      var x, tail := init[0], init[1..];
      assert init == [x] + tail && (init + rest)[0] == x && (init + rest)[1..] == tail + rest;
      InitializerStep(open, x, tail, rest);
      InitializerPassed(Deeper(open, x), tail, rest);
    }
  }

  lemma {:induction false} InitializerHasText(open: nat, ts: seq<Raw>) returns (init: seq<Raw>)
    ensures ts == init + AfterInitializer(open, ts) && IsInitializer(open, init, AfterInitializer(open, ts))
    decreases |ts|
  {
    init := [];
    if !EndsInitializer(open, ts) {
      var x := ts[0];
      var tail := InitializerHasText(Deeper(open, x), ts[1..]);
      var rest := AfterInitializer(open, ts);
      init := [x] + tail;
      assert ts == [x] + ts[1..] && init + rest == [x] + (tail + rest);
      InitializerStep(open, x, tail, rest);
    }
  }

  // ---------- Parameters ----------

  lemma {:induction false} ParametersPassed(p: ParameterList, rest: seq<Raw>)
    requires PassesParameter(p, rest)
    ensures AfterParameters(ParameterText(p, rest)) == rest
    decreases p
  {
    match p
    case NoParameter => OpensParameterIff(rest);
    case Parameter(_, _, _, tail) =>
      ParameterPassed(p, rest);
      ParameterTailPassed(p, tail, rest);
  }

  /** One parameter, without what joins it to the next. */
  lemma ParameterPassed(p: ParameterList, rest: seq<Raw>)
    requires p.Parameter? && PassesParameter(p, rest)
    ensures OpensParameter(ParameterText(p, rest))
    ensures AfterParameter(ParameterText(p, rest)) == ParameterTailText(p.tail, rest)
    ensures var ts, end := ParameterText(p, rest), ParameterTailText(p.tail, rest);
            |end| <= |ts| && (p.modifiers > 0 || p.name != Unnamed || p.initializer.Some? <==> |end| < |ts|)
  {
    var Parameter(modifiers, name, initializer, tail) := p;
    var end := ParameterTailText(tail, rest);
    var value := InitializerText(initializer, end);
    var named := NameText(name, value);
    var ts := Repeat(modifiers, In, named);
    RepeatLength(modifiers, In, named);
    if initializer.Some? {
      InitializerPassed(0, initializer.value, end);
      assert value[1..] == initializer.value + end;
    }
    if name != ThisName {
      ModifiersPassed(modifiers, named);
      assert name.WordName? || name.LoneIn? ==> named[1..] == value;
      assert AfterModifiers(ts) == named;
    } else {
      assert ts[1..] == value;
    }
  }

  lemma {:induction false} RepeatLength(n: nat, t: Raw, rest: seq<Raw>)
    ensures |Repeat(n, t, rest)| == n + |rest|
    ensures n > 0 ==> Repeat(n, t, rest)[0] == t
  {
    if n > 0 {
      RepeatLength(n - 1, t, rest);
    }
  }

  lemma {:induction false} ParameterTailPassed(p: ParameterList, tail: ParameterTail, rest: seq<Raw>)
    requires p.Parameter? && p.tail == tail && PassesParameter(p, rest)
    requires OpensParameter(ParameterText(p, rest))
    requires var ts, end := ParameterText(p, rest), ParameterTailText(tail, rest);
             AfterParameter(ts) == end && |end| <= |ts|
             && (p.modifiers > 0 || p.name != Unnamed || p.initializer.Some? <==> |end| < |ts|)
    ensures AfterParameters(ParameterText(p, rest)) == rest
    decreases p, 0
  {
    var ts, end := ParameterText(p, rest), ParameterTailText(tail, rest);
    OpensParameterIff(ts);
    match tail
    case LastParameter =>
    case CommaThenParameter(more) =>
      ParametersPassed(more, rest);
      assert end[1..] == ParameterText(more, rest);
    case ThenParameter(more) => ParametersPassed(more, rest);
    case SkipThenParameter(_, more) =>
      ParametersPassed(more, rest);
      assert ts == end && ts[1..] == ParameterText(more, rest);
  }

  /** A parameter in front of `end`, without what joins it to the next. */
  predicate IsParameter(modifiers: nat, name: ParameterName, initializer: Option<seq<Raw>>, ts: seq<Raw>, end: seq<Raw>) {
    var value := InitializerText(initializer, end);
    && ts == Repeat(modifiers, In, NameText(name, value))
    && (name == ThisName ==> modifiers == 0 && initializer.None?)
    && (name != ThisName ==> !At(ts, This) && PassesModifiers(modifiers, NameText(name, value)))
    && (name == LoneIn ==> modifiers == 0)
    && (name == Unnamed ==> !At(value, Word) && (modifiers == 0 ==> !At(value, In)))
    && (if initializer.Some? then IsInitializer(0, initializer.value, end) else name == ThisName || !At(end, Equals))
  }

  function BehindParameterName(ts: seq<Raw>): seq<Raw> {
    var m := AfterModifiers(ts);
    if At(m, Word) then m[1..] else if m == ts then Expect(In, ts) else m
  }

  lemma ParameterNameHasText(ts: seq<Raw>) returns (modifiers: nat, name: ParameterName)
    requires ts != [] && !At(ts, This)
    ensures var value := BehindParameterName(ts);
            && name != ThisName && ts == Repeat(modifiers, In, NameText(name, value))
            && PassesModifiers(modifiers, NameText(name, value))
            && (name == LoneIn ==> modifiers == 0)
            && (name == Unnamed ==> !At(value, Word) && (modifiers == 0 ==> !At(value, In)))
  {
    var m := AfterModifiers(ts);
    modifiers := ModifiersHaveText(ts);
    hide AfterModifiers, PassesModifiers, Repeat;
    name := if At(m, Word) then WordName else if m == ts && At(ts, In) then LoneIn else Unnamed;
    assert m == NameText(name, BehindParameterName(ts));
  }

  lemma ParameterHasText(ts: seq<Raw>)
    returns (modifiers: nat, name: ParameterName, initializer: Option<seq<Raw>>)
    requires ts != []
    ensures IsParameter(modifiers, name, initializer, ts, AfterParameter(ts))
  {
    modifiers, name, initializer := 0, ThisName, None;
    if At(ts, This) {
      assert ts == [This] + ts[1..];
    } else {
      modifiers, name := ParameterNameHasText(ts);
      var value := BehindParameterName(ts);
      assert AfterParameter(ts) == if At(value, Equals) then AfterInitializer(0, value[1..]) else value;
      hide AfterParameter, BehindParameterName, PassesModifiers, Repeat, NameText, IsInitializer;
      if At(value, Equals) {
        var init := InitializerHasText(0, value[1..]);
        initializer := Some(init);
        assert value == [Equals] + value[1..];
      }
      assert value == InitializerText(initializer, AfterParameter(ts));
    }
  }

  lemma {:induction false} ParametersHaveText(ts: seq<Raw>) returns (p: ParameterList)
    ensures ParameterText(p, AfterParameters(ts)) == ts && PassesParameter(p, AfterParameters(ts))
    decreases |ts|
  {
    OpensParameterIff(ts);
    hide Repeat, NameText, InitializerText, PassesModifiers, AfterParameter, IsInitializer, StartsParameter;
    p := NoParameter;
    if OpensParameter(ts) {
      var end := AfterParameter(ts);
      var modifiers, name, initializer := ParameterHasText(ts);
      var tail := LastParameter;
      if At(end, Comma) {
        var more := ParametersHaveText(end[1..]);
        tail := CommaThenParameter(more);
        assert end == [Comma] + end[1..];
      } else if end != [] && !end[0].CloseParen? {
        if |end| == |ts| {
          var more := ParametersHaveText(ts[1..]);
          tail := SkipThenParameter(ts[0], more);
          assert ts == [ts[0]] + ts[1..];
        } else {
          var more := ParametersHaveText(end);
          tail := ThenParameter(more);
        }
      }
      p := Parameter(modifiers, name, initializer, tail);
      ParameterLength(modifiers, name, initializer, ts, end);
    }
  }

  lemma ParameterLength(modifiers: nat, name: ParameterName, initializer: Option<seq<Raw>>, ts: seq<Raw>, end: seq<Raw>)
    requires IsParameter(modifiers, name, initializer, ts, end)
    ensures |end| <= |ts| && (|end| == |ts| ==> end == ts)
    ensures modifiers > 0 || name != Unnamed || initializer.Some? <==> |end| < |ts|
  {
    RepeatLength(modifiers, In, NameText(name, InitializerText(initializer, end)));
  }

  // ---------- Every such text is passed ----------

  lemma Behind(x: Raw, ts: seq<Raw>)
    ensures ([x] + ts)[1..] == ts && At([x] + ts, x)
  {
  }

  lemma {:induction false} TypePassed(p: Passage, rest: seq<Raw>)
    requires PassesType(p, rest)
    ensures ReadType(Text(p, rest)) == Stop(rest)
    decreases p, 4
  {
    OpensFunctionIff(Text(p, rest));
    if p.Function? {
      FunctionPassed(p, rest);
    } else {
      UnionPassed(p, rest);
    }
  }

  lemma {:induction false} FunctionPassed(p: Passage, rest: seq<Raw>)
    requires PassesFunction(p, rest)
    ensures StartsFunction(Text(p, rest)) && ReadFunction(Text(p, rest)) == Stop(rest)
    decreases p, 3
  {
    var ts, end := Text(p, rest), Text(p.ret, rest);
    OpensFunctionIff(ts);
    TypePassed(p.ret, rest);
    assert ts == HeaderText(p.header, end) && PassesHeader(p.header, end);
    TypeParameterSectionPassed(p.header, end);
    ParameterSectionPassed(p.header, end);
    hide *;
    ReadFunctionIs(ts);
  }

  function ParameterSection(h: Header, rest: seq<Raw>): seq<Raw> {
    if h.parameters.Some? then ParametersText(h.parameters.value, rest) else rest
  }

  function BehindTypeParameters(ts: seq<Raw>): (r: seq<Raw>)
    requires At(ts, Less) ==> ReadTypeParameters(ts[1..]).Stop?
    ensures |r| <= |ts| && (At(ts, Less) ==> |r| < |ts|)
  {
    if At(ts, Less) then Expect(Greater, ReadTypeParameters(ts[1..]).rest) else ts
  }

  function BehindParameters(ts: seq<Raw>): (r: seq<Raw>)
    ensures |r| <= |ts| && (At(ts, OpenParen) ==> |r| < |ts|)
  {
    if At(ts, OpenParen) then Expect(CloseParen, AfterParameters(ts[1..])) else ts
  }

  /** Behind its header a function type is read as its return type. */
  lemma ReadFunctionIs(ts: seq<Raw>)
    requires StartsFunction(ts)
    ensures ReadFunction(ts).Stop? && At(ts, Less) ==> ReadTypeParameters(ts[1..]).Stop?
    ensures (At(ts, Less) ==> ReadTypeParameters(ts[1..]).Stop?) ==>
              ReadFunction(ts) == ReadType(BehindParameters(BehindTypeParameters(ts)))
  {
    hide ReadType, ReadTypeParameters, AfterParameters, Expect, StartsFunction;
  }

  lemma ParameterSectionPassed(h: Header, rest: seq<Raw>)
    requires PassesHeader(h, rest)
    ensures BehindParameters(ParameterSection(h, rest)) == rest
  {
    if h.parameters.Some? {
      var Parameters(first, closed) := h.parameters.value;
      var close := Flag(closed, CloseParen, rest);
      ParametersPassed(first, close);
      Behind(OpenParen, ParameterText(first, close));
      Behind(CloseParen, rest);
    }
  }

  lemma {:induction false} TypeParameterSectionPassed(h: Header, rest: seq<Raw>)
    requires PassesHeader(h, rest)
    ensures var ts := HeaderText(h, rest);
            && (At(ts, Less) ==> ReadTypeParameters(ts[1..]).Stop?)
            && BehindTypeParameters(ts) == ParameterSection(h, rest)
    decreases h
  {
    var tail := ParameterSection(h, rest);
    if h.typeParameters.Some? {
      var TypeParameters(first, closed) := h.typeParameters.value;
      var close := Flag(closed, Greater, tail);
      assert PassesTypeParameters(h.typeParameters.value, tail);
      TypeParametersPassed(first, close);
      Behind(Less, TypeParameterText(first, close));
      Behind(Greater, tail);
    }
  }

  lemma {:induction false} UnionPassed(p: Passage, rest: seq<Raw>)
    requires PassesUnion(p, rest)
    ensures ReadUnion(Text(p, rest)) == Stop(rest)
    decreases p, 1
  {
    var tail := MoreText(Bar, p.more, rest);
    MoreUnionPassed(p.more, rest);
    if p.first.Leading? {
      LeadingPassed(p.first, Bar, tail);
    } else {
      IntersectionPassed(p.first, tail);
    }
  }

  /** What follows the separator. */
  lemma {:induction false} LeadingPassed(p: Passage, separator: Raw, rest: seq<Raw>)
    requires PassesLeading(p, separator, rest)
    ensures var ts := Text(p, rest);
            && At(ts, separator)
            && (if StartsFunction(ts[1..]) then ReadFunction(ts[1..]) else Stop(ts[1..])) == Stop(rest)
    decreases p, 4
  {
    var tail := if p.member.Some? then Text(p.member.value, rest) else rest;
    Behind(separator, tail);
    OpensFunctionIff(tail);
    if p.member.Some? {
      FunctionPassed(p.member.value, rest);
    }
  }

  lemma {:induction false} MoreUnionPassed(more: List<Passage>, rest: seq<Raw>)
    requires PassesMembers(more, Bar, rest)
    ensures ReadMoreUnion(MoreText(Bar, more, rest)) == Stop(rest)
    decreases more
  {
    if more.Cons? {
      var next := MoreText(Bar, more.tail, rest);
      Behind(Bar, Text(more.head, next));
      OpensFunctionIff(Text(more.head, next));
      MoreUnionPassed(more.tail, rest);
      if more.head.Function? {
        FunctionPassed(more.head, next);
      } else {
        IntersectionPassed(more.head, next);
      }
    }
  }

  lemma {:induction false} IntersectionPassed(p: Passage, rest: seq<Raw>)
    requires PassesIntersection(p, rest)
    ensures ReadIntersection(Text(p, rest)) == Stop(rest)
    decreases p, 1
  {
    var tail := MoreText(Ampersand, p.more, rest);
    MoreIntersectionPassed(p.more, rest);
    if p.first.Leading? {
      LeadingPassed(p.first, Ampersand, tail);
    } else {
      OperandPassed(p.first, tail);
    }
  }

  lemma {:induction false} MoreIntersectionPassed(more: List<Passage>, rest: seq<Raw>)
    requires PassesMembers(more, Ampersand, rest)
    ensures ReadMoreIntersection(MoreText(Ampersand, more, rest)) == Stop(rest)
    decreases more
  {
    if more.Cons? {
      var next := MoreText(Ampersand, more.tail, rest);
      Behind(Ampersand, Text(more.head, next));
      OpensFunctionIff(Text(more.head, next));
      MoreIntersectionPassed(more.tail, rest);
      if more.head.Function? {
        FunctionPassed(more.head, next);
      } else {
        OperandPassed(more.head, next);
      }
    }
  }

  lemma {:induction false} OperandPassed(p: Passage, rest: seq<Raw>)
    requires PassesOperand(p, rest)
    ensures ReadNonArray(Text(p, rest)) == Stop(rest)
    decreases p, 1
  {
    match p
    case Simple(token) => Behind(token, rest);
    case Negative(number) =>
      Behind(Minus, [number] + rest);
      assert Text(p, rest)[2..] == rest;
    case Group(inner, closed) =>
      TypePassed(inner, Flag(closed, CloseParen, rest));
      Behind(OpenParen, Text(inner, Flag(closed, CloseParen, rest)));
      Behind(CloseParen, rest);
    case Reference(name, dots, arguments) =>
      ReferencePassed(p, rest);
      hide ReadNonArray, ReadReference;
      ReferenceIsRead(Text(p, rest), name);
  }

  lemma ReferenceIsRead(ts: seq<Raw>, name: Option<Raw>)
    requires if name.Some? then name.value in NAMES && name.value != This && At(ts, name.value) else LacksName(ts)
    ensures ReadNonArray(ts) == ReadReference(ts)
  {
  }

  lemma {:induction false} ReferencePassed(p: Passage, rest: seq<Raw>)
    requires p.Reference? && PassesOperand(p, rest)
    ensures ReadReference(Text(p, rest)) == Stop(rest)
    decreases p, 0
  {
    var Reference(name, dots, arguments) := p;
    var tail := if arguments.Some? then ArgumentsText(arguments.value, rest) else rest;
    DotsPassed(dots, tail);
    if arguments.Some? {
      ArgumentsPassed(arguments.value, rest);
    }
    NamePassed(name, DotsText(dots, tail), Text(p, rest));
    hide *;
    ReferenceStops(Text(p, rest), tail, rest);
  }

  /** Behind the name, if there is one. */
  function BehindName(ts: seq<Raw>): seq<Raw> {
    if ts != [] && IsName(ts[0]) then ts[1..] else ts
  }

  lemma NamePassed(name: Option<Raw>, behind: seq<Raw>, ts: seq<Raw>)
    requires ts == if name.Some? then [name.value] + behind else behind
    requires if name.Some? then name.value in NAMES else LacksName(ts)
    ensures BehindName(ts) == behind
  {
  }

  lemma ReferenceStops(ts: seq<Raw>, tail: seq<Raw>, rest: seq<Raw>)
    requires AfterDots(BehindName(ts)) == tail
    requires if At(tail, Less) || At(tail, LessJoined) then
               ReadArguments(tail[1..]).Stop? && Expect(Greater, ReadArguments(tail[1..]).rest) == rest
             else rest == tail
    ensures ReadReference(ts) == Stop(rest)
  {
    hide AfterDots, ReadArguments, IsName, Expect;
  }

  lemma {:induction false} ArgumentsPassed(a: Arguments, rest: seq<Raw>)
    requires PassesArguments(a, rest)
    ensures var ts := ArgumentsText(a, rest);
            && (At(ts, Less) || At(ts, LessJoined))
            && ReadArguments(ts[1..]).Stop? && Expect(Greater, ReadArguments(ts[1..]).rest) == rest
    decreases a
  {
    var Arguments(opening, items, closed) := a;
    var close := Flag(closed, Greater, rest);
    ItemsPassed(items, close);
    Behind(opening, ItemsText(items, close));
    Behind(Greater, rest);
  }

  lemma {:induction false} DotsPassed(dots: List<Option<Raw>>, rest: seq<Raw>)
    requires PassesDots(dots, rest)
    ensures AfterDots(DotsText(dots, rest)) == rest
    decreases dots
  {
    if dots.Cons? {
      var next := DotsText(dots.tail, rest);
      DotsPassed(dots.tail, rest);
      if dots.head.Some? {
        Behind(Dot, [dots.head.value] + next);
        Behind(dots.head.value, next);
        assert DotsText(dots, rest)[2..] == DotsText(dots, rest)[1..][1..];
      } else {
        Behind(Dot, next);
      }
    }
  }

  lemma {:induction false} ItemsPassed(items: Items, rest: seq<Raw>)
    requires PassesItems(items, rest)
    ensures ReadArguments(ItemsText(items, rest)) == Stop(rest)
    decreases items
  {
    OpensTypeIff(ItemsText(items, rest));
    if items.Item? {
      var next := ItemTailText(items.tail, rest);
      TypePassed(items.head, next);
      if items.tail.CommaThen? {
        Behind(Comma, ItemsText(items.tail.items, rest));
        ItemsPassed(items.tail.items, rest);
      }
    }
  }

  lemma {:induction false} TypeParametersPassed(t: TypeParameterList, rest: seq<Raw>)
    requires PassesTypeParameter(t, rest)
    ensures ReadTypeParameters(TypeParameterText(t, rest)) == Stop(rest)
    decreases t, 1
  {
    if t.TypeParameter? {
      var end := TypeParameterTailText(t.tail, rest);
      var ts := TypeParameterText(t, rest);
      TypeParameterPassed(t, rest);
      TypeParametersAre(ts, end);
      hide PassesTypeParameter, TypeParameterText, ReadTypeParameter, ReadTypeParameters;
      match t.tail
      case LastTypeParameter =>
      case CommaThenTypeParameter(more) =>
        TypeParametersPassed(more, rest);
        Behind(Comma, TypeParameterText(more, rest));
      case ThenTypeParameter(more) => TypeParametersPassed(more, rest);
      case SkipThenTypeParameter(more) =>
        TypeParametersPassed(more, rest);
        Behind(In, TypeParameterText(more, rest));
    }
  }

  /** Behind one type parameter. */
  function ReadTypeParameter(ts: seq<Raw>): Read {
    var name := Expect(Word, AfterModifiers(ts));
    if At(name, Equals) then ReadType(name[1..]) else Stop(name)
  }

  lemma TypeParametersAre(ts: seq<Raw>, end: seq<Raw>)
    requires ts != [] && (ts[0].Word? || ts[0].In?) && ReadTypeParameter(ts) == Stop(end)
    ensures ReadTypeParameters(ts) ==
            if At(end, Comma) then ReadTypeParameters(end[1..])
            else if end == [] || end[0].Greater? || end[0].OpenParen? then Stop(end)
            else ReadTypeParameters(if |end| == |ts| then ts[1..] else end)
  {
    hide AfterModifiers, Expect, ReadType;
  }

  /** One type parameter, without what joins it to the next. */
  lemma {:induction false} TypeParameterPassed(t: TypeParameterList, rest: seq<Raw>)
    requires t.TypeParameter? && PassesTypeParameter(t, rest)
    ensures var ts, end := TypeParameterText(t, rest), TypeParameterTailText(t.tail, rest);
            var progress := t.modifiers > 0 || t.named || t.default.Some?;
            && ts != [] && (ts[0].Word? || ts[0].In?)
            && ReadTypeParameter(ts) == Stop(end)
            && |end| <= |ts| && (progress <==> |end| < |ts|) && (!progress ==> end == ts)
            && PassesTypeParameterTail(t.tail, progress, rest)
    decreases t, 0
  {
    var TypeParameter(modifiers, named, default, tail) := t;
    var end := TypeParameterTailText(tail, rest);
    var value := DefaultText(default, end);
    var name := Flag(named, Word, value);
    ModifiersPassed(modifiers, name);
    RepeatLength(modifiers, In, name);
    Behind(Word, value);
    if default.Some? {
      TypePassed(default.value, end);
      Behind(Equals, Text(default.value, end));
    }
    hide ReadType, AfterModifiers;
  }

  lemma TwoParameters(end: seq<Raw>)
    ensures AfterParameters([Word] + ([Comma] + ([Word] + ([CloseParen] + end)))) == [CloseParen] + end
  {
    var last := [Word] + ([CloseParen] + end);
    var names := [Word] + ([Comma] + last);
    Behind(Word, [CloseParen] + end);
    assert AfterParameter(last) == [CloseParen] + end;
    Behind(Word, [Comma] + last);
    Behind(Comma, last);
    assert AfterParameter(names) == [Comma] + last;
  }

  lemma NoTypeThrows(x: Raw, more: seq<Raw>)
    requires x in {Star, StarEquals, QuestionQuestion}
    ensures ReadType([x] + more).Threw?
  {
    var ts := [x] + more;
    assert ReadNonArray(ts).Threw?;
    assert ReadIntersection(ts).Threw?;
    assert ReadUnion(ts).Threw?;
  }

  /** Two names in parentheses are taken for parameters, and what follows for the return type. */
  lemma ThrowsBehindParameters(x: Raw, more: seq<Raw>)
    requires x in {Star, StarEquals, QuestionQuestion}
    ensures TrialDiverts([OpenParen] + ([Word] + ([Comma] + ([Word] + ([CloseParen] + ([x] + more))))))
  {
    var end := [x] + more;
    var names := [Word] + ([Comma] + ([Word] + ([CloseParen] + end)));
    var ts := [OpenParen] + names;
    TwoParameters(end);
    NoTypeThrows(x, more);
    Behind(OpenParen, names);
    Behind(CloseParen, end);
    assert BehindParameters(BehindTypeParameters(ts)) == end;
    hide AfterParameters;
    assert StartsType(ts) && StartsFunction(ts);
    hide StartsType, StartsFunction, BehindParameters, BehindTypeParameters;
    ReadFunctionIs(ts);
    FunctionThrows(ts);
  }

  lemma FunctionThrows(ts: seq<Raw>)
    requires StartsType(ts) && StartsFunction(ts) && ReadFunction(ts).Threw?
    ensures TrialDiverts(ts)
  {
    hide ReadFunction, StartsFunction, StartsType;
    assert ReadType(ts).Threw?;
  }
}
