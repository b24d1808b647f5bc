/**
 * Whatever the trial for type arguments passes is a text of `TypeArgumentText`, so the trees there
 * are all that it reads.
 */
module TypeArgumentConverse {
  import opened TypeArguments
  import opened TypeArgumentText
  import opened TypeArgumentTrial
  import opened Wrappers

  lemma ExpectIsFlag(t: Raw, ts: seq<Raw>)
    ensures ts == Flag(At(ts, t), t, Expect(t, ts)) && (!At(ts, t) ==> !At(Expect(t, ts), t))
  {
  }

  lemma FirstAndRest(ts: seq<Raw>)
    ensures ts != [] ==> ts == [ts[0]] + ts[1..]
    ensures |ts| > 1 ==> ts[1..] == [ts[1]] + ts[2..] && ts[1..][1..] == ts[2..]
  {
  }

  lemma {:induction false} TypeHasText(ts: seq<Raw>) returns (p: Passage)
    requires ReadType(ts).Stop?
    ensures Text(p, ReadType(ts).rest) == ts && PassesType(p, ReadType(ts).rest)
    decreases |ts|, 6
  {
    OpensFunctionIff(ts);
    if StartsFunction(ts) {
      p := FunctionHasText(ts);
    } else {
      p := UnionHasText(ts);
    }
  }

  lemma {:induction false} FunctionHasText(ts: seq<Raw>) returns (p: Passage)
    requires StartsFunction(ts) && ReadFunction(ts).Stop?
    ensures p.Function? && Text(p, ReadFunction(ts).rest) == ts && PassesFunction(p, ReadFunction(ts).rest)
    decreases |ts|, 5
  {
    OpensFunctionIff(ts);
    ReadFunctionIs(ts);
    var end := BehindParameters(BehindTypeParameters(ts));
    assert |end| < |ts|;
    var header := HeaderHasText(ts);
    var ret := TypeHasText(end);
    hide *;
    p := Function(header, ret);
    FunctionIs(header, ret, end, ReadType(end).rest);
  }

  lemma FunctionIs(header: Header, ret: Passage, end: seq<Raw>, rest: seq<Raw>)
    requires Text(ret, rest) == end && PassesType(ret, rest)
    requires PassesHeader(header, end) && OpensFunction(HeaderText(header, end))
    ensures Text(Function(header, ret), rest) == HeaderText(header, end)
    ensures PassesFunction(Function(header, ret), rest)
  {
    hide PassesHeader, PassesType, HeaderText, OpensFunction;
  }

  lemma {:induction false} HeaderHasText(ts: seq<Raw>) returns (h: Header)
    requires StartsFunction(ts) && (At(ts, Less) ==> ReadTypeParameters(ts[1..]).Stop?)
    ensures var end := BehindParameters(BehindTypeParameters(ts));
            HeaderText(h, end) == ts && PassesHeader(h, end)
    decreases |ts|, 4
  {
    var tail := BehindTypeParameters(ts);
    var end := BehindParameters(tail);
    var typeParameters: Option<TypeParameters> := None;
    var parameters: Option<Parameters> := None;
    FirstAndRest(ts);
    FirstAndRest(tail);
    if At(ts, Less) {
      var list := TypeParametersHaveText(ts[1..]);
      var behind := ReadTypeParameters(ts[1..]).rest;
      ExpectIsFlag(Greater, behind);
      typeParameters := Some(TypeParameters(list, At(behind, Greater)));
      assert PassesTypeParameters(typeParameters.value, tail);
    }
    if At(tail, OpenParen) {
      var list := ParametersHaveText(tail[1..]);
      var behind := AfterParameters(tail[1..]);
      ExpectIsFlag(CloseParen, behind);
      parameters := Some(Parameters(list, At(behind, CloseParen)));
    }
    h := Header(typeParameters, parameters);
  }

  /** A type parameter in front of `end`, without what joins it to the next. */
  ghost predicate IsTypeParameter(modifiers: nat, named: bool, default: Option<Passage>, ts: seq<Raw>, end: seq<Raw>) {
    var name := Flag(named, Word, DefaultText(default, end));
    && ts == Repeat(modifiers, In, name)
    && PassesModifiers(modifiers, name) && (!named ==> !At(name, Word))
    && (if default.Some? then PassesType(default.value, end) else !At(end, Equals))
  }

  lemma {:induction false} TypeParameterHasText(ts: seq<Raw>)
    returns (modifiers: nat, named: bool, default: Option<Passage>)
    requires ts != [] && (ts[0].Word? || ts[0].In?) && ReadTypeParameter(ts).Stop?
    ensures var end := ReadTypeParameter(ts).rest;
            && IsTypeParameter(modifiers, named, default, ts, end)
            && (modifiers > 0 || named || default.Some? <==> |end| < |ts|)
            && |end| <= |ts| && (|end| == |ts| ==> end == ts && ts[0] == In)
    decreases |ts|, 7
  {
    var m := AfterModifiers(ts);
    var name := Expect(Word, m);
    modifiers := ModifiersHaveText(ts);
    named := At(m, Word);
    ExpectIsFlag(Word, m);
    RepeatLength(modifiers, In, m);
    default := None;
    if At(name, Equals) {
      FirstAndRest(name);
      var value := TypeHasText(name[1..]);
      default := Some(value);
    }
  }

  lemma {:induction false} TypeParametersHaveText(ts: seq<Raw>) returns (t: TypeParameterList)
    requires ReadTypeParameters(ts).Stop?
    ensures TypeParameterText(t, ReadTypeParameters(ts).rest) == ts && PassesTypeParameter(t, ReadTypeParameters(ts).rest)
    decreases |ts|, 8
  {
    hide Repeat, DefaultText, PassesModifiers, AfterModifiers, Expect, ReadType, PassesType;
    t := NoTypeParameter;
    if ts != [] && (ts[0].Word? || ts[0].In?) {
      var modifiers, named, default := TypeParameterHasText(ts);
      var end := ReadTypeParameter(ts).rest;
      var tail := LastTypeParameter;
      FirstAndRest(end);
      if At(end, Comma) {
        var more := TypeParametersHaveText(end[1..]);
        tail := CommaThenTypeParameter(more);
      } else if end != [] && !end[0].Greater? && !end[0].OpenParen? {
        if |end| == |ts| {
          var more := TypeParametersHaveText(ts[1..]);
          tail := SkipThenTypeParameter(more);
        } else {
          var more := TypeParametersHaveText(end);
          tail := ThenTypeParameter(more);
        }
      }
      t := TypeParameter(modifiers, named, default, tail);
    }
  }

  lemma {:induction false} UnionHasText(ts: seq<Raw>) returns (p: Passage)
    requires ReadUnion(ts).Stop?
    ensures Text(p, ReadUnion(ts).rest) == ts && PassesUnion(p, ReadUnion(ts).rest)
    decreases |ts|, 4
  {
    hide ReadIntersection, ReadMoreUnion, ReadFunction, StartsFunction;
    hide PassesMembers, PassesIntersection, PassesLeading, MoreText;
    if At(ts, Bar) {
      var first, behind := LeadingHasText(ts, Bar);
      var more := MoreUnionHasText(behind);
      p := Members(Bar, first, more);
    } else {
      var first := IntersectionHasText(ts);
      var more := MoreUnionHasText(ReadIntersection(ts).rest);
      p := Members(Bar, first, more);
    }
  }

  lemma {:induction false} LeadingHasText(ts: seq<Raw>, separator: Raw) returns (p: Passage, rest: seq<Raw>)
    requires At(ts, separator) && (StartsFunction(ts[1..]) ==> ReadFunction(ts[1..]).Stop?)
    ensures Stop(rest) == if StartsFunction(ts[1..]) then ReadFunction(ts[1..]) else Stop(ts[1..])
    ensures p.Leading? && Text(p, rest) == ts && PassesLeading(p, separator, rest)
    decreases |ts|, 0
  {
    FirstAndRest(ts);
    OpensFunctionIff(ts[1..]);
    hide *;
    var member: Option<Passage> := None;
    rest := ts[1..];
    if StartsFunction(ts[1..]) {
      var f := FunctionHasText(ts[1..]);
      member := Some(f);
      rest := ReadFunction(ts[1..]).rest;
    }
    p := Leading(separator, member);
    LeadingIs(ts, separator, member, rest);
  }

  lemma LeadingIs(ts: seq<Raw>, separator: Raw, member: Option<Passage>, rest: seq<Raw>)
    requires At(ts, separator)
    requires if member.Some? then Text(member.value, rest) == ts[1..] && PassesFunction(member.value, rest)
             else rest == ts[1..] && !OpensFunction(rest)
    ensures Text(Leading(separator, member), rest) == ts
    ensures PassesLeading(Leading(separator, member), separator, rest)
  {
    hide PassesFunction, OpensFunction;
    FirstAndRest(ts);
  }

  lemma {:induction false} MoreUnionHasText(ts: seq<Raw>) returns (more: List<Passage>)
    requires ReadMoreUnion(ts).Stop?
    ensures MoreText(Bar, more, ReadMoreUnion(ts).rest) == ts && PassesMembers(more, Bar, ReadMoreUnion(ts).rest)
    decreases |ts|, 0
  {
    more := Nil;
    if At(ts, Bar) {
      FirstAndRest(ts);
      OpensFunctionIff(ts[1..]);
      if StartsFunction(ts[1..]) {
        var head := FunctionHasText(ts[1..]);
        var tail := MoreUnionHasText(ReadFunction(ts[1..]).rest);
        more := Cons(head, tail);
      } else {
        var head := IntersectionHasText(ts[1..]);
        var tail := MoreUnionHasText(ReadIntersection(ts[1..]).rest);
        more := Cons(head, tail);
      }
    }
  }

  lemma {:induction false} IntersectionHasText(ts: seq<Raw>) returns (p: Passage)
    requires ReadIntersection(ts).Stop?
    ensures Text(p, ReadIntersection(ts).rest) == ts && PassesIntersection(p, ReadIntersection(ts).rest)
    ensures p.Members?
    decreases |ts|, 3
  {
    hide ReadNonArray, ReadMoreIntersection, ReadFunction, StartsFunction;
    hide PassesMembers, PassesOperand, PassesLeading, MoreText;
    if At(ts, Ampersand) {
      var first, behind := LeadingHasText(ts, Ampersand);
      var more := MoreIntersectionHasText(behind);
      p := Members(Ampersand, first, more);
    } else {
      var first := OperandHasText(ts);
      var more := MoreIntersectionHasText(ReadNonArray(ts).rest);
      p := Members(Ampersand, first, more);
    }
  }

  lemma {:induction false} MoreIntersectionHasText(ts: seq<Raw>) returns (more: List<Passage>)
    requires ReadMoreIntersection(ts).Stop?
    ensures MoreText(Ampersand, more, ReadMoreIntersection(ts).rest) == ts
    ensures PassesMembers(more, Ampersand, ReadMoreIntersection(ts).rest)
    decreases |ts|, 0
  {
    more := Nil;
    if At(ts, Ampersand) {
      FirstAndRest(ts);
      OpensFunctionIff(ts[1..]);
      if StartsFunction(ts[1..]) {
        var head := FunctionHasText(ts[1..]);
        var tail := MoreIntersectionHasText(ReadFunction(ts[1..]).rest);
        more := Cons(head, tail);
      } else {
        var head := OperandHasText(ts[1..]);
        var tail := MoreIntersectionHasText(ReadNonArray(ts[1..]).rest);
        more := Cons(head, tail);
      }
    }
  }

  lemma {:induction false} OperandHasText(ts: seq<Raw>) returns (p: Passage)
    requires ReadNonArray(ts).Stop?
    ensures Text(p, ReadNonArray(ts).rest) == ts && PassesOperand(p, ReadNonArray(ts).rest)
    ensures !p.Leading? && !p.Function?
    decreases |ts|, 2
  {
    FirstAndRest(ts);
    if ts == [] {
      p := Reference(None, Nil, None);
    } else if ts[0] in {This, StringText, NumericText, BigIntText, TemplateText} {
      p := Simple(ts[0]);
    } else if ts[0].Minus? && |ts| > 1 && IsNumber(ts[1]) {
      p := Negative(ts[1]);
    } else if ts[0].OpenParen? {
      var inner := TypeHasText(ts[1..]);
      var behind := ReadType(ts[1..]).rest;
      ExpectIsFlag(CloseParen, behind);
      p := Group(inner, At(behind, CloseParen));
    } else {
      p := ReferenceHasText(ts);
    }
  }

  lemma {:induction false} ReferenceHasText(ts: seq<Raw>) returns (p: Passage)
    requires ReadReference(ts).Stop?
    requires LacksName(ts) || (ts[0] in NAMES && ts[0] != This)
    ensures p.Reference? && Text(p, ReadReference(ts).rest) == ts && PassesOperand(p, ReadReference(ts).rest)
    decreases |ts|, 1
  {
    FirstAndRest(ts);
    var named := ts != [] && IsName(ts[0]);
    var behind := if named then ts[1..] else ts;
    var tail := AfterDots(behind);
    var dots := DotsHaveText(behind);
    var arguments: Option<Arguments> := None;
    if At(tail, Less) || At(tail, LessJoined) {
      var a := ArgumentsHaveText(tail);
      arguments := Some(a);
    }
    p := Reference(if named then Some(ts[0]) else None, dots, arguments);
  }

  lemma {:induction false} DotsHaveText(ts: seq<Raw>) returns (dots: List<Option<Raw>>)
    ensures DotsText(dots, AfterDots(ts)) == ts && PassesDots(dots, AfterDots(ts))
    decreases |ts|
  {
    dots := Nil;
    if At(ts, Dot) {
      FirstAndRest(ts);
      if |ts| > 1 && IsName(ts[1]) {
        var tail := DotsHaveText(ts[2..]);
        dots := Cons(Some(ts[1]), tail);
      } else {
        var tail := DotsHaveText(ts[1..]);
        dots := Cons(None, tail);
      }
    }
  }

  lemma {:induction false} ArgumentsHaveText(ts: seq<Raw>) returns (a: Arguments)
    requires At(ts, Less) || At(ts, LessJoined)
    requires ReadArguments(ts[1..]).Stop?
    ensures var end := Expect(Greater, ReadArguments(ts[1..]).rest);
            ArgumentsText(a, end) == ts && PassesArguments(a, end)
    decreases |ts|, 0
  {
    FirstAndRest(ts);
    var items := ItemsHaveText(ts[1..]);
    var behind := ReadArguments(ts[1..]).rest;
    ExpectIsFlag(Greater, behind);
    a := Arguments(ts[0], items, At(behind, Greater));
  }

  lemma {:induction false} ItemsHaveText(ts: seq<Raw>) returns (items: Items)
    requires ReadArguments(ts).Stop?
    ensures ItemsText(items, ReadArguments(ts).rest) == ts && PassesItems(items, ReadArguments(ts).rest)
    decreases |ts|, 7
  {
    OpensTypeIff(ts);
    items := NoItem;
    if At(ts, Comma) || StartsType(ts) {
      var head := TypeHasText(ts);
      var behind := ReadType(ts).rest;
      FirstAndRest(behind);
      var tail := LastItem;
      if At(behind, Comma) {
        var more := ItemsHaveText(behind[1..]);
        tail := CommaThen(more);
      }
      items := Item(head, tail);
    }
  }

  // ---------- What the trial answers ----------

  ghost predicate IsPassage(items: Items, rest: seq<Raw>, ts: seq<Raw>) {
    ItemsText(items, rest) == ts && PassesItems(items, rest)
  }

  /** The list of type arguments is read to `rest` exactly when the tokens are a text that ends there. */
  lemma ArgumentsReadIff(ts: seq<Raw>, rest: seq<Raw>)
    ensures ReadArguments(ts) == Stop(rest) <==> exists items :: IsPassage(items, rest, ts)
  {
    hide ReadArguments, ItemsText, PassesItems;
    if ReadArguments(ts) == Stop(rest) {
      var items := ItemsHaveText(ts);
      assert IsPassage(items, rest, ts);
    }
    if items :| IsPassage(items, rest, ts) {
      ItemsPassed(items, rest);
    }
  }

  /** It throws exactly on the tokens that begin with no such text. */
  lemma ThrowsIff(ts: seq<Raw>)
    ensures ReadArguments(ts).Threw? <==> !exists items, rest :: IsPassage(items, rest, ts)
  {
    hide ReadArguments, ItemsText, PassesItems;
    if ReadArguments(ts).Stop? {
      var items := ItemsHaveText(ts);
      assert IsPassage(items, ReadArguments(ts).rest, ts);
    }
    if items, rest :| IsPassage(items, rest, ts) {
      ItemsPassed(items, rest);
    }
  }

  /**
   * The trial diverts the parser exactly when the text of every list of type arguments that the
   * tokens begin with is followed by `>` and by a token that type arguments may be followed by.
   * The tokens begin with one such text at most, and with none exactly when the trial throws.
   */
  lemma DivertsIff(ts: seq<Raw>)
    ensures TrialDiverts(ts) <==>
            forall items, rest :: IsPassage(items, rest, ts) ==> At(rest, Greater) && CanFollow(rest[1..])
    ensures forall items, rest, items', rest' ::
              IsPassage(items, rest, ts) && IsPassage(items', rest', ts) ==> rest == rest'
  {
    hide ReadArguments, ItemsText, PassesItems, CanFollow;
    forall items, rest | IsPassage(items, rest, ts) ensures ReadArguments(ts) == Stop(rest) {
      ItemsPassed(items, rest);
    }
    if ReadArguments(ts).Stop? {
      var items := ItemsHaveText(ts);
      assert IsPassage(items, ReadArguments(ts).rest, ts);
    }
  }
}
