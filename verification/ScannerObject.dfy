/**
 * The scanner object: `scan` with its loops, and speculation by saving and restoring six fields.
 * Its methods are proved against the functions of `ScannerSpec` and `ScannerRuns`.
 */
module ScannerObject {
  import opened ScannerText
  import opened ScannerSpec
  import opened ScannerRuns
  import opened ScannerPunctuators

  const LEAD_FLAGS: set<Flag> := {PrecedingLineBreak, PrecedingJSDocComment}

  /** What skipping mode keeps: the trivia passed so far and the trivia ahead make up the lead. */
  ghost predicate LeadsTo(t: string, start: nat, pos: nat, flags: set<Flag>, directives: seq<Directive>) {
    start <= |t| && pos <= |t|
    && var rest := Skip(t, pos);
       Skip(t, start) == Lead(rest.end, flags + rest.flags, directives + rest.directives)
  }

  lemma LeadStarts(t: string, start: nat)
    requires start <= |t|
    ensures LeadsTo(t, start, start, {}, [])
  {
    var lead := Skip(t, start);
    assert {} + lead.flags == lead.flags && [] + lead.directives == lead.directives;
  }

  lemma PassOne(t: string, start: nat, pos: nat, flags: set<Flag>, directives: seq<Directive>)
    requires StartsTrivia(t, pos) && LeadsTo(t, start, pos, flags, directives)
    ensures LeadsTo(t, start, SkipOne(t, pos), flags + SkipFlags(t, pos), directives + Directives(t, pos))
    ensures SkipFlags(t, pos) <= LEAD_FLAGS
  {
    assert SkipFlags(t, pos) <= LEAD_FLAGS;
    hide SkipOne, SkipFlags, Directives;
    var rest := Skip(t, SkipOne(t, pos));
    assert Skip(t, pos) == Lead(rest.end, SkipFlags(t, pos) + rest.flags, Directives(t, pos) + rest.directives);
    assert flags + (SkipFlags(t, pos) + rest.flags) == (flags + SkipFlags(t, pos)) + rest.flags;
    assert directives + (Directives(t, pos) + rest.directives) == (directives + Directives(t, pos)) + rest.directives;
  }

  lemma LeadEnds(t: string, start: nat, pos: nat, flags: set<Flag>, directives: seq<Directive>)
    requires pos <= |t| && !StartsTrivia(t, pos) && LeadsTo(t, start, pos, flags, directives)
    ensures Skip(t, start) == Lead(pos, flags, directives)
  {
  }

  /** Characters other than `_` between two stretches add no flag. */
  lemma SeparatorPasses(t: string, a: nat, b: nat, c: nat, d: nat)
    requires a <= b <= c <= d <= |t| && '_' !in t[b..c]
    ensures Separator(t, a, d) == Separator(t, a, b) + Separator(t, c, d)
  {
    assert t[a..d] == t[a..b] + t[b..c] + t[c..d];
  }

  lemma NoSeparator(t: string, a: nat)
    requires a <= |t|
    ensures Separator(t, a, a) == {}
  {
  }

  lemma SeparatorIsOnlyThat(t: string, a: nat, b: nat)
    requires a <= b <= |t|
    ensures Separator(t, a, b) <= {ContainsSeparator}
  {
  }

  lemma LineBreakAtEnd(t: string, from: nat, to: nat)
    requires from <= to < |t|
    ensures HasLineBreak(t, from, to + 1) <==> HasLineBreak(t, from, to) || IsLineBreak(t[to])
  {
  }

  class Scanner {
    var text: string
    var end: nat
    var pos: nat
    var startPos: nat
    var tokenPos: nat
    var token: Kind
    var tokenValue: Value
    var tokenFlags: set<Flag>
    var skipTrivia: bool
    var commentDirectives: seq<Directive>

    ghost predicate Valid()
      reads this
    {
      end == |text| && pos <= end && InDomain(text)
    }

    function State(): Saved
      reads this
    {
      Saved(pos, startPos, tokenPos, token, tokenValue, tokenFlags)
    }

    constructor (skipTrivia: bool)
      ensures Valid() && text == "" && this.skipTrivia == skipTrivia && commentDirectives == []
      ensures State() == Saved(0, 0, 0, Unknown, NoValue, {})
    {
      text, end, this.skipTrivia, commentDirectives := "", 0, skipTrivia, [];
      pos, startPos, tokenPos, token, tokenValue, tokenFlags := 0, 0, 0, Unknown, NoValue, {};
    }

    /** `setText` for a whole text and a start position. */
    method SetText(newText: string, start: nat)
      requires InDomain(newText) && start <= |newText|
      modifies this
      ensures Valid() && text == newText && skipTrivia == old(skipTrivia)
      ensures State() == Saved(start, start, start, Unknown, NoValue, {})
      ensures commentDirectives == old(commentDirectives)
    {
      text, end := newText, |newText|;
      pos, startPos, tokenPos, token, tokenValue, tokenFlags := start, start, start, Unknown, NoValue, {};
    }

    // ---------- Literals and names ----------

    method ScanEscapeSequence()
      requires Valid() && pos < end
      modifies this`pos
      ensures Valid() && pos == EscapeEnd(text, old(pos))
    {
      hide InDomain;
      pos := pos + 1;
      if pos >= end {
        return;
      }
      var ch := At(text, pos);
      pos := pos + 1;
      if ch == CR && pos < end && At(text, pos) == LF {
        pos := pos + 1;
      }
    }

    method ScanString()
      requires Valid() && pos < end
      modifies this`pos, this`tokenFlags
      ensures Valid()
      ensures pos == StringEnd(text, text[old(pos)], old(pos) + 1).end
      ensures tokenFlags == old(tokenFlags)
                + if StringEnd(text, text[old(pos)], old(pos) + 1).terminated then {} else {Unterminated}
    {
      hide InDomain;
      var quote := At(text, pos);
      pos := pos + 1;
      ghost var whole := StringEnd(text, quote, pos);
      while true
        invariant Valid() && StringEnd(text, quote, pos) == whole
        invariant tokenFlags == old(tokenFlags)
        decreases end - pos
      {
        if pos >= end {
          tokenFlags := tokenFlags + {Unterminated};
          break;
        }
        var ch := At(text, pos);
        if ch == quote {
          pos := pos + 1;
          break;
        }
        if ch == '\\' {
          ScanEscapeSequence();
          continue;
        }
        if IsLineBreak(ch) {
          tokenFlags := tokenFlags + {Unterminated};
          break;
        }
        pos := pos + 1;
      }
    }

    method ScanTemplate() returns (kind: Kind)
      requires Valid() && pos < end
      modifies this`pos, this`tokenFlags, this`tokenValue
      ensures Valid() && tokenValue == ReadAt(tokenPos) && HasValue(kind)
      ensures var x := Backtick(text, old(pos));
              pos == x.end && kind == x.kind && tokenFlags == old(tokenFlags) + x.flags
    {
      hide InDomain;
      pos := pos + 1;
      ghost var whole := TemplateEnd(text, pos);
      while true
        invariant Valid() && TemplateEnd(text, pos) == whole
        invariant tokenFlags == old(tokenFlags)
        decreases end - pos
      {
        if pos >= end {
          tokenFlags := tokenFlags + {Unterminated};
          kind := NoSubstitutionTemplateLiteral;
          break;
        }
        var ch := At(text, pos);
        if ch == '`' {
          pos := pos + 1;
          kind := NoSubstitutionTemplateLiteral;
          break;
        }
        if ch == '$' && pos + 1 < end && At(text, pos + 1) == '{' {
          pos := pos + 2;
          kind := TemplateHead;
          break;
        }
        if ch == '\\' {
          ScanEscapeSequence();
          continue;
        }
        if ch == CR {
          pos := pos + 1;
          if pos < end && At(text, pos) == LF {
            pos := pos + 1;
          }
          continue;
        }
        pos := pos + 1;
      }
      tokenValue := ReadAt(tokenPos);
    }

    /** `scanNumberFragment`, `scanBinaryOrOctalDigits` and `scanMinimumNumberOfHexDigits`: digits of a base and `_`. */
    method ScanDigits(base: nat)
      requires Valid()
      modifies this`pos, this`tokenFlags
      ensures Valid() && pos == DigitsEnd(base, text, old(pos))
      ensures tokenFlags == old(tokenFlags) + Separator(text, old(pos), pos)
    {
      hide InDomain;
      ghost var start := pos;
      while true
        invariant Valid() && start <= pos && DigitsEnd(base, text, pos) == DigitsEnd(base, text, start)
        invariant tokenFlags == old(tokenFlags) + Separator(text, start, pos)
        decreases end - pos
      {
        var ch := At(text, pos);
        if ch == '_' {
          assert text[start..pos + 1] == text[start..pos] + ['_'];
          tokenFlags := tokenFlags + {ContainsSeparator};
          pos := pos + 1;
          continue;
        }
        if !IsDigitOf(base, ch) {
          break;
        }
        assert text[start..pos + 1] == text[start..pos] + [ch];
        pos := pos + 1;
      }
    }

    method ScanOctalDigits()
      requires Valid()
      modifies this`pos
      ensures Valid() && pos == OctalEnd(text, old(pos))
    {
      hide InDomain;
      while IsOctalDigit(At(text, pos))
        invariant Valid() && OctalEnd(text, pos) == OctalEnd(text, old(pos))
        decreases end - pos
      {
        pos := pos + 1;
      }
    }

    /** `scanIdentifierParts`, also the loop of `scanIdentifier` behind the first character. */
    method ScanIdentifierParts()
      requires Valid()
      modifies this`pos
      ensures Valid() && pos == IdentifierEnd(text, old(pos))
    {
      hide InDomain;
      while pos < end && IsIdentifierPart(At(text, pos))
        invariant Valid() && IdentifierEnd(text, pos) == IdentifierEnd(text, old(pos))
      {
        pos := pos + 1;
      }
    }

    method ScanIdentifier()
      requires Valid() && pos < end && IsIdentifierStart(text[pos])
      modifies this`pos, this`tokenValue
      ensures Valid() && pos == IdentifierEnd(text, old(pos)) && tokenValue == ReadAt(tokenPos)
    {
      hide InDomain;
      pos := pos + 1;
      ScanIdentifierParts();
      tokenValue := ReadAt(tokenPos);
    }

    method CheckForIdentifierStartAfterNumericLiteral()
      requires Valid()
      modifies this`pos
      ensures Valid() && pos == AfterNumber(text, old(pos))
    {
      hide InDomain;
      if !IsIdentifierStart(At(text, pos)) {
        return;
      }
      var identifierStart := pos;
      ScanIdentifierParts();
      if !(pos - identifierStart == 1 && At(text, identifierStart) == 'n') {
        pos := identifierStart;
      }
    }

    method CheckBigIntSuffix() returns (kind: Kind)
      requires Valid()
      modifies this`pos, this`tokenValue
      ensures Valid() && tokenValue == ReadAt(tokenPos)
      ensures var x := Suffixed(text, old(pos), {}); pos == x.end && kind == x.kind
    {
      hide InDomain;
      tokenValue := ReadAt(tokenPos);
      if At(text, pos) == 'n' {
        pos := pos + 1;
        return BigIntLiteral;
      }
      return NumericLiteral;
    }

    /** The fragments of `scanNumber` up to the exponent. */
    method ScanMantissa() returns (decimalFragmentSet: bool)
      requires Valid()
      modifies this`pos, this`tokenFlags
      ensures Valid() && pos == MantissaEnd(text, old(pos)) && decimalFragmentSet == HasFraction(text, old(pos))
      ensures tokenFlags == old(tokenFlags) + Separator(text, old(pos), pos)
    {
      hide InDomain, DigitsEnd, Separator;
      ScanDigits(10);
      ghost var dot := pos;
      decimalFragmentSet := false;
      if At(text, pos) == '.' {
        pos := pos + 1;
        ScanDigits(10);
        decimalFragmentSet := true;
        assert text[dot..dot + 1] == ['.'];
        SeparatorPasses(text, old(pos), dot, dot + 1, pos);
      }
    }

    /** The exponent of `scanNumber`. */
    method ScanExponent()
      requires Valid() && pos < end && (text[pos] == 'e' || text[pos] == 'E')
      modifies this`pos, this`tokenFlags
      ensures Valid() && pos == ExponentEnd(text, old(pos))
      ensures tokenFlags == old(tokenFlags) + {Scientific} + Separator(text, old(pos), pos)
    {
      hide InDomain, DigitsEnd, Separator;
      pos := pos + 1;
      tokenFlags := tokenFlags + {Scientific};
      if At(text, pos) == '+' || At(text, pos) == '-' {
        pos := pos + 1;
      }
      ghost var digits := pos;
      assert forall i :: old(pos) <= i < digits ==> text[i] in "eE+-";
      ScanDigits(10);
      SeparatorPasses(text, old(pos), old(pos), digits, pos);
      NoSeparator(text, old(pos));
    }

    method ScanNumber() returns (kind: Kind)
      requires Valid() && pos < end && (IsDigit(text[pos]) || text[pos] == '.') && Scientific !in tokenFlags
      modifies this`pos, this`tokenFlags, this`tokenValue
      ensures Valid() && tokenValue == ReadAt(tokenPos)
      ensures var x := Number(text, old(pos));
              pos == x.end && kind == x.kind && tokenFlags == old(tokenFlags) + x.flags
    {
      hide InDomain, MantissaEnd, HasFraction, ExponentEnd, AfterNumber, Separator;
      var decimalFragmentSet := ScanMantissa();
      ghost var mark := pos;
      assert Scientific !in tokenFlags by {
        SeparatorIsOnlyThat(text, old(pos), mark);
      }
      if At(text, pos) == 'E' || At(text, pos) == 'e' {
        ScanExponent();
        SeparatorPasses(text, old(pos), mark, mark, pos);
      }
      tokenValue := ReadAt(tokenPos);
      if decimalFragmentSet || Scientific in tokenFlags {
        CheckForIdentifierStartAfterNumericLiteral();
        kind := NumericLiteral;
      } else {
        kind := CheckBigIntSuffix();
        CheckForIdentifierStartAfterNumericLiteral();
      }
    }

    /** The cases of a leading zero that name a base. */
    method ScanPrefixed(base: nat, specifier: Flag) returns (kind: Kind)
      requires Valid() && pos + 2 <= end
      modifies this`pos, this`tokenFlags, this`tokenValue
      ensures Valid() && tokenValue == ReadAt(tokenPos) && HasValue(kind)
      ensures var x := Prefixed(base, specifier, text, old(pos));
              pos == x.end && kind == x.kind && tokenFlags == old(tokenFlags) + x.flags
    {
      hide InDomain, DigitsEnd, Separator;
      pos := pos + 2;
      ScanDigits(base);
      tokenFlags := tokenFlags + {specifier};
      kind := CheckBigIntSuffix();
    }

    /** The case of a leading zero. */
    method ScanZero() returns (kind: Kind)
      requires Valid() && pos < end && text[pos] == '0' && Scientific !in tokenFlags
      modifies this`pos, this`tokenFlags, this`tokenValue
      ensures Valid() && tokenValue == ReadAt(tokenPos) && HasValue(kind)
      ensures var x := Zero(text, old(pos));
              pos == x.end && kind == x.kind && tokenFlags == old(tokenFlags) + x.flags
    {
      hide InDomain, OctalEnd, Number, Prefixed;
      var next := At(text, pos + 1);
      if pos + 2 < end && (next == 'X' || next == 'x') {
        kind := ScanPrefixed(16, HexSpecifier);
      } else if pos + 2 < end && (next == 'B' || next == 'b') {
        kind := ScanPrefixed(2, BinarySpecifier);
      } else if pos + 2 < end && (next == 'O' || next == 'o') {
        kind := ScanPrefixed(8, OctalSpecifier);
      } else if pos + 1 < end && IsOctalDigit(next) {
        ScanOctalDigits();
        tokenValue := ReadAt(tokenPos);
        tokenFlags := tokenFlags + {Octal};
        kind := NumericLiteral;
      } else {
        kind := ScanNumber();
      }
    }

    /** The case of `#`. */
    method ScanHash() returns (kind: Kind)
      requires Valid() && pos < end && text[pos] == '#'
      modifies this`pos, this`tokenValue
      ensures var x := Hash(text, old(pos)); Valid() && pos == x.end && kind == x.kind
      ensures tokenValue == if HasValue(kind) then ReadAt(tokenPos) else old(tokenValue)
    {
      hide InDomain;
      if pos != 0 && At(text, pos + 1) == '!' {
        pos := pos + 1;
        return Unknown;
      }
      pos := pos + 1;
      if IsIdentifierStart(At(text, pos)) {
        ScanIdentifier();
      } else {
        tokenValue := ReadAt(tokenPos);
      }
      return PrivateIdentifier;
    }

    /** The cases of `scan` that return a token, by its first character. */
    method ScanToken() returns (kind: Kind)
      requires Valid() && pos < end && tokenPos == pos && !StartsTrivia(text, pos) && tokenFlags <= LEAD_FLAGS
      modifies this`pos, this`token, this`tokenFlags, this`tokenValue
      ensures Valid() && kind == token
      ensures var x := Token(text, old(pos));
              pos == x.end && token == x.kind && tokenFlags == old(tokenFlags) + x.flags
              && tokenValue == if HasValue(x.kind) then ReadAt(tokenPos) else old(tokenValue)
    {
      hide StringEnd, Number, Zero, Hash, Backtick, Punctuator, IsConflictMarker, Separator, IdentifierEnd;
      var ch := At(text, pos);
      if ch == '"' || ch == '\'' {
        ScanString();
        tokenValue := ReadAt(tokenPos);
        kind := StringLiteral;
      } else if ch == '`' {
        kind := ScanTemplate();
      } else if ch == '0' {
        kind := ScanZero();
      } else if IsDigit(ch) || (ch == '.' && IsDigit(At(text, pos + 1))) {
        kind := ScanNumber();
      } else if ch == '#' {
        kind := ScanHash();
      } else if IsIdentifierStart(ch) {
        ScanIdentifier();
        kind := Word(text[tokenPos..pos]);
      } else {
        assert ch in "<=>|" ==> !IsConflictMarker(text, pos);
        var spelling := Punctuator(text, pos);
        if spelling != "" {
          PunctuatorIsSpelled(text, pos);
          pos := pos + |spelling|;
          kind := Punctuation(spelling);
        } else {
          pos := pos + 1;
          kind := Unknown;
        }
      }
      token := kind;
    }

    // ---------- Trivia ----------

    method ScanBlanks()
      requires Valid()
      modifies this`pos
      ensures Valid() && pos == BlankEnd(text, old(pos))
    {
      hide InDomain;
      while pos < end && IsBlank(At(text, pos))
        invariant Valid() && BlankEnd(text, pos) == BlankEnd(text, old(pos))
      {
        pos := pos + 1;
      }
    }

    method ScanSingleLineComment()
      requires Valid() && StartsComment(text, pos, '/') && tokenPos == pos
      modifies this`pos, this`commentDirectives
      ensures Valid() && pos == LineEnd(text, old(pos) + 2)
      ensures commentDirectives == old(commentDirectives) + Directives(text, old(pos))
    {
      hide InDomain;
      pos := pos + 2;
      while pos < end
        invariant Valid() && LineEnd(text, pos) == LineEnd(text, old(pos) + 2)
        invariant commentDirectives == old(commentDirectives)
      {
        if IsLineBreak(At(text, pos)) {
          break;
        }
        pos := pos + 1;
      }
      commentDirectives := commentDirectives + [Directive(tokenPos, pos)];
    }

    method ScanMultiLineComment() returns (commentClosed: bool)
      requires Valid() && StartsComment(text, pos, '*') && tokenPos == pos
      modifies this`pos, this`tokenFlags, this`commentDirectives
      ensures Valid() && pos == CommentEnd(text, old(pos))
      ensures tokenFlags == old(tokenFlags) + CommentFlags(text, old(pos))
      ensures commentClosed <==> CloserOf(text, old(pos) + 2) < end
      ensures commentDirectives == old(commentDirectives) + Directives(text, old(pos))
    {
      hide InDomain, HasLineBreak, CloserOf, LastLineStart;
      pos := pos + 2;
      if At(text, pos) == '*' && At(text, pos + 1) != '/' {
        tokenFlags := tokenFlags + {PrecedingJSDocComment};
      }
      var lastLineStart;
      commentClosed, lastLineStart := ScanCommentBody();
      commentDirectives := commentDirectives + [Directive(lastLineStart, pos)];
    }

    /** The loop over a multi-line comment, from behind the opener. */
    method ScanCommentBody() returns (commentClosed: bool, lastLineStart: nat)
      requires Valid()
      modifies this`pos, this`tokenFlags
      ensures Valid()
      ensures var closer := CloserOf(text, old(pos));
              && pos == (if closer < |text| then closer + 2 else closer)
              && commentClosed == (closer < |text|)
              && lastLineStart == LastLineStart(text, tokenPos, old(pos), closer)
              && tokenFlags == old(tokenFlags)
                   + if HasLineBreak(text, old(pos), closer) then {PrecedingLineBreak} else {}
    {
      ghost var start := pos;
      assert !HasLineBreak(text, start, start);
      hide InDomain, HasLineBreak;
      commentClosed := false;
      lastLineStart := tokenPos;
      while pos < end
        invariant Valid() && start <= pos && CloserOf(text, pos) == CloserOf(text, start) && !commentClosed
        invariant lastLineStart == LastLineStart(text, tokenPos, start, pos)
        invariant tokenFlags == old(tokenFlags) + if HasLineBreak(text, start, pos) then {PrecedingLineBreak} else {}
      {
        var ch := At(text, pos);
        if ch == '*' && At(text, pos + 1) == '/' {
          pos := pos + 2;
          commentClosed := true;
          break;
        }
        LineBreakAtEnd(text, start, pos);
        pos := pos + 1;
        if IsLineBreak(ch) {
          lastLineStart := pos;
          tokenFlags := tokenFlags + {PrecedingLineBreak};
        }
      }
    }

    /** The cases of `scan` that pass trivia: one piece in skipping mode, a token otherwise. */
    method ScanTrivia()
      requires Valid() && StartsTrivia(text, pos) && tokenPos == pos
      modifies this`pos, this`token, this`tokenFlags, this`commentDirectives
      ensures Valid() && commentDirectives == old(commentDirectives) + Directives(text, old(pos))
      ensures skipTrivia ==> pos == SkipOne(text, old(pos))
      ensures skipTrivia ==> tokenFlags == old(tokenFlags) + SkipFlags(text, old(pos))
      ensures !skipTrivia ==>
                var x := Trivia(text, old(pos));
                pos == x.end && token == x.kind && tokenFlags == old(tokenFlags) + x.flags
    {
      hide InDomain, BlankEnd, LineEnd, CommentEnd, CommentFlags;
      var ch := At(text, pos);
      if IsLineBreak(ch) {
        tokenFlags := tokenFlags + {PrecedingLineBreak};
        if skipTrivia {
          pos := pos + 1;
        } else {
          pos := if ch == CR && pos + 1 < end && At(text, pos + 1) == LF then pos + 2 else pos + 1;
          token := NewLineTrivia;
        }
      } else if IsBlank(ch) {
        if skipTrivia {
          pos := pos + 1;
        } else {
          ScanBlanks();
          token := WhitespaceTrivia;
        }
      } else if At(text, pos + 1) == '/' {
        ScanSingleLineComment();
        if !skipTrivia {
          token := SingleLineCommentTrivia;
        }
      } else {
        var commentClosed := ScanMultiLineComment();
        if !skipTrivia {
          if !commentClosed {
            tokenFlags := tokenFlags + {Unterminated};
          }
          token := MultiLineCommentTrivia;
        }
      }
    }

    // ---------- One token ----------

    /** `scan` */
    method Scan() returns (kind: Kind)
      requires Valid()
      modifies this`pos, this`startPos, this`tokenPos, this`token, this`tokenValue, this`tokenFlags,
               this`commentDirectives
      ensures Valid() && kind == token
      ensures State() == Next(skipTrivia, text, old(State()))
      ensures commentDirectives
              == old(commentDirectives) + ScannerSpec.Scan(skipTrivia, text, old(pos)).directives
    {
      hide InDomain, Token, LeadsTo, Trivia, SkipFlags, SkipOne, Skip, Directives;
      startPos := pos;
      tokenFlags := {};
      ghost var gathered: seq<Directive> := [];
      LeadStarts(text, pos);
      while true
        invariant Valid() && startPos == old(pos) && tokenFlags <= LEAD_FLAGS
        invariant tokenValue == old(tokenValue) && commentDirectives == old(commentDirectives) + gathered
        invariant LeadsTo(text, startPos, pos, tokenFlags, gathered)
        invariant !skipTrivia ==> pos == startPos && tokenFlags == {} && gathered == []
        decreases end - pos
      {
        tokenPos := pos;
        if pos >= end {
          LeadEnds(text, startPos, pos, tokenFlags, gathered);
          token := EndOfFile;
          return token;
        }
        if !StartsTrivia(text, pos) {
          LeadEnds(text, startPos, pos, tokenFlags, gathered);
          kind := ScanToken();
          return kind;
        }
        PassOne(text, startPos, pos, tokenFlags, gathered);
        gathered := gathered + Directives(text, pos);
        ScanTrivia();
        if !skipTrivia {
          return token;
        }
      }
    }

    /** `reScanGreaterToken` */
    method ReScanGreaterToken() returns (kind: Kind)
      requires Valid()
      requires token == Punctuation(">") ==> tokenPos < end && text[tokenPos] == '>' && pos == tokenPos + 1
      modifies this`pos, this`token
      ensures Valid() && kind == token
      ensures old(token) != Punctuation(">") ==> pos == old(pos) && token == old(token)
      ensures old(token) == Punctuation(">") ==>
                var s := Greater(text, tokenPos); token == Punctuation(s) && pos == tokenPos + |s|
    {
      hide InDomain;
      if token == Punctuation(">") {
        if At(text, pos) == '>' {
          if At(text, pos + 1) == '>' {
            if At(text, pos + 2) == '=' {
              pos, token := pos + 3, Punctuation(">>>=");
            } else {
              pos, token := pos + 2, Punctuation(">>>");
            }
          } else if At(text, pos + 1) == '=' {
            pos, token := pos + 2, Punctuation(">>=");
          } else {
            pos, token := pos + 1, Punctuation(">>");
          }
        } else if At(text, pos) == '=' {
          pos, token := pos + 1, Punctuation(">=");
        }
      }
      return token;
    }

    // ---------- Speculation ----------

    /** The calls of a run, one after the other. */
    method Execute(run: Run)
      requires Valid()
      modifies this`pos, this`startPos, this`tokenPos, this`token, this`tokenValue, this`tokenFlags,
               this`commentDirectives
      ensures Valid() && State() == Scans(skipTrivia, text, Committed(run), old(State()))
      ensures commentDirectives == old(commentDirectives) + RecordedBy(skipTrivia, text, run, old(State()))
      decreases run, 0
    {
      hide InDomain, Next, Scans, Committed, RecordedBy, AfterCallback, ScannerSpec.Scan;
      ghost var before := State();
      match run
      case Done =>
        NothingRuns(skipTrivia, text, before);
      case ScanThen(rest) =>
        var kind := Scan();
        Execute(rest);
        ScansThenRun(skipTrivia, text, rest, before);
      case SpeculateThen(callback, isLookahead, result, rest) =>
        SpeculationHelper(callback, isLookahead, result);
        Execute(rest);
        SpeculationThenRun(skipTrivia, text, callback, isLookahead, result, rest, before);
    }

    /** `speculationHelper`, for a callback that makes the given calls and returns `result`. */
    method SpeculationHelper(callback: Run, isLookahead: bool, result: bool)
      requires Valid()
      modifies this`pos, this`startPos, this`tokenPos, this`token, this`tokenValue, this`tokenFlags,
               this`commentDirectives
      ensures Valid()
      ensures isLookahead || !result ==> State() == old(State())
      ensures !isLookahead && result ==> State() == Scans(skipTrivia, text, Committed(callback), old(State()))
      ensures State() == AfterCallback(skipTrivia, text, callback, isLookahead, result, old(State()))
      ensures commentDirectives == old(commentDirectives) + RecordedBy(skipTrivia, text, callback, old(State()))
      decreases callback, 1
    {
      hide InDomain, Scans, RecordedBy;
      var savePos, saveStartPos, saveTokenPos := pos, startPos, tokenPos;
      var saveToken, saveTokenValue, saveTokenFlags := token, tokenValue, tokenFlags;
      Execute(callback);
      if isLookahead || !result {
        pos, startPos, tokenPos := savePos, saveStartPos, saveTokenPos;
        token, tokenValue, tokenFlags := saveToken, saveTokenValue, saveTokenFlags;
      }
    }
  }
}
