/**
 * A lexical grammar over positions of the text, written without the scanner's loops: which slice
 * each kind of token takes, with which flags. One call of `scan` that keeps trivia returns exactly
 * the lexeme that the grammar describes.
 */
module ScannerGrammar {
  import opened ScannerText
  import opened ScannerSpec
  import opened ScannerPunctuators

  // ---------- Characters ----------

  const UPPER := "ABCDEFGHIJKLMNOPQRSTUVWXYZ"
  const LOWER := "abcdefghijklmnopqrstuvwxyz"

  function Digits(base: nat): string {
    match base
    case 2 => "01"
    case 8 => "01234567"
    case 10 => "0123456789"
    case 16 => "0123456789abcdefABCDEF"
    case _ => ""
  }

  predicate IsBase(base: nat) { base == 2 || base == 8 || base == 10 || base == 16 }

  predicate IsLetter(c: char) { c in UPPER || c in LOWER || c == '$' || c == '_' }

  lemma DigitsIff(base: nat, c: char)
    requires IsBase(base)
    ensures IsDigitOf(base, c) <==> c in Digits(base)
  {
  }

  lemma SmallDigitsIff(c: char)
    ensures IsDigit(c) <==> c in Digits(10)
    ensures IsOctalDigit(c) <==> c in Digits(8)
  {
  }

  lemma UpperIff(c: char)
    ensures 'A' <= c <= 'Z' <==> c in UPPER
  {
    if 'A' <= c <= 'Z' {
      assert UPPER[c as int - 'A' as int] == c;
    }
  }

  lemma LowerIff(c: char)
    ensures 'a' <= c <= 'z' <==> c in LOWER
  {
    if 'a' <= c <= 'z' {
      assert LOWER[c as int - 'a' as int] == c;
    }
  }

  lemma LettersIff(c: char)
    ensures IsIdentifierStart(c) <==> IsLetter(c)
    ensures IsIdentifierPart(c) <==> IsLetter(c) || c in Digits(10)
  {
    UpperIff(c);
    LowerIff(c);
    SmallDigitsIff(c);
    hide Digits;
  }

  // ---------- Runs ----------

  predicate InRun(base: nat, c: char) { c == '_' || c in Digits(base) }

  predicate Run(base: nat, t: string, from: nat, to: nat) {
    from <= to <= |t| && forall i :: from <= i < to ==> InRun(base, t[i])
  }

  predicate MaximalRun(base: nat, t: string, from: nat, to: nat) {
    Run(base, t, from, to) && !(to < |t| && InRun(base, t[to]))
  }

  lemma InRunIff(base: nat, t: string)
    requires IsBase(base)
    ensures forall i :: 0 <= i < |t| ==> (InRun(base, t[i]) <==> t[i] == '_' || IsDigitOf(base, t[i]))
  {
    forall i | 0 <= i < |t| ensures InRun(base, t[i]) <==> t[i] == '_' || IsDigitOf(base, t[i]) {
      DigitsIff(base, t[i]);
    }
  }

  lemma MaximalRunIff(base: nat, t: string, from: nat, to: nat)
    requires IsBase(base) && from <= |t|
    ensures MaximalRun(base, t, from, to) <==> to == DigitsEnd(base, t, from)
  {
    InRunIff(base, t);
    hide InRun, IsDigitOf;
  }

  /** A letter or a digit stands at `i`. */
  predicate PartAt(t: string, i: nat) {
    i < |t| && (IsLetter(t[i]) || t[i] in Digits(10))
  }

  predicate NameEnds(t: string, from: nat, to: nat) {
    from <= to <= |t| && (forall i :: from <= i < to ==> PartAt(t, i)) && !PartAt(t, to)
  }

  lemma PartIff(t: string)
    ensures forall i :: 0 <= i < |t| ==> (PartAt(t, i) <==> IsIdentifierPart(t[i]))
  {
    forall i | 0 <= i < |t| ensures PartAt(t, i) <==> IsIdentifierPart(t[i]) {
      LettersIff(t[i]);
    }
  }

  lemma NameEndsIff(t: string, from: nat, to: nat)
    requires from <= |t|
    ensures NameEnds(t, from, to) <==> to == IdentifierEnd(t, from)
  {
    PartIff(t);
    hide IsIdentifierPart;
  }

  // ---------- Numbers ----------

  predicate Fraction(t: string, from: nat, to: nat) {
    from == to || (from < to <= |t| && t[from] == '.' && Run(10, t, from + 1, to))
  }

  predicate Exponent(t: string, from: nat, to: nat) {
    from == to
    || (from < to <= |t| && (t[from] == 'e' || t[from] == 'E')
        && (Run(10, t, from + 1, to)
            || (from + 1 < to && (t[from + 1] == '+' || t[from + 1] == '-') && Run(10, t, from + 2, to))))
  }

  /** A run, a point with a run, and an exponent; each may be missing. */
  predicate DecimalParts(t: string, pos: nat, a: nat, b: nat, c: nat) {
    a <= b <= c <= |t| && Run(10, t, pos, a) && Fraction(t, a, b) && Exponent(t, b, c)
  }

  ghost predicate IsDecimal(t: string, pos: nat, end: nat) {
    exists a, b :: DecimalParts(t, pos, a, b, end)
  }

  ghost predicate LongestDecimal(t: string, pos: nat, end: nat) {
    IsDecimal(t, pos, end) && forall q: nat :: IsDecimal(t, pos, q) ==> q <= end
  }

  predicate Marks(c: char) { c == 'e' || c == 'E' }

  /** Where `Number` stands in front of the suffix. */
  function DecimalEnd(t: string, pos: nat): (r: nat)
    requires pos <= |t|
    ensures pos <= r <= |t|
  {
    var m := MantissaEnd(t, pos);
    if Marks(At(t, m)) then ExponentEnd(t, m) else m
  }

  lemma RunBound(t: string, pos: nat, a: nat)
    requires pos <= |t| && Run(10, t, pos, a)
    ensures a <= DigitsEnd(10, t, pos)
    ensures a < DigitsEnd(10, t, pos) ==> InRun(10, t[a]) && t[a] != '.' && !Marks(t[a])
  {
    InRunIff(10, t);
  }

  lemma DecimalIsBounded(t: string, pos: nat, a: nat, b: nat, c: nat)
    requires pos <= |t| && DecimalParts(t, pos, a, b, c)
    ensures c <= DecimalEnd(t, pos)
  {
    hide InRun, Run;
    var e := DigitsEnd(10, t, pos);
    RunBound(t, pos, a);
    if a == e {
      if a < b {
        RunBound(t, a + 1, b);
      }
      if b == MantissaEnd(t, pos) && b < c {
        ExponentBound(t, b, c);
      }
    }
  }

  lemma ExponentBound(t: string, b: nat, c: nat)
    requires b < c <= |t| && Exponent(t, b, c)
    ensures c <= ExponentEnd(t, b)
  {
    InRunIff(10, t);
    if Run(10, t, b + 1, c) {
      RunBound(t, b + 1, c);
      assert b + 1 < c ==> InRun(10, t[b + 1]);
    } else {
      RunBound(t, b + 2, c);
    }
  }

  lemma FractionIsReached(t: string, pos: nat)
    requires pos <= |t|
    ensures Run(10, t, pos, DigitsEnd(10, t, pos)) && Fraction(t, DigitsEnd(10, t, pos), MantissaEnd(t, pos))
  {
    var a := DigitsEnd(10, t, pos);
    MaximalRunIff(10, t, pos, a);
    if HasFraction(t, pos) {
      MaximalRunIff(10, t, a + 1, MantissaEnd(t, pos));
    }
    hide InRun;
  }

  lemma ExponentIsReached(t: string, b: nat)
    requires b < |t| && Marks(t[b])
    ensures Exponent(t, b, ExponentEnd(t, b))
  {
    var d := if At(t, b + 1) == '+' || At(t, b + 1) == '-' then b + 2 else b + 1;
    MaximalRunIff(10, t, d, ExponentEnd(t, b));
    hide InRun;
  }

  lemma DecimalIsReached(t: string, pos: nat)
    requires pos <= |t|
    ensures IsDecimal(t, pos, DecimalEnd(t, pos))
  {
    var a, b := DigitsEnd(10, t, pos), MantissaEnd(t, pos);
    FractionIsReached(t, pos);
    if Marks(At(t, b)) {
      ExponentIsReached(t, b);
    }
    hide Run, Fraction, MantissaEnd, ExponentEnd;
    assert DecimalParts(t, pos, a, b, DecimalEnd(t, pos));
  }

  /** The digits, point and exponent of a number are the longest slice of that form. */
  lemma LongestDecimalIff(t: string, pos: nat, end: nat)
    requires pos <= |t|
    ensures LongestDecimal(t, pos, end) <==> end == DecimalEnd(t, pos)
  {
    DecimalIsReached(t, pos);
    forall q: nat | IsDecimal(t, pos, q) ensures q <= DecimalEnd(t, pos) {
      var a, b :| DecimalParts(t, pos, a, b, q);
      DecimalIsBounded(t, pos, a, b, q);
    }
  }

  predicate IsAt(t: string, i: nat, c: char) { i < |t| && t[i] == c }

  /** A lone `n` behind the number is taken in. */
  function WithLoneN(t: string, i: nat): nat {
    if IsAt(t, i, 'n') && !PartAt(t, i + 1) then i + 1 else i
  }

  lemma WithLoneNIff(t: string, i: nat)
    requires i <= |t|
    ensures AfterNumber(t, i) == WithLoneN(t, i)
  {
    PartIff(t);
    if IsAt(t, i, 'n') {
      LettersIff('n');
      NameEndsIff(t, i, i + 1);
      hide IdentifierEnd, IsLetter;
    }
  }

  predicate HasIn(t: string, from: nat, to: nat, c: char) {
    exists i :: from <= i < to <= |t| && t[i] == c
  }

  /** A number without prefix: its longest decimal, then the suffix and the lone `n`. */
  ghost predicate NumberToken(t: string, pos: nat, end: nat, x: Lexeme) {
    var exponent := HasIn(t, pos, end, 'e') || HasIn(t, pos, end, 'E');
    var big := !exponent && !HasIn(t, pos, end, '.') && IsAt(t, end, 'n');
    && LongestDecimal(t, pos, end)
    && x == Lexeme(if big then BigIntLiteral else NumericLiteral, WithLoneN(t, if big then end + 1 else end),
                   (if HasIn(t, pos, end, '_') then {ContainsSeparator} else {})
                   + if exponent then {Scientific} else {})
  }

  lemma SeparatorIff(t: string, from: nat, to: nat)
    requires from <= to <= |t|
    ensures Separator(t, from, to) == if HasIn(t, from, to, '_') then {ContainsSeparator} else {}
  {
    if i :| from <= i < to && t[i] == '_' {
      assert t[from..to][i - from] == '_';
    }
  }

  /** What the parts of a decimal can and cannot hold. */
  lemma DecimalHolds(t: string, pos: nat)
    requires pos <= |t|
    ensures HasIn(t, pos, DecimalEnd(t, pos), '.') <==> HasFraction(t, pos)
    ensures HasIn(t, pos, DecimalEnd(t, pos), 'e') || HasIn(t, pos, DecimalEnd(t, pos), 'E')
            <==> Marks(At(t, MantissaEnd(t, pos)))
  {
  }

  lemma NumberIs(t: string, pos: nat)
    requires pos < |t| && (IsDigit(t[pos]) || t[pos] == '.')
    ensures var end := DecimalEnd(t, pos);
            var exponent := HasIn(t, pos, end, 'e') || HasIn(t, pos, end, 'E');
            var big := !exponent && !HasIn(t, pos, end, '.') && IsAt(t, end, 'n');
            Number(t, pos)
            == Lexeme(if big then BigIntLiteral else NumericLiteral, WithLoneN(t, if big then end + 1 else end),
                      (if HasIn(t, pos, end, '_') then {ContainsSeparator} else {})
                      + if exponent then {Scientific} else {})
  {
    hide MantissaEnd, ExponentEnd, HasFraction, AfterNumber, Separator, HasIn, WithLoneN, DecimalEnd, IdentifierEnd;
    var end := DecimalEnd(t, pos);
    DecimalHolds(t, pos);
    SeparatorIff(t, pos, end);
    WithLoneNIff(t, end);
    if IsAt(t, end, 'n') {
      WithLoneNIff(t, end + 1);
    }
    NumberByParts(t, pos);
  }

  lemma NumberByParts(t: string, pos: nat)
    requires pos < |t| && (IsDigit(t[pos]) || t[pos] == '.')
    ensures var end := DecimalEnd(t, pos);
            var exponent := Marks(At(t, MantissaEnd(t, pos)));
            var flags := Separator(t, pos, end) + if exponent then {Scientific} else {};
            Number(t, pos)
            == if HasFraction(t, pos) || exponent || !IsAt(t, end, 'n') then
                 Lexeme(NumericLiteral, AfterNumber(t, end), flags)
               else Lexeme(BigIntLiteral, AfterNumber(t, end + 1), flags)
  {
    hide MantissaEnd, ExponentEnd, HasFraction, AfterNumber, Separator;
  }

  lemma NumberIff(t: string, pos: nat, end: nat, x: Lexeme)
    requires pos < |t| && (IsDigit(t[pos]) || t[pos] == '.')
    ensures NumberToken(t, pos, end, x) <==> end == DecimalEnd(t, pos) && x == Number(t, pos)
  {
    LongestDecimalIff(t, pos, end);
    NumberIs(t, pos);
    hide Number, DecimalEnd, HasIn, LongestDecimal, WithLoneN;
  }

  /** The base that two characters at `pos` announce, in front of at least one more character. */
  function AnnouncedBase(t: string, pos: nat): nat {
    if !(IsAt(t, pos, '0') && pos + 2 < |t|) then 0
    else match t[pos + 1]
      case 'x' => 16
      case 'X' => 16
      case 'b' => 2
      case 'B' => 2
      case 'o' => 8
      case 'O' => 8
      case _ => 0
  }

  function Specifier(base: nat): Flag {
    if base == 16 then HexSpecifier else if base == 2 then BinarySpecifier else OctalSpecifier
  }

  /** A prefix, a run of its base, and a suffix. */
  predicate PrefixedToken(t: string, pos: nat, end: nat, x: Lexeme) {
    var base := AnnouncedBase(t, pos);
    && base != 0 && MaximalRun(base, t, pos + 2, end)
    && x == Lexeme(if IsAt(t, end, 'n') then BigIntLiteral else NumericLiteral, if IsAt(t, end, 'n') then end + 1 else end,
                   (if HasIn(t, pos + 2, end, '_') then {ContainsSeparator} else {}) + {Specifier(base)})
  }

  predicate OctalAt(t: string, i: nat) { i < |t| && t[i] in Digits(8) }

  /** A zero and octal digits. */
  predicate LegacyOctalToken(t: string, pos: nat, x: Lexeme) {
    && IsAt(t, pos, '0') && OctalAt(t, pos + 1)
    && pos < x.end <= |t| && (forall i :: pos <= i < x.end ==> OctalAt(t, i)) && !OctalAt(t, x.end)
    && x == Lexeme(NumericLiteral, x.end, {Octal})
  }

  lemma PrefixedIff(t: string, pos: nat, end: nat, x: Lexeme)
    requires pos < |t| && t[pos] == '0' && AnnouncedBase(t, pos) != 0
    ensures PrefixedToken(t, pos, end, x) <==>
            end == DigitsEnd(AnnouncedBase(t, pos), t, pos + 2) && x == Zero(t, pos)
  {
    var base := AnnouncedBase(t, pos);
    MaximalRunIff(base, t, pos + 2, end);
    SeparatorIff(t, pos + 2, DigitsEnd(base, t, pos + 2));
    hide MaximalRun, HasIn, Separator, DigitsEnd, OctalEnd, Number;
  }

  lemma LegacyOctalIff(t: string, pos: nat, x: Lexeme)
    requires pos < |t| && t[pos] == '0' && AnnouncedBase(t, pos) == 0 && OctalAt(t, pos + 1)
    ensures LegacyOctalToken(t, pos, x) <==> x == Zero(t, pos)
  {
    forall i | 0 <= i < |t| ensures IsOctalDigit(t[i]) <==> OctalAt(t, i) {
      SmallDigitsIff(t[i]);
    }
    hide Digits, IsOctalDigit;
    assert Zero(t, pos) == Lexeme(NumericLiteral, OctalEnd(t, pos), {Octal});
  }

  /** Any other zero begins a number without prefix. */
  lemma PlainZero(t: string, pos: nat)
    requires pos < |t| && t[pos] == '0' && AnnouncedBase(t, pos) == 0 && !OctalAt(t, pos + 1)
    ensures Zero(t, pos) == Number(t, pos)
  {
    if pos + 1 < |t| {
      SmallDigitsIff(t[pos + 1]);
    }
  }

  // ---------- Strings and templates ----------

  /** The backslashes directly before `i`, from `from` on. */
  function Backslashes(t: string, from: nat, i: nat): nat
    requires i <= |t|
  {
    if from < i && t[i - 1] == '\\' then 1 + Backslashes(t, from, i - 1) else 0
  }

  predicate Escaped(t: string, from: nat, i: nat) {
    i <= |t| && Backslashes(t, from, i) % 2 == 1
  }

  /** A quote or a line end that is not escaped; an escaped CR takes a LF with it. */
  predicate StopsString(t: string, quote: char, from: nat, i: nat) {
    i < |t| && !Escaped(t, from, i)
    && (t[i] == quote
        || (IsLineBreak(t[i]) && !(t[i] == LF && from < i && t[i - 1] == CR && Escaped(t, from, i - 1))))
  }

  predicate StopsTemplate(t: string, from: nat, i: nat) {
    i < |t| && !Escaped(t, from, i) && (t[i] == '`' || (t[i] == '$' && IsAt(t, i + 1, '{')))
  }

  predicate FirstStringStop(t: string, quote: char, from: nat, i: nat) {
    from <= i <= |t| && (i < |t| ==> StopsString(t, quote, from, i))
    && forall k :: from <= k < i ==> !StopsString(t, quote, from, k)
  }

  predicate FirstTemplateStop(t: string, from: nat, i: nat) {
    from <= i <= |t| && (i < |t| ==> StopsTemplate(t, from, i))
    && forall k :: from <= k < i ==> !StopsTemplate(t, from, k)
  }

  /** The literal ends behind the first quote, in front of the first line end, or with the text. */
  predicate StringToken(t: string, pos: nat, stop: nat, x: Lexeme) {
    && pos < |t| && (t[pos] == '"' || t[pos] == '\'')
    && FirstStringStop(t, t[pos], pos + 1, stop)
    && x == if IsAt(t, stop, t[pos]) then Lexeme(StringLiteral, stop + 1, {})
            else Lexeme(StringLiteral, stop, {Unterminated})
  }

  /** The literal ends behind the first backtick or opening of a hole, or with the text. */
  predicate TemplateToken(t: string, pos: nat, stop: nat, x: Lexeme) {
    && IsAt(t, pos, '`') && FirstTemplateStop(t, pos + 1, stop)
    && x == if stop == |t| then Lexeme(NoSubstitutionTemplateLiteral, stop, {Unterminated})
            else if t[stop] == '`' then Lexeme(NoSubstitutionTemplateLiteral, stop + 1, {})
            else Lexeme(TemplateHead, stop + 2, {})
  }

  /** The scanner's loop stands at a character that is not escaped, nor the LF of an escaped line end. */
  predicate Between(t: string, from: nat, i: nat) {
    from <= i <= |t|
    && (i < |t| ==> !Escaped(t, from, i)
                    && !(t[i] == LF && from < i && t[i - 1] == CR && Escaped(t, from, i - 1)))
  }

  lemma BetweenNext(t: string, from: nat, i: nat)
    requires Between(t, from, i) && i < |t|
    ensures t[i] != '\\' ==> Between(t, from, i + 1)
    ensures t[i] == '\\' ==> Between(t, from, EscapeEnd(t, i)) && (i + 1 < |t| ==> Escaped(t, from, i + 1))
  {
    if t[i] == '\\' && i + 1 < |t| {
      assert Backslashes(t, from, i + 1) == 1 + Backslashes(t, from, i);
      assert t[i + 1] == '\\' ==> Backslashes(t, from, i + 2) == 1 + Backslashes(t, from, i + 1);
    }
  }

  function StringStop(t: string, quote: char, pos: nat): (r: nat)
    requires pos <= |t|
    ensures pos <= r <= |t|
  {
    var s := StringEnd(t, quote, pos);
    if s.terminated then s.end - 1 else s.end
  }

  lemma {:induction false} StringStopsFirst(t: string, quote: char, from: nat, pos: nat)
    requires Between(t, from, pos) && (quote == '"' || quote == '\'')
    ensures var s, stop := StringEnd(t, quote, pos), StringStop(t, quote, pos);
            && (stop < |t| ==> StopsString(t, quote, from, stop)) && (s.terminated <==> IsAt(t, stop, quote))
            && forall k :: pos <= k < stop ==> !StopsString(t, quote, from, k)
    decreases |t| - pos
  {
    if pos < |t| && t[pos] != quote {
      BetweenNext(t, from, pos);
      hide Between, Escaped;
      if t[pos] == '\\' {
        StringStopsFirst(t, quote, from, EscapeEnd(t, pos));
      } else if !IsLineBreak(t[pos]) {
        StringStopsFirst(t, quote, from, pos + 1);
      }
    }
  }

  lemma FirstStopIsOne(t: string, quote: char, from: nat, i: nat, k: nat)
    ensures FirstStringStop(t, quote, from, i) && FirstStringStop(t, quote, from, k) ==> i == k
    ensures FirstTemplateStop(t, from, i) && FirstTemplateStop(t, from, k) ==> i == k
  {
    hide StopsString, StopsTemplate;
  }

  lemma StringIff(t: string, pos: nat, stop: nat, x: Lexeme)
    requires pos < |t| && (t[pos] == '"' || t[pos] == '\'')
    ensures StringToken(t, pos, stop, x) <==> stop == StringStop(t, t[pos], pos + 1) && x == Quoted(t, pos)
  {
    var first := StringStop(t, t[pos], pos + 1);
    StringStopsFirst(t, t[pos], pos + 1, pos + 1);
    FirstStopIsOne(t, t[pos], pos + 1, first, stop);
    assert FirstStringStop(t, t[pos], pos + 1, first);
    hide FirstStringStop, StringEnd;
  }

  function TemplateStop(t: string, pos: nat): (r: nat)
    requires pos <= |t|
    ensures pos <= r <= |t|
    decreases |t| - pos
  {
    var s := TemplateEnd(t, pos);
    if !s.terminated then |t| else if s.head && pos + 2 <= s.end then s.end - 2 else if pos < s.end then s.end - 1 else pos
  }

  lemma {:induction false} TemplateStopsFirst(t: string, from: nat, pos: nat)
    requires Between(t, from, pos)
    ensures var s, stop := TemplateEnd(t, pos), TemplateStop(t, pos);
            && s == (if stop == |t| then Template(stop, false, false)
                     else if t[stop] == '`' then Template(stop + 1, true, false) else Template(stop + 2, true, true))
            && (stop < |t| ==> StopsTemplate(t, from, stop))
            && forall k :: pos <= k < stop ==> !StopsTemplate(t, from, k)
    decreases |t| - pos
  {
    if pos < |t| {
      BetweenNext(t, from, pos);
      if t[pos] == CR && IsAt(t, pos + 1, LF) {
        BetweenNext(t, from, pos + 1);
      }
      hide Between, Escaped, EscapeEnd;
      if t[pos] == '\\' {
        TemplateStopsFirst(t, from, EscapeEnd(t, pos));
      } else if t[pos] == CR && IsAt(t, pos + 1, LF) {
        TemplateStopsFirst(t, from, pos + 2);
      } else if !(t[pos] == '`' || (t[pos] == '$' && IsAt(t, pos + 1, '{'))) {
        TemplateStopsFirst(t, from, pos + 1);
      }
    }
  }

  lemma TemplateIff(t: string, pos: nat, stop: nat, x: Lexeme)
    requires pos < |t| && t[pos] == '`'
    ensures TemplateToken(t, pos, stop, x) <==> stop == TemplateStop(t, pos + 1) && x == Backtick(t, pos)
  {
    var first := TemplateStop(t, pos + 1);
    TemplateStopsFirst(t, pos + 1, pos + 1);
    FirstStopIsOne(t, '"', pos + 1, first, stop);
    assert FirstTemplateStop(t, pos + 1, first);
    hide FirstTemplateStop, TemplateEnd;
  }

  // ---------- Names and the rest ----------

  predicate WordToken(t: string, pos: nat, x: Lexeme) {
    && pos < |t| && IsLetter(t[pos]) && pos < x.end && NameEnds(t, pos, x.end)
    && x == Lexeme(Word(t[pos..x.end]), x.end, {})
  }

  /** `#` with the name behind it, if there is one; `#!` is nothing except where a text starts. */
  predicate HashToken(t: string, pos: nat, x: Lexeme) {
    && IsAt(t, pos, '#')
    && if pos != 0 && IsAt(t, pos + 1, '!') then x == Lexeme(Unknown, pos + 1, {})
       else if pos + 1 < |t| && IsLetter(t[pos + 1]) then
         NameEnds(t, pos + 1, x.end) && x == Lexeme(PrivateIdentifier, x.end, {})
       else x == Lexeme(PrivateIdentifier, pos + 1, {})
  }

  lemma WordIff(t: string, pos: nat, x: Lexeme)
    requires pos < |t| && IsIdentifierStart(t[pos])
    ensures WordToken(t, pos, x) <==>
            x == Lexeme(Word(t[pos..IdentifierEnd(t, pos)]), IdentifierEnd(t, pos), {})
  {
    LettersIff(t[pos]);
    NameEndsIff(t, pos, x.end);
    assert IdentifierEnd(t, pos) > pos;
    hide NameEnds, IsLetter, IdentifierEnd;
  }

  lemma HashIff(t: string, pos: nat, x: Lexeme)
    requires pos < |t| && t[pos] == '#'
    ensures HashToken(t, pos, x) <==> x == Hash(t, pos)
  {
    if pos + 1 < |t| {
      LettersIff(t[pos + 1]);
      NameEndsIff(t, pos + 1, x.end);
      NameEndsIff(t, pos + 1, IdentifierEnd(t, pos + 1));
    }
    hide NameEnds, IsLetter, IdentifierEnd;
  }

  /** The longest open operator or bracket at `pos`, or a character that nothing begins with. */
  ghost predicate PunctuationToken(t: string, pos: nat, x: Lexeme) {
    if s :| Open(t, pos, s) then
      x.kind.Punctuation? && Open(t, pos, x.kind.spelling)
      && (forall u :: Open(t, pos, u) ==> |u| <= |x.kind.spelling|)
      && x == Lexeme(x.kind, pos + |x.kind.spelling|, {})
    else x == Lexeme(Unknown, pos + 1, {})
  }

  lemma PunctuationIff(t: string, pos: nat, x: Lexeme)
    requires pos < |t|
    ensures PunctuationToken(t, pos, x) <==>
            x == if Punctuator(t, pos) == "" then Lexeme(Unknown, pos + 1, {})
                 else Lexeme(Punctuation(Punctuator(t, pos)), pos + |Punctuator(t, pos)|, {})
  {
    hide Punctuator, Open;
    var p := Punctuator(t, pos);
    if p == "" {
      forall u | Open(t, pos, u) ensures false {
        OpenIsSpelled(t, pos, u);
        OpenIsNotLonger(t, pos, u);
      }
    } else {
      PunctuatorIsLongestIff(t, pos, p);
      if x.kind.Punctuation? {
        var s := x.kind.spelling;
        if Open(t, pos, s) {
          OpenIsSpelled(t, pos, s);
          PunctuatorIsLongestIff(t, pos, s);
        }
      }
    }
  }

  lemma OpenIsSpelled(t: string, pos: nat, s: string)
    requires Open(t, pos, s)
    ensures s != ""
  {
  }

  // ---------- Trivia ----------

  predicate LineEndAt(t: string, i: nat) { IsAt(t, i, LF) || IsAt(t, i, CR) }

  predicate BlankAt(t: string, i: nat) { i < |t| && t[i] in " \t\U{000B}\U{000C}" }

  predicate LineBreakToken(t: string, pos: nat, x: Lexeme) {
    x == Lexeme(NewLineTrivia, if Spelled(t, pos, "\r\n") then pos + 2 else pos + 1, {PrecedingLineBreak})
  }

  predicate BlankToken(t: string, pos: nat, x: Lexeme) {
    && pos < x.end <= |t| && (forall i :: pos <= i < x.end ==> BlankAt(t, i)) && !BlankAt(t, x.end)
    && x == Lexeme(WhitespaceTrivia, x.end, {})
  }

  predicate LineCommentToken(t: string, pos: nat, x: Lexeme) {
    && pos + 2 <= x.end <= |t| && (forall i :: pos + 2 <= i < x.end ==> !LineEndAt(t, i))
    && (x.end < |t| ==> LineEndAt(t, x.end))
    && x == Lexeme(SingleLineCommentTrivia, x.end, {})
  }

  predicate FirstCloser(t: string, from: nat, closer: nat) {
    from <= closer <= |t| && (forall i :: from <= i < closer ==> !Spelled(t, i, "*/"))
    && (closer < |t| ==> Spelled(t, closer, "*/"))
  }

  predicate CommentToken(t: string, pos: nat, closer: nat, x: Lexeme) {
    && FirstCloser(t, pos + 2, closer)
    && x == Lexeme(MultiLineCommentTrivia, if closer < |t| then closer + 2 else closer,
                   (if IsAt(t, pos + 2, '*') && !IsAt(t, pos + 3, '/') then {PrecedingJSDocComment} else {})
                   + (if exists i :: pos + 2 <= i < closer && LineEndAt(t, i) then {PrecedingLineBreak} else {})
                   + (if closer < |t| then {} else {Unterminated}))
  }

  lemma PairIff(t: string, i: nat, s: string)
    requires |s| == 2
    ensures Spelled(t, i, s) <==> i + 2 <= |t| && t[i] == s[0] && t[i + 1] == s[1]
  {
    if i + 2 <= |t| {
      assert t[i..i + 2] == [t[i], t[i + 1]] && s == [s[0], s[1]];
    }
  }

  lemma LineBreakIff(t: string, pos: nat, x: Lexeme)
    requires pos < |t| && IsLineBreak(t[pos])
    ensures LineBreakToken(t, pos, x) <==> x == Trivia(t, pos)
  {
    PairIff(t, pos, "\r\n");
    hide Spelled;
  }

  lemma BlankIff(t: string, pos: nat, x: Lexeme)
    requires pos < |t| && IsBlank(t[pos])
    ensures BlankToken(t, pos, x) <==> x == Trivia(t, pos)
  {
    forall i | 0 <= i < |t| ensures BlankAt(t, i) <==> IsBlank(t[i]) {
    }
    assert Trivia(t, pos) == Lexeme(WhitespaceTrivia, BlankEnd(t, pos), {});
    hide IsBlank, BlankAt;
  }

  lemma LineCommentIff(t: string, pos: nat, x: Lexeme)
    requires StartsComment(t, pos, '/')
    ensures LineCommentToken(t, pos, x) <==> x == Trivia(t, pos)
  {
    forall i | 0 <= i < |t| ensures LineEndAt(t, i) <==> IsLineBreak(t[i]) {
    }
    assert Trivia(t, pos) == Lexeme(SingleLineCommentTrivia, LineEnd(t, pos + 2), {});
  }

  lemma CloserIff(t: string, i: nat)
    ensures Spelled(t, i, "*/") <==> ClosesComment(t, i)
  {
    PairIff(t, i, "*/");
    hide Spelled;
  }

  lemma FirstCloserIff(t: string, from: nat, closer: nat)
    requires from <= |t|
    ensures FirstCloser(t, from, closer) <==> closer == CloserOf(t, from)
  {
    forall i: nat ensures Spelled(t, i, "*/") <==> ClosesComment(t, i) {
      CloserIff(t, i);
    }
    hide Spelled, ClosesComment;
  }

  lemma CommentIff(t: string, pos: nat, closer: nat, x: Lexeme)
    requires StartsComment(t, pos, '*')
    ensures CommentToken(t, pos, closer, x) <==> closer == CloserOf(t, pos + 2) && x == Trivia(t, pos)
  {
    FirstCloserIff(t, pos + 2, closer);
    var c := CloserOf(t, pos + 2);
    assert HasLineBreak(t, pos + 2, c) <==> exists i :: pos + 2 <= i < c && LineEndAt(t, i) by {
      if i :| pos + 2 <= i < c && IsLineBreak(t[i]) {
        assert LineEndAt(t, i);
      }
    }
    hide FirstCloser, CloserOf, HasLineBreak, LineEndAt;
  }

  // ---------- One lexeme ----------

  predicate StartsNumber(t: string, pos: nat) {
    pos < |t| && (t[pos] in Digits(10) || (t[pos] == '.' && pos + 1 < |t| && t[pos + 1] in Digits(10)))
  }

  /** The lexeme at `pos`. */
  ghost predicate Described(t: string, pos: nat, x: Lexeme) {
    if pos == |t| then x == Lexeme(EndOfFile, pos, {})
    else if LineEndAt(t, pos) then LineBreakToken(t, pos, x)
    else if BlankAt(t, pos) then BlankToken(t, pos, x)
    else if Spelled(t, pos, "//") then LineCommentToken(t, pos, x)
    else if Spelled(t, pos, "/*") then exists closer :: CommentToken(t, pos, closer, x)
    else if IsAt(t, pos, '"') || IsAt(t, pos, '\'') then exists stop :: StringToken(t, pos, stop, x)
    else if IsAt(t, pos, '`') then exists stop :: TemplateToken(t, pos, stop, x)
    else if AnnouncedBase(t, pos) != 0 then exists end :: PrefixedToken(t, pos, end, x)
    else if IsAt(t, pos, '0') && OctalAt(t, pos + 1) then LegacyOctalToken(t, pos, x)
    else if StartsNumber(t, pos) then exists end :: NumberToken(t, pos, end, x)
    else if IsAt(t, pos, '#') then HashToken(t, pos, x)
    else if pos < |t| && IsLetter(t[pos]) then WordToken(t, pos, x)
    else PunctuationToken(t, pos, x)
  }

  lemma StartsIff(t: string, pos: nat)
    requires pos < |t|
    ensures LineEndAt(t, pos) <==> IsLineBreak(t[pos])
    ensures BlankAt(t, pos) <==> IsBlank(t[pos])
    ensures Spelled(t, pos, "//") <==> StartsComment(t, pos, '/')
    ensures Spelled(t, pos, "/*") <==> StartsComment(t, pos, '*')
    ensures StartsNumber(t, pos) <==> IsDigit(t[pos]) || (t[pos] == '.' && IsDigit(At(t, pos + 1)))
    ensures IsLetter(t[pos]) <==> IsIdentifierStart(t[pos])
  {
    LettersIff(t[pos]);
    SmallDigitsIff(t[pos]);
    SmallDigitsIff(At(t, pos + 1));
    PairIff(t, pos, "//");
    PairIff(t, pos, "/*");
    hide Spelled, Digits, IsLetter, IsIdentifierStart;
  }

  lemma TriviaIff(t: string, pos: nat, x: Lexeme)
    requires StartsTrivia(t, pos)
    ensures Described(t, pos, x) <==> x == Trivia(t, pos)
  {
    StartsIff(t, pos);
    if IsLineBreak(t[pos]) {
      LineBreakIff(t, pos, x);
    } else if IsBlank(t[pos]) {
      BlankIff(t, pos, x);
    } else if StartsComment(t, pos, '/') {
      LineCommentIff(t, pos, x);
    } else {
      CommentIff(t, pos, CloserOf(t, pos + 2), x);
      if closer :| CommentToken(t, pos, closer, x) {
        CommentIff(t, pos, closer, x);
      }
    }
  }

  lemma LiteralIff(t: string, pos: nat, x: Lexeme)
    requires pos < |t| && !StartsTrivia(t, pos) && (IsAt(t, pos, '"') || IsAt(t, pos, '\'') || IsAt(t, pos, '`'))
    ensures Described(t, pos, x) <==> x == Token(t, pos)
  {
    StartsIff(t, pos);
    if t[pos] == '`' {
      TemplateIff(t, pos, TemplateStop(t, pos + 1), x);
      if stop :| TemplateToken(t, pos, stop, x) {
        TemplateIff(t, pos, stop, x);
      }
    } else {
      StringIff(t, pos, StringStop(t, t[pos], pos + 1), x);
      if stop :| StringToken(t, pos, stop, x) {
        StringIff(t, pos, stop, x);
      }
    }
  }

  lemma NumericIff(t: string, pos: nat, x: Lexeme)
    requires pos < |t| && !StartsTrivia(t, pos) && StartsNumber(t, pos)
    ensures Described(t, pos, x) <==> x == Token(t, pos)
  {
    StartsIff(t, pos);
    if AnnouncedBase(t, pos) != 0 {
      PrefixedIff(t, pos, DigitsEnd(AnnouncedBase(t, pos), t, pos + 2), x);
      if end :| PrefixedToken(t, pos, end, x) {
        PrefixedIff(t, pos, end, x);
      }
    } else if t[pos] == '0' && OctalAt(t, pos + 1) {
      LegacyOctalIff(t, pos, x);
    } else {
      if t[pos] == '0' {
        PlainZero(t, pos);
      }
      NumberIff(t, pos, DecimalEnd(t, pos), x);
      if end :| NumberToken(t, pos, end, x) {
        NumberIff(t, pos, end, x);
      }
    }
  }

  lemma TokenIff(t: string, pos: nat, x: Lexeme)
    requires pos < |t| && !StartsTrivia(t, pos)
    ensures Described(t, pos, x) <==> x == Token(t, pos)
  {
    StartsIff(t, pos);
    if IsAt(t, pos, '"') || IsAt(t, pos, '\'') || IsAt(t, pos, '`') {
      LiteralIff(t, pos, x);
    } else if StartsNumber(t, pos) {
      NumericIff(t, pos, x);
    } else if t[pos] == '#' {
      HashIff(t, pos, x);
    } else if IsIdentifierStart(t[pos]) {
      WordIff(t, pos, x);
    } else {
      PunctuationIff(t, pos, x);
    }
  }

  /** What a comment adds to the directives: its range, or its last line if it is closed over several. */
  predicate DirectivesDescribed(t: string, pos: nat, x: Lexeme, directives: seq<Directive>) {
    if x.kind.SingleLineCommentTrivia? then directives == [Directive(pos, x.end)]
    else if x.kind.MultiLineCommentTrivia? then
      var closer := if Unterminated in x.flags then x.end else x.end - 2;
      && |directives| == 1 && directives[0].end == x.end
      && (forall i :: pos + 2 <= i < closer && directives[0].pos <= i ==> !LineEndAt(t, i))
      && (directives[0].pos == pos || (pos + 2 < directives[0].pos <= closer && LineEndAt(t, directives[0].pos - 1)))
    else directives == []
  }

  lemma {:induction false} LastLineStartIs(t: string, start: nat, from: nat, end: nat)
    requires start <= from <= end <= |t|
    ensures var p := LastLineStart(t, start, from, end);
            && (forall i :: from <= i < end && p <= i ==> !LineEndAt(t, i))
            && (p == start || (from < p <= end && LineEndAt(t, p - 1)))
    decreases end
  {
    if from < end && !IsLineBreak(t[end - 1]) {
      LastLineStartIs(t, start, from, end - 1);
    }
  }

  /**
   * One call of `scan` that keeps trivia returns the described lexeme, and there is only one. In
   * skipping mode the tokens are these with trivia merged forward.
   */
  lemma ScanIff(t: string, pos: nat, x: Lexeme)
    requires pos <= |t|
    ensures var s := Scan(false, t, pos);
            && s.tokenPos == pos
            && (Described(t, pos, x) <==> x == Lexeme(s.kind, s.pos, s.flags))
            && DirectivesDescribed(t, pos, Lexeme(s.kind, s.pos, s.flags), s.directives)
  {
    if StartsTrivia(t, pos) {
      TriviaIff(t, pos, x);
      DirectivesAreDescribed(t, pos);
    } else if pos < |t| {
      TokenIff(t, pos, x);
    }
  }

  lemma DirectivesAreDescribed(t: string, pos: nat)
    requires StartsTrivia(t, pos)
    ensures DirectivesDescribed(t, pos, Trivia(t, pos), Directives(t, pos))
  {
    if StartsComment(t, pos, '*') {
      LastLineStartIs(t, pos, pos + 2, CloserOf(t, pos + 2));
    }
  }
}
