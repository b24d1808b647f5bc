/**
 * What one call of `scan` does, as functions of the text and the position, and the token streams
 * of its two modes.
 */
module ScannerSpec {
  import opened ScannerText

  datatype Kind =
    | EndOfFile
    | NewLineTrivia
    | WhitespaceTrivia
    | SingleLineCommentTrivia
    | MultiLineCommentTrivia
    | StringLiteral
    | NoSubstitutionTemplateLiteral
    | TemplateHead
    | NumericLiteral
    | BigIntLiteral
    | PrivateIdentifier
    | Word(spelling: string)           // an identifier or the keyword spelled so
    | Punctuation(spelling: string)
    | Unknown

  datatype Flag =
    | PrecedingLineBreak
    | PrecedingJSDocComment
    | Unterminated
    | Scientific
    | Octal
    | HexSpecifier
    | BinarySpecifier
    | OctalSpecifier
    | ContainsSeparator

  predicate IsTrivia(k: Kind) {
    k.NewLineTrivia? || k.WhitespaceTrivia? || k.SingleLineCommentTrivia? || k.MultiLineCommentTrivia?
  }

  datatype Lexeme = Lexeme(kind: Kind, end: nat, flags: set<Flag>)

  // ---------- Tokens ----------

  /** The longest operator or bracket of the switch that is spelled at `pos`; empty if there is none. */
  function Punctuator(t: string, pos: nat): (s: string)
    requires pos < |t|
  {
    var n1 := At(t, pos + 1);
    match t[pos]
    case '!' => if n1 == '=' then (if At(t, pos + 2) == '=' then "!==" else "!=") else "!"
    case '%' => if n1 == '=' then "%=" else "%"
    case '&' =>
      if n1 == '&' then (if At(t, pos + 2) == '=' then "&&=" else "&&") else if n1 == '=' then "&=" else "&"
    case '(' => "("
    case ')' => ")"
    case '*' =>
      if n1 == '=' then "*=" else if n1 == '*' then (if At(t, pos + 2) == '=' then "**=" else "**") else "*"
    case '+' => if n1 == '+' then "++" else if n1 == '=' then "+=" else "+"
    case ',' => ","
    case '-' => if n1 == '-' then "--" else if n1 == '=' then "-=" else "-"
    case '.' => if n1 == '.' && At(t, pos + 2) == '.' then "..." else "."
    case '/' => if n1 == '=' then "/=" else "/"
    case ':' => ":"
    case ';' => ";"
    case '<' =>
      if n1 == '<' then (if At(t, pos + 2) == '=' then "<<=" else "<<") else if n1 == '=' then "<=" else "<"
    case '=' =>
      if n1 == '=' then (if At(t, pos + 2) == '=' then "===" else "==") else if n1 == '>' then "=>" else "="
    case '>' => ">"
    case '?' =>
      if n1 == '.' && !IsDigit(At(t, pos + 2)) then "?."
      else if n1 == '?' then (if At(t, pos + 2) == '=' then "??=" else "??")
      else "?"
    case '@' => "@"
    case '[' => "["
    case ']' => "]"
    case '^' => if n1 == '=' then "^=" else "^"
    case '{' => "{"
    case '|' =>
      if n1 == '|' then (if At(t, pos + 2) == '=' then "||=" else "||") else if n1 == '=' then "|=" else "|"
    case '}' => "}"
    case '~' => "~"
    case _ => ""
  }

  function Separator(t: string, from: nat, to: nat): set<Flag>
    requires from <= to <= |t|
  {
    if '_' in t[from..to] then {ContainsSeparator} else {}
  }

  /** `checkForIdentifierStartAfterNumericLiteral`: a lone `n` is taken in, anything else is left. */
  function AfterNumber(t: string, pos: nat): (r: nat)
    requires pos <= |t|
    ensures pos <= r <= |t|
  {
    if IsIdentifierStart(At(t, pos)) && IdentifierEnd(t, pos) - pos == 1 && At(t, pos) == 'n' then pos + 1 else pos
  }

  /** `checkBigIntSuffix` */
  function Suffixed(t: string, pos: nat, flags: set<Flag>): (r: Lexeme)
    requires pos <= |t|
    ensures pos <= r.end <= |t|
  {
    if At(t, pos) == 'n' then Lexeme(BigIntLiteral, pos + 1, flags) else Lexeme(NumericLiteral, pos, flags)
  }

  /** The exponent part at an `e`: sign and digits are taken in even when there are no digits. */
  function ExponentEnd(t: string, pos: nat): (r: nat)
    requires pos < |t|
    ensures pos < r <= |t|
  {
    DigitsEnd(10, t, if At(t, pos + 1) == '+' || At(t, pos + 1) == '-' then pos + 2 else pos + 1)
  }

  predicate HasFraction(t: string, pos: nat)
    requires pos <= |t|
  {
    At(t, DigitsEnd(10, t, pos)) == '.'
  }

  function MantissaEnd(t: string, pos: nat): (r: nat)
    requires pos <= |t|
    ensures pos <= r <= |t|
    ensures HasFraction(t, pos) || (pos < |t| && IsDigit(t[pos])) ==> pos < r
  {
    if HasFraction(t, pos) then DigitsEnd(10, t, DigitsEnd(10, t, pos) + 1) else DigitsEnd(10, t, pos)
  }

  /** `scanNumber` */
  function Number(t: string, pos: nat): (r: Lexeme)
    requires pos < |t| && (IsDigit(t[pos]) || t[pos] == '.')
    ensures pos < r.end <= |t| && (r.kind.NumericLiteral? || r.kind.BigIntLiteral?)
  {
    var mantissa := MantissaEnd(t, pos);
    var exponent := At(t, mantissa) == 'e' || At(t, mantissa) == 'E';
    var end := if exponent then ExponentEnd(t, mantissa) else mantissa;
    var flags := Separator(t, pos, end) + if exponent then {Scientific} else {};
    if HasFraction(t, pos) || exponent then Lexeme(NumericLiteral, AfterNumber(t, end), flags)
    else
      var n := Suffixed(t, end, flags);
      n.(end := AfterNumber(t, n.end))
  }

  function Prefixed(base: nat, flag: Flag, t: string, pos: nat): (r: Lexeme)
    requires pos + 2 <= |t|
    ensures pos < r.end <= |t|
  {
    var end := DigitsEnd(base, t, pos + 2);
    Suffixed(t, end, Separator(t, pos + 2, end) + {flag})
  }

  /** The switch case for a leading zero. */
  function Zero(t: string, pos: nat): (r: Lexeme)
    requires pos < |t| && t[pos] == '0'
    ensures pos < r.end <= |t|
  {
    var n1 := At(t, pos + 1);
    if pos + 2 < |t| && (n1 == 'X' || n1 == 'x') then Prefixed(16, HexSpecifier, t, pos)
    else if pos + 2 < |t| && (n1 == 'B' || n1 == 'b') then Prefixed(2, BinarySpecifier, t, pos)
    else if pos + 2 < |t| && (n1 == 'O' || n1 == 'o') then Prefixed(8, OctalSpecifier, t, pos)
    else if pos + 1 < |t| && IsOctalDigit(n1) then Lexeme(NumericLiteral, OctalEnd(t, pos), {Octal})
    else Number(t, pos)
  }

  /** The switch case for `#`. */
  function Hash(t: string, pos: nat): (r: Lexeme)
    requires pos < |t| && t[pos] == '#'
    ensures pos < r.end <= |t| && r.flags == {}
  {
    if pos != 0 && At(t, pos + 1) == '!' then Lexeme(Unknown, pos + 1, {})
    else if IsIdentifierStart(At(t, pos + 1)) then Lexeme(PrivateIdentifier, IdentifierEnd(t, pos + 1), {})
    else Lexeme(PrivateIdentifier, pos + 1, {})
  }

  function Quoted(t: string, pos: nat): (r: Lexeme)
    requires pos < |t|
    ensures pos < r.end <= |t|
  {
    var s := StringEnd(t, t[pos], pos + 1);
    Lexeme(StringLiteral, s.end, if s.terminated then {} else {Unterminated})
  }

  function Backtick(t: string, pos: nat): (r: Lexeme)
    requires pos < |t|
    ensures pos < r.end <= |t|
  {
    var s := TemplateEnd(t, pos + 1);
    Lexeme(if s.head then TemplateHead else NoSubstitutionTemplateLiteral, s.end,
           if s.terminated then {} else {Unterminated})
  }

  /** The token at `pos`, where no trivia starts. */
  function Token(t: string, pos: nat): (r: Lexeme)
    requires pos < |t|
    ensures pos < r.end <= |t| && !IsTrivia(r.kind) && !r.kind.EndOfFile?
  {
    var c := t[pos];
    if c == '"' || c == '\'' then Quoted(t, pos)
    else if c == '`' then Backtick(t, pos)
    else if c == '0' then Zero(t, pos)
    else if IsDigit(c) || (c == '.' && IsDigit(At(t, pos + 1))) then Number(t, pos)
    else if c == '#' then Hash(t, pos)
    else if IsIdentifierStart(c) then
      Lexeme(Word(t[pos..IdentifierEnd(t, pos)]), IdentifierEnd(t, pos), {})
    else if Punctuator(t, pos) != "" then
      PunctuatorIsSpelled(t, pos);
      Lexeme(Punctuation(Punctuator(t, pos)), pos + |Punctuator(t, pos)|, {})
    else Lexeme(Unknown, pos + 1, {})
  }

  /** A punctuator is what the text spells at its position. */
  lemma PunctuatorIsSpelled(t: string, pos: nat)
    requires pos < |t| && Punctuator(t, pos) != ""
    ensures var s := Punctuator(t, pos); pos + |s| <= |t| && t[pos..pos + |s|] == s
  {
  }

  // ---------- Trivia ----------

  predicate StartsComment(t: string, pos: nat, second: char) {
    pos + 1 < |t| && t[pos] == '/' && t[pos + 1] == second
  }

  predicate StartsTrivia(t: string, pos: nat) {
    pos < |t| && (IsLineBreak(t[pos]) || IsBlank(t[pos]) || StartsComment(t, pos, '/') || StartsComment(t, pos, '*'))
  }

  predicate HasLineBreak(t: string, from: nat, to: nat)
    requires from <= to <= |t|
  {
    exists i :: from <= i < to && IsLineBreak(t[i])
  }

  /** The end of a multi-line comment; an unclosed one runs to the end of the text. */
  function CommentEnd(t: string, pos: nat): (r: nat)
    requires pos + 2 <= |t|
    ensures pos + 2 <= r <= |t|
  {
    var closer := CloserOf(t, pos + 2);
    if closer < |t| then closer + 2 else closer
  }

  function CommentFlags(t: string, pos: nat): set<Flag>
    requires StartsComment(t, pos, '*')
  {
    (if At(t, pos + 2) == '*' && At(t, pos + 3) != '/' then {PrecedingJSDocComment} else {})
    + (if HasLineBreak(t, pos + 2, CloserOf(t, pos + 2)) then {PrecedingLineBreak} else {})
  }

  /** The trivia token at `pos` when trivia is not skipped. */
  function Trivia(t: string, pos: nat): (r: Lexeme)
    requires StartsTrivia(t, pos)
    ensures pos < r.end <= |t| && IsTrivia(r.kind)
  {
    if IsLineBreak(t[pos]) then
      Lexeme(NewLineTrivia, if t[pos] == CR && pos + 1 < |t| && t[pos + 1] == LF then pos + 2 else pos + 1,
             {PrecedingLineBreak})
    else if IsBlank(t[pos]) then Lexeme(WhitespaceTrivia, BlankEnd(t, pos), {})
    else if StartsComment(t, pos, '/') then Lexeme(SingleLineCommentTrivia, LineEnd(t, pos + 2), {})
    else
      Lexeme(MultiLineCommentTrivia, CommentEnd(t, pos),
             CommentFlags(t, pos) + if CloserOf(t, pos + 2) < |t| then {} else {Unterminated})
  }

  /** One turn of the loop of `scan` in skipping mode: single characters and whole comments. */
  function SkipOne(t: string, pos: nat): (r: nat)
    requires StartsTrivia(t, pos)
    ensures pos < r <= |t|
  {
    if IsLineBreak(t[pos]) || IsBlank(t[pos]) then pos + 1
    else if StartsComment(t, pos, '/') then LineEnd(t, pos + 2)
    else CommentEnd(t, pos)
  }

  function SkipFlags(t: string, pos: nat): set<Flag>
    requires StartsTrivia(t, pos)
  {
    if IsLineBreak(t[pos]) then {PrecedingLineBreak}
    else if StartsComment(t, pos, '*') then CommentFlags(t, pos)
    else {}
  }

  /** An entry of `commentDirectives`: the range it covers. */
  datatype Directive = Directive(pos: nat, end: nat)

  /** Behind the last line break of `[from, to)`, or `start` if there is none. */
  function LastLineStart(t: string, start: nat, from: nat, to: nat): nat
    requires from <= to <= |t|
  {
    if from == to then start else if IsLineBreak(t[to - 1]) then to else LastLineStart(t, start, from, to - 1)
  }

  /**
   * What is recorded at `pos`. Every comment is: the directive patterns are searched in a constant
   * that matches both, not in the text of the comment.
   */
  function Directives(t: string, pos: nat): seq<Directive> {
    if StartsComment(t, pos, '/') then [Directive(pos, LineEnd(t, pos + 2))]
    else if StartsComment(t, pos, '*') then
      [Directive(LastLineStart(t, pos, pos + 2, CloserOf(t, pos + 2)), CommentEnd(t, pos))]
    else []
  }

  /** What skipping mode passes before the token: where it stops, the flags, and what is recorded. */
  datatype Lead = Lead(end: nat, flags: set<Flag>, directives: seq<Directive>)

  function Skip(t: string, pos: nat): (r: Lead)
    requires pos <= |t|
    ensures pos <= r.end <= |t| && !StartsTrivia(t, r.end)
    decreases |t| - pos
  {
    if StartsTrivia(t, pos) then
      var rest := Skip(t, SkipOne(t, pos));
      Lead(rest.end, SkipFlags(t, pos) + rest.flags, Directives(t, pos) + rest.directives)
    else Lead(pos, {}, [])
  }

  // ---------- One scan ----------

  /** The state after a call of `scan`, and the entries it adds to `commentDirectives`. */
  datatype Scanned =
    Scanned(kind: Kind, startPos: nat, tokenPos: nat, pos: nat, flags: set<Flag>, directives: seq<Directive>)

  function Scan(skip: bool, t: string, pos: nat): (r: Scanned)
    requires pos <= |t|
    ensures r.startPos == pos <= r.tokenPos <= r.pos <= |t|
    ensures r.kind.EndOfFile? ==> r.tokenPos == r.pos == |t|
    ensures !r.kind.EndOfFile? ==> r.tokenPos < r.pos
    ensures skip ==> !IsTrivia(r.kind)
  {
    if !skip && StartsTrivia(t, pos) then
      var x := Trivia(t, pos);
      Scanned(x.kind, pos, pos, x.end, x.flags, Directives(t, pos))
    else
      var lead := if skip then Skip(t, pos) else Lead(pos, {}, []);
      if lead.end == |t| then Scanned(EndOfFile, pos, lead.end, lead.end, lead.flags, lead.directives)
      else
        var x := Token(t, lead.end);
        Scanned(x.kind, pos, lead.end, x.end, lead.flags + x.flags, lead.directives)
  }

  /** All tokens from `pos`, the end-of-file token included. */
  function Stream(skip: bool, t: string, pos: nat): (r: seq<Scanned>)
    requires pos <= |t|
    ensures |r| > 0 && r[|r| - 1].kind.EndOfFile?
    decreases |t| - pos
  {
    var x := Scan(skip, t, pos);
    if x.kind.EndOfFile? then [x] else [x] + Stream(skip, t, x.pos)
  }
}
