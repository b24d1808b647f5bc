/**
 * Character classes on ASCII text, and where each run of characters ends.
 */
module ScannerText {

  const NUL := '\0'
  const LF := '\n'
  const CR := '\r'

  /** `charCodeAt(text, i).code`: reading at the end gives the terminating NUL; nothing reads further. */
  function At(t: string, i: nat): char
    requires i <= |t|
  {
    if i < |t| then t[i] else NUL
  }

  predicate IsLineBreak(c: char) { c == LF || c == CR }

  predicate IsBlank(c: char) { c == ' ' || c == '\t' || c == '\U{000B}' || c == '\U{000C}' }

  predicate IsDigit(c: char) { '0' <= c <= '9' }

  predicate IsOctalDigit(c: char) { '0' <= c <= '7' }

  predicate IsHexDigit(c: char) { IsDigit(c) || 'a' <= c <= 'f' || 'A' <= c <= 'F' }

  predicate IsIdentifierStart(c: char) {
    'A' <= c <= 'Z' || 'a' <= c <= 'z' || c == '$' || c == '_'
  }

  predicate IsIdentifierPart(c: char) { IsIdentifierStart(c) || IsDigit(c) }

  /** Seven equal characters at the start of a line, followed by a space unless they are `=`. */
  predicate IsConflictMarker(t: string, pos: nat) {
    (pos == 0 || (pos <= |t| && IsLineBreak(t[pos - 1])))
    && pos + 7 < |t| && (forall i :: pos <= i < pos + 7 ==> t[i] == t[pos])
    && (t[pos] == '=' || t[pos + 7] == ' ')
  }

  /** The texts on which the model follows the scanner; see README. */
  ghost predicate InDomain(t: string) {
    && (forall i :: 0 <= i < |t| ==> t[i] < '\U{0080}')
    && (forall i :: 0 <= i < |t| && t[i] in "<=>|" ==> !IsConflictMarker(t, i))
    && (forall i :: 0 <= i < |t| - 1 && t[i] == '\\' ==> t[i + 1] != 'u' && t[i + 1] != 'x')
  }

  // ---------- Runs ----------

  function BlankEnd(t: string, pos: nat): (r: nat)
    requires pos <= |t|
    ensures pos <= r <= |t|
    ensures forall i :: pos <= i < r ==> IsBlank(t[i])
    ensures r < |t| ==> !IsBlank(t[r])
    decreases |t| - pos
  {
    if pos < |t| && IsBlank(t[pos]) then BlankEnd(t, pos + 1) else pos
  }

  function IdentifierEnd(t: string, pos: nat): (r: nat)
    requires pos <= |t|
    ensures pos <= r <= |t|
    ensures forall i :: pos <= i < r ==> IsIdentifierPart(t[i])
    ensures r < |t| ==> !IsIdentifierPart(t[r])
    decreases |t| - pos
  {
    if pos < |t| && IsIdentifierPart(t[pos]) then IdentifierEnd(t, pos + 1) else pos
  }

  /** The end of a run of `_` and of digits below `base` (10 for `scanNumberFragment`, 16 for hex digits). */
  predicate IsDigitOf(base: nat, c: char) {
    if base == 16 then IsHexDigit(c) else IsDigit(c) && c as int - '0' as int < base
  }

  function DigitsEnd(base: nat, t: string, pos: nat): (r: nat)
    requires pos <= |t|
    ensures pos <= r <= |t|
    ensures forall i :: pos <= i < r ==> t[i] == '_' || IsDigitOf(base, t[i])
    ensures r < |t| ==> t[r] != '_' && !IsDigitOf(base, t[r])
    decreases |t| - pos
  {
    if pos < |t| && (t[pos] == '_' || IsDigitOf(base, t[pos])) then DigitsEnd(base, t, pos + 1) else pos
  }

  function OctalEnd(t: string, pos: nat): (r: nat)
    requires pos <= |t|
    ensures pos <= r <= |t|
    ensures forall i :: pos <= i < r ==> IsOctalDigit(t[i])
    ensures r < |t| ==> !IsOctalDigit(t[r])
    decreases |t| - pos
  {
    if pos < |t| && IsOctalDigit(t[pos]) then OctalEnd(t, pos + 1) else pos
  }

  function LineEnd(t: string, pos: nat): (r: nat)
    requires pos <= |t|
    ensures pos <= r <= |t|
    ensures forall i :: pos <= i < r ==> !IsLineBreak(t[i])
    ensures r < |t| ==> IsLineBreak(t[r])
    decreases |t| - pos
  {
    if pos < |t| && !IsLineBreak(t[pos]) then LineEnd(t, pos + 1) else pos
  }

  /** `*` and `/` at `pos` */
  predicate ClosesComment(t: string, pos: nat) {
    pos + 1 < |t| && t[pos] == '*' && t[pos + 1] == '/'
  }

  /** The position of the next comment closer, or the end of the text. */
  function CloserOf(t: string, pos: nat): (r: nat)
    requires pos <= |t|
    ensures pos <= r <= |t|
    ensures forall i :: pos <= i < r ==> !ClosesComment(t, i)
    ensures r < |t| ==> ClosesComment(t, r)
    decreases |t| - pos
  {
    if pos < |t| && !ClosesComment(t, pos) then CloserOf(t, pos + 1) else pos
  }

  /** `scanEscapeSequence` at a backslash, outside tagged templates: the position after it. */
  function EscapeEnd(t: string, pos: nat): (r: nat)
    requires pos < |t|
    ensures pos < r <= |t|
  {
    if pos + 1 >= |t| then pos + 1
    else if t[pos + 1] == CR && pos + 2 < |t| && t[pos + 2] == LF then pos + 3
    else pos + 2
  }

  /** An end position, and whether the literal was cut short. */
  datatype Literal = Literal(end: nat, terminated: bool)

  /** The loop of `scanString`, from behind the opening quote. */
  function StringEnd(t: string, quote: char, pos: nat): (r: Literal)
    requires pos <= |t|
    ensures pos <= r.end <= |t|
    ensures r.terminated ==> pos < r.end && t[r.end - 1] == quote
    ensures !r.terminated && r.end < |t| ==> IsLineBreak(t[r.end])
    decreases |t| - pos
  {
    if pos >= |t| then Literal(pos, false)
    else if t[pos] == quote then Literal(pos + 1, true)
    else if t[pos] == '\\' then StringEnd(t, quote, EscapeEnd(t, pos))
    else if IsLineBreak(t[pos]) then Literal(pos, false)
    else StringEnd(t, quote, pos + 1)
  }

  datatype Template = Template(end: nat, terminated: bool, head: bool)

  /** The loop of `scanTemplateAndSetTokenValue`, from behind the opening backtick. */
  function TemplateEnd(t: string, pos: nat): (r: Template)
    requires pos <= |t|
    ensures pos <= r.end <= |t|
    ensures !r.terminated ==> r.end == |t| && !r.head
    decreases |t| - pos
  {
    if pos >= |t| then Template(pos, false, false)
    else if t[pos] == '`' then Template(pos + 1, true, false)
    else if t[pos] == '$' && pos + 1 < |t| && t[pos + 1] == '{' then Template(pos + 2, true, true)
    else if t[pos] == '\\' then TemplateEnd(t, EscapeEnd(t, pos))
    else if t[pos] == CR && pos + 1 < |t| && t[pos + 1] == LF then TemplateEnd(t, pos + 2)
    else TemplateEnd(t, pos + 1)
  }
}
