/**
 * String literals on bytes: the loop of `scanString`, and reading back what was quoted.
 */
module StringLiterals {
  import opened Utf8
  import ScannerText

  const BACKSLASH := 0x5C
  const DOUBLE_QUOTE := 0x22
  const SINGLE_QUOTE := 0x27
  const BACKSPACE := 0x08
  const TAB := 0x09
  const LF := 0x0A
  const VERTICAL_TAB := 0x0B
  const FORM_FEED := 0x0C
  const CR := 0x0D
  const LINE_SEPARATOR := 0x2028
  const PARAGRAPH_SEPARATOR := 0x2029

  predicate IsLineBreak(code: int) {
    code == LF || code == CR || code == LINE_SEPARATOR || code == PARAGRAPH_SEPARATOR
  }

  /** A value with the position behind it, or an escape by hexadecimal digits, where the model stops. */
  datatype Cooked = Cooked(value: seq<Byte>, end: nat, terminated: bool) | HexEscape

  function Before(piece: seq<Byte>, rest: Cooked): Cooked {
    match rest
    case Cooked(value, end, terminated) => Cooked(piece + value, end, terminated)
    case HexEscape => HexEscape
  }

  datatype Escape = Escape(value: seq<Byte>, end: nat) | HexDigits

  /** `scanEscapeSequence` at a backslash, outside tagged templates. */
  function EscapeAt(text: seq<Byte>, pos: nat): (r: Escape)
    requires pos < |text|
    ensures r.Escape? ==> pos < r.end <= |text|
  {
    if pos + 1 >= |text| then Escape([], pos + 1)
    else
      var code := CharCodeAt(text, pos + 1).code;
      if code == '0' as int then Escape([], pos + 2)
      else if code == 'b' as int then Escape([BACKSPACE], pos + 2)
      else if code == 't' as int then Escape([TAB], pos + 2)
      else if code == 'n' as int then Escape([LF], pos + 2)
      else if code == 'v' as int then Escape([VERTICAL_TAB], pos + 2)
      else if code == 'f' as int then Escape([FORM_FEED], pos + 2)
      else if code == 'r' as int then Escape([CR], pos + 2)
      else if code == 'u' as int || code == 'x' as int then HexDigits
      else if code == CR then
        Escape([], if pos + 2 < |text| && CharCodeAt(text, pos + 2).code == LF then pos + 3 else pos + 2)
      else if IsLineBreak(code) then Escape([], pos + 2)
      else Escape(FromCharCode(code), pos + 2)
  }

  /** The value of a literal from behind its opening quote. */
  function StringFrom(text: seq<Byte>, quote: int, pos: nat): (r: Cooked)
    requires pos <= |text|
    ensures r.Cooked? ==> pos <= r.end <= |text|
    decreases |text| - pos
  {
    if pos >= |text| then Cooked([], pos, false)
    else
      var code := CharCodeAt(text, pos).code;
      if code == quote then Cooked([], pos + 1, true)
      else if code == BACKSLASH then
        match EscapeAt(text, pos)
        case HexDigits => HexEscape
        case Escape(value, end) => Before(value, StringFrom(text, quote, end))
      else if IsLineBreak(code) then Cooked([], pos, false)
      else Before([text[pos]], StringFrom(text, quote, pos + 1))
  }

  /** `scanString` at an opening quote: unescaped stretches are copied when they end. */
  method ScanString(text: seq<Byte>, from: nat) returns (r: Cooked)
    requires from < |text|
    ensures r == StringFrom(text, CharCodeAt(text, from).code, from + 1)
  {
    hide CharCodeAt, EscapeAt;
    var quote := CharCodeAt(text, from).code;
    var pos := from + 1;
    var result: seq<Byte> := [];
    var start := pos;
    ghost var whole := StringFrom(text, quote, pos);
    while true
      invariant from < start <= pos <= |text|
      invariant whole == Before(result + text[start..pos], StringFrom(text, quote, pos))
      decreases |text| - pos
    {
      if pos >= |text| {
        return Cooked(result + text[start..pos], pos, false);
      }
      var code := CharCodeAt(text, pos).code;
      if code == quote {
        return Cooked(result + text[start..pos], pos + 1, true);
      }
      if code == BACKSLASH {
        result := result + text[start..pos];
        match EscapeAt(text, pos)
        case HexDigits =>
          return HexEscape;
        case Escape(value, end) =>
          BeforeBefore(result, value, StringFrom(text, quote, end));
          result := result + value;
          pos := end;
          start := pos;
          assert result + text[start..pos] == result;
          continue;
      }
      if IsLineBreak(code) {
        return Cooked(result + text[start..pos], pos, false);
      }
      BeforeBefore(result + text[start..pos], [text[pos]], StringFrom(text, quote, pos + 1));
      assert result + text[start..pos] + [text[pos]] == result + text[start..pos + 1];
      pos := pos + 1;
    }
  }

  lemma BeforeBefore(a: seq<Byte>, b: seq<Byte>, rest: Cooked)
    ensures Before(a, Before(b, rest)) == Before(a + b, rest)
  {
    if rest.Cooked? {
      assert a + (b + rest.value) == (a + b) + rest.value;
    }
  }

  // ---------- Quoting ----------

  function QuoteByte(b: Byte, quote: Byte): seq<Byte> {
    if b == BACKSLASH then [BACKSLASH, BACKSLASH]
    else if b == quote then [BACKSLASH, quote]
    else if b == BACKSPACE then [BACKSLASH, 'b' as int]
    else if b == TAB then [BACKSLASH, 't' as int]
    else if b == LF then [BACKSLASH, 'n' as int]
    else if b == VERTICAL_TAB then [BACKSLASH, 'v' as int]
    else if b == FORM_FEED then [BACKSLASH, 'f' as int]
    else if b == CR then [BACKSLASH, 'r' as int]
    else [b]
  }

  function Quoted(s: seq<Byte>, quote: Byte): seq<Byte> {
    if s == [] then [] else QuoteByte(s[0], quote) + Quoted(s[1..], quote)
  }

  lemma {:induction false} QuotedSplits(a: seq<Byte>, b: seq<Byte>, quote: Byte)
    ensures Quoted(a + b, quote) == Quoted(a, quote) + Quoted(b, quote)
  {
    if a == [] {
      assert a + b == b;
    } else {
      hide QuoteByte;
      var first, rest := QuoteByte(a[0], quote), Quoted(a[1..], quote);
      assert (a + b)[1..] == a[1..] + b;
      assert Quoted(a + b, quote) == first + Quoted(a[1..] + b, quote);
      hide Quoted;
      QuotedSplits(a[1..], b, quote);
      Regroup(first, rest, Quoted(b, quote));
    }
  }

  lemma {:induction false} QuotedTail(s: seq<Byte>, quote: Byte)
    requires quote < 0x80 && forall i :: 0 <= i < |s| ==> s[i] >= 0x80
    ensures Quoted(s, quote) == s
  {
    if s != [] {
      QuotedTail(s[1..], quote);
      assert [s[0]] + s[1..] == s;
    }
  }

  /** The bytes of U+2028 or U+2029 stand at `i`. */
  predicate SeparatorAt(s: seq<Byte>, i: nat) {
    i + 3 <= |s| && s[i] == 0xE2 && s[i + 1] == 0x80 && (s[i + 2] == 0xA8 || s[i + 2] == 0xA9)
  }

  ghost predicate HasSeparator(s: seq<Byte>, from: nat) {
    exists i: nat :: from <= i && SeparatorAt(s, i)
  }

  lemma SeparatorIsWholeChar(s: seq<Byte>, p: nat, n: nat)
    requires CharAt(s, p, n)
    ensures SeparatorAt(s, p) <==> IsLineBreak(CodePoint(s[p..p + n])) && s[p] >= 0x80
    ensures HasSeparator(s, p) <==> SeparatorAt(s, p) || HasSeparator(s, p + n)
  {
    var e := s[p..p + n];
    assert forall i :: 0 <= i < n ==> e[i] == s[p + i];
    assert forall i :: p < i < p + n ==> Tail(s[i]);
  }

  // ---------- Passing one character of a quoted text ----------

  lemma PassQuotedByte(text: seq<Byte>, quote: Byte, pos: nat, b: Byte)
    requires (quote == SINGLE_QUOTE || quote == DOUBLE_QUOTE) && b < 0x80
    requires var q := QuoteByte(b, quote); pos + |q| <= |text| && text[pos..pos + |q|] == q
    ensures StringFrom(text, quote, pos)
            == Before([b], StringFrom(text, quote, pos + |QuoteByte(b, quote)|))
  {
    var q := QuoteByte(b, quote);
    assert text[pos] == q[0];
    if |q| == 2 {
      assert text[pos + 1] == q[1];
      assert EscapeAt(text, pos) == Escape([b], pos + 2);
    }
  }

  predicate NamesEscape(b: Byte) {
    b == 'b' as int || b == 't' as int || b == 'n' as int || b == 'v' as int || b == 'f' as int || b == 'r' as int
    || b == 'u' as int || b == 'x' as int
  }

  /** A backslash in front of any other ASCII character is dropped, and with `0` both are. */
  lemma PassNeedlessEscape(text: seq<Byte>, quote: Byte, pos: nat)
    requires (quote == SINGLE_QUOTE || quote == DOUBLE_QUOTE) && pos + 1 < |text| && text[pos] == BACKSLASH
    requires 0 < text[pos + 1] < 0x80 && text[pos + 1] != LF && text[pos + 1] != CR
    requires !NamesEscape(text[pos + 1])
    ensures StringFrom(text, quote, pos)
            == Before(if text[pos + 1] == '0' as int then [] else [text[pos + 1]], StringFrom(text, quote, pos + 2))
  {
  }

  /** A backslash in front of a line end joins two lines; CR and LF are one line end. */
  lemma PassContinuation(text: seq<Byte>, quote: Byte, pos: nat)
    requires (quote == SINGLE_QUOTE || quote == DOUBLE_QUOTE) && pos + 1 < |text| && text[pos] == BACKSLASH
    requires text[pos + 1] == LF || text[pos + 1] == CR
    requires pos + 2 < |text| ==> text[pos + 2] < 0x80
    ensures var both := text[pos + 1] == CR && pos + 2 < |text| && text[pos + 2] == LF;
            StringFrom(text, quote, pos) == Before([], StringFrom(text, quote, if both then pos + 3 else pos + 2))
  {
  }

  /** The model stops at an escape by hexadecimal digits and nowhere else. */
  lemma StopsAtHexDigits(text: seq<Byte>, quote: Byte, pos: nat)
    requires (quote == SINGLE_QUOTE || quote == DOUBLE_QUOTE) && pos + 1 < |text| && text[pos] == BACKSLASH
    ensures text[pos + 1] == 'u' as int || text[pos + 1] == 'x' as int ==> StringFrom(text, quote, pos) == HexEscape
  {
  }

  lemma TailIsInert(text: seq<Byte>, quote: Byte, pos: nat)
    requires pos < |text| && Tail(text[pos])
    ensures StringFrom(text, quote, pos) == Before([text[pos]], StringFrom(text, quote, pos + 1))
  {
    assert CharCodeAt(text, pos).code == -1;
  }

  /** `piece` stands in the text at `pos`. */
  predicate StandsAt(text: seq<Byte>, pos: nat, piece: seq<Byte>) {
    pos + |piece| <= |text| && forall i :: 0 <= i < |piece| ==> text[pos + i] == piece[i]
  }

  lemma FirstAndRest(piece: seq<Byte>)
    requires piece != []
    ensures [piece[0]] + piece[1..] == piece
  {
  }

  lemma {:induction false} PassTails(text: seq<Byte>, quote: Byte, pos: nat, tails: seq<Byte>)
    requires quote < 0x80 && StandsAt(text, pos, tails) && forall i :: 0 <= i < |tails| ==> Tail(tails[i])
    ensures StringFrom(text, quote, pos) == Before(tails, StringFrom(text, quote, pos + |tails|))
    decreases |tails|
  {
    if tails != [] {
      assert text[pos] == text[pos + 0] == tails[0];
      TailIsInert(text, quote, pos);
      RestStands(text, pos, tails);
      PassTails(text, quote, pos + 1, tails[1..]);
      hide *;
      BeforeBefore([tails[0]], tails[1..], StringFrom(text, quote, pos + |tails|));
      FirstAndRest(tails);
    }
  }

  lemma RestStands(text: seq<Byte>, pos: nat, piece: seq<Byte>)
    requires StandsAt(text, pos, piece) && piece != []
    ensures StandsAt(text, pos + 1, piece[1..])
  {
    forall i | 0 <= i < |piece[1..]| ensures text[pos + 1 + i] == piece[1..][i] {
      assert text[pos + (i + 1)] == piece[i + 1];
    }
  }

  lemma SliceStands(text: seq<Byte>, pos: nat, n: nat)
    requires pos + n <= |text|
    ensures StandsAt(text, pos, text[pos..pos + n])
  {
  }

  lemma CodePointIsWide(e: seq<Byte>)
    requires IsUtf8Char(e) && |e| > 1
    ensures CodePoint(e) >= 0x80 && e[0] >= 0x80 && forall i :: 1 <= i < |e| ==> Tail(e[i])
  {
  }

  /** A multi-byte character is passed byte by byte, unless it is a line break. */
  lemma PassChar(text: seq<Byte>, quote: Byte, pos: nat, n: nat)
    requires CharAt(text, pos, n) && n > 1 && quote < 0x80
    ensures StringFrom(text, quote, pos)
            == if IsLineBreak(CodePoint(text[pos..pos + n])) then Cooked([], pos, false)
               else Before(text[pos..pos + n], StringFrom(text, quote, pos + n))
  {
    var e := text[pos..pos + n];
    CodePointIsWide(e);
    DecodeCodePoint(text, pos, n);
    if !IsLineBreak(CodePoint(e)) {
      hide CharCodeAt, IsUtf8Char, CodePoint;
      assert StringFrom(text, quote, pos) == Before([text[pos]], StringFrom(text, quote, pos + 1));
      hide StringFrom;
      SliceStands(text, pos, n);
      RestStands(text, pos, e);
      PassTails(text, quote, pos + 1, e[1..]);
      BeforeBefore([text[pos]], e[1..], StringFrom(text, quote, pos + n));
      FirstAndRest(e);
    }
  }

  lemma WideEscape(text: seq<Byte>, pos: nat, e: seq<Byte>)
    requires pos < |text| && text[pos] == BACKSLASH && StandsAt(text, pos + 1, e)
    requires IsUtf8Char(e) && |e| > 1 && !IsLineBreak(CodePoint(e))
    ensures EscapeAt(text, pos) == Escape(e, pos + 2)
  {
    assert text[pos + 1..pos + 1 + |e|] == e;
    CodePointIsWide(e);
    DecodeCodePoint(text, pos + 1, |e|);
    EncodeCodePoint(e);
    hide IsUtf8Char, CharCodeAt, CodePoint, FromCharCode;
  }

  /**
   * An escaped character of several bytes: its bytes are taken, then all but the first are taken
   * again, since the scanner steps over the first byte only.
   */
  lemma EscapedCharRepeatsTails(text: seq<Byte>, quote: Byte, pos: nat, e: seq<Byte>)
    requires quote == SINGLE_QUOTE || quote == DOUBLE_QUOTE
    requires pos < |text| && text[pos] == BACKSLASH && StandsAt(text, pos + 1, e)
    requires IsUtf8Char(e) && |e| > 1 && !IsLineBreak(CodePoint(e))
    ensures StringFrom(text, quote, pos) == Before(e, Before(e[1..], StringFrom(text, quote, pos + 1 + |e|)))
  {
    TailsOf(e);
    hide IsUtf8Char, CodePoint;
    WideEscape(text, pos, e);
    TakeEscape(text, quote, pos, e);
    RestStands(text, pos + 1, e);
    hide *;
    PassTails(text, quote, pos + 2, e[1..]);
  }

  lemma TailsOf(e: seq<Byte>)
    requires IsUtf8Char(e) && |e| > 1
    ensures forall i :: 0 <= i < |e[1..]| ==> Tail(e[1..][i])
  {
  }

  lemma TakeEscape(text: seq<Byte>, quote: Byte, pos: nat, e: seq<Byte>)
    requires pos < |text| && text[pos] == BACKSLASH && quote != BACKSLASH && EscapeAt(text, pos) == Escape(e, pos + 2)
    ensures StringFrom(text, quote, pos) == Before(e, StringFrom(text, quote, pos + 2))
  {
    hide EscapeAt;
  }

  // ---------- Reading back ----------

  /** The rest of a quoted text, its closing quote and what follows. */
  function Rest(s: seq<Byte>, p: nat, quote: Byte, after: seq<Byte>): seq<Byte>
    requires p <= |s|
  {
    Quoted(s[p..], quote) + [quote] + after
  }

  lemma RestSplits(s: seq<Byte>, p: nat, n: nat, quote: Byte, after: seq<Byte>)
    requires p + n <= |s|
    ensures Rest(s, p, quote, after) == Quoted(s[p..p + n], quote) + Rest(s, p + n, quote, after)
  {
    var e, more := s[p..p + n], s[p + n..];
    assert e + more == s[p..];
    QuotedSplits(e, more, quote);
    hide Quoted;
    Regroup(Quoted(e, quote), Quoted(more, quote), [quote] + after);
    Regroup(Quoted(more, quote), [quote], after);
    Regroup(Quoted(e, quote) + Quoted(more, quote), [quote], after);
  }

  lemma Regroup(a: seq<Byte>, b: seq<Byte>, c: seq<Byte>)
    ensures a + (b + c) == (a + b) + c && (a + (b + c))[|a|..|a| + |b|] == b
  {
  }

  /** What reading the rest from `|before|` must give. */
  ghost predicate ReadsRest(s: seq<Byte>, p: nat, quote: Byte, before: nat, r: Cooked)
    requires p <= |s|
  {
    if HasSeparator(s, p) then r.Cooked? && !r.terminated
    else r == Cooked(s[p..], before + |Quoted(s[p..], quote)| + 1, true)
  }

  lemma {:induction false} ReadRest(s: seq<Byte>, p: nat, quote: Byte, before: seq<Byte>, after: seq<Byte>)
    requires quote == SINGLE_QUOTE || quote == DOUBLE_QUOTE
    requires p <= |s| && WellFormedFrom(s, p)
    ensures ReadsRest(s, p, quote, |before|, StringFrom(before + Rest(s, p, quote, after), quote, |before|))
    decreases |s| - p
  {
    hide *;
    if p == |s| {
      ReadQuote(s, quote, before, after);
    } else {
      var n := FirstChar(s, p);
      var piece, rest := Quoted(s[p..p + n], quote), Rest(s, p + n, quote, after);
      RestSplits(s, p, n, quote, after);
      Regroup(before, piece, rest);
      ReadRest(s, p + n, quote, before + piece, after);
      ReadPiece(s, p, n, quote, before + (piece + rest), |before|);
      ReadStep(s, p, n, quote, |before|, StringFrom(before + (piece + rest), quote, |before| + |piece|));
    }
  }

  lemma ReadQuote(s: seq<Byte>, quote: Byte, before: seq<Byte>, after: seq<Byte>)
    requires quote == SINGLE_QUOTE || quote == DOUBLE_QUOTE
    ensures ReadsRest(s, |s|, quote, |before|, StringFrom(before + Rest(s, |s|, quote, after), quote, |before|))
  {
    assert (before + Rest(s, |s|, quote, after))[|before|] == quote;
    assert s[|s|..] == [];
  }

  lemma ReadStep(s: seq<Byte>, p: nat, n: nat, quote: Byte, before: nat, rest: Cooked)
    requires CharAt(s, p, n)
    requires ReadsRest(s, p + n, quote, before + |Quoted(s[p..p + n], quote)|, rest)
    ensures ReadsRest(s, p, quote, before, if SeparatorAt(s, p) then Cooked([], before, false)
                                           else Before(s[p..p + n], rest))
  {
    SeparatorIsWholeChar(s, p, n);
    QuotedSplits(s[p..p + n], s[p + n..], quote);
    assert s[p..] == s[p..p + n] + s[p + n..];
    hide Quoted, SeparatorAt, HasSeparator, IsUtf8Char, CharAt, CodePoint;
  }

  /** One character of the original, where its quoted form stands in the text. */
  lemma ReadPiece(s: seq<Byte>, p: nat, n: nat, quote: Byte, text: seq<Byte>, pos: nat)
    requires quote == SINGLE_QUOTE || quote == DOUBLE_QUOTE
    requires CharAt(s, p, n)
    requires var piece := Quoted(s[p..p + n], quote); pos + |piece| <= |text| && text[pos..pos + |piece|] == piece
    ensures StringFrom(text, quote, pos)
            == if SeparatorAt(s, p) then Cooked([], pos, false)
               else Before(s[p..p + n], StringFrom(text, quote, pos + |Quoted(s[p..p + n], quote)|))
  {
    hide StringFrom, CharCodeAt, CodePoint;
    var e := s[p..p + n];
    if n == 1 {
      assert e == [s[p]];
      assert Quoted(e, quote) == QuoteByte(s[p], quote) + Quoted([], quote);
      assert !SeparatorAt(s, p);
      PassQuotedByte(text, quote, pos, s[p]);
    } else {
      CodePointIsWide(e);
      SeparatorIsWholeChar(s, p, n);
      QuotedTail(e, quote);
      PassChar(text, quote, pos, n);
    }
  }

  /**
   * A quoted text is read back, up to just behind its closing quote, exactly when it holds
   * neither U+2028 nor U+2029: those end a literal and the quoting does not escape them.
   */
  lemma ReadsBackIff(s: seq<Byte>, quote: Byte, before: seq<Byte>, after: seq<Byte>)
    requires quote == SINGLE_QUOTE || quote == DOUBLE_QUOTE
    requires WellFormedFrom(s, 0)
    ensures StringFrom(before + [quote] + Quoted(s, quote) + [quote] + after, quote, |before| + 1)
            == Cooked(s, |before| + |Quoted(s, quote)| + 2, true)
            <==> !HasSeparator(s, 0)
  {
    hide *;
    ReadRest(s, 0, quote, before + [quote], after);
    assert s[0..] == s;
    RestWhole(s, quote, before, after);
    ReadsRestIff(s, quote, |before| + 1,
                 StringFrom(before + [quote] + Quoted(s, quote) + [quote] + after, quote, |before| + 1));
  }

  lemma RestWhole(s: seq<Byte>, quote: Byte, before: seq<Byte>, after: seq<Byte>)
    ensures before + [quote] + Quoted(s, quote) + [quote] + after == (before + [quote]) + Rest(s, 0, quote, after)
  {
    hide Quoted;
    assert s[0..] == s;
  }

  lemma ReadsRestIff(s: seq<Byte>, quote: Byte, before: nat, r: Cooked)
    requires ReadsRest(s, 0, quote, before, r)
    ensures r == Cooked(s, before + |Quoted(s, quote)| + 1, true) <==> !HasSeparator(s, 0)
  {
    hide Quoted, HasSeparator;
    assert s[0..] == s;
  }

  // ---------- ASCII ----------

  predicate IsAscii(t: string) { forall i :: 0 <= i < |t| ==> t[i] < '\U{0080}' }

  function Bytes(t: string): (r: seq<Byte>)
    requires IsAscii(t)
    ensures |r| == |t| && forall i :: 0 <= i < |t| ==> r[i] == t[i] as int
  {
    if t == "" then [] else [t[0] as int] + Bytes(t[1..])
  }

  lemma AsciiCode(t: string, pos: nat)
    requires IsAscii(t) && pos <= |t|
    ensures CharCodeAt(Bytes(t), pos).code == ScannerText.At(t, pos) as int
  {
  }

  /** On ASCII the string loop of the scanner model stops where this one does. */
  lemma {:induction false} AsciiStringEnds(t: string, quote: char, pos: nat)
    requires IsAscii(t) && pos <= |t|
    ensures var r, s := StringFrom(Bytes(t), quote as int, pos), ScannerText.StringEnd(t, quote, pos);
            r.Cooked? ==> r.end == s.end && r.terminated == s.terminated
    decreases |t| - pos
  {
    hide CharCodeAt, EscapeAt, Bytes, ScannerText.EscapeEnd;
    AsciiCode(t, pos);
    if pos < |t| && t[pos] != quote {
      if t[pos] == '\\' {
        AsciiEscapeEnds(t, pos);
        AsciiStringEnds(t, quote, ScannerText.EscapeEnd(t, pos));
      } else {
        AsciiStringEnds(t, quote, pos + 1);
      }
    }
  }

  lemma AsciiEscapeEnds(t: string, pos: nat)
    requires IsAscii(t) && pos < |t|
    ensures var r := EscapeAt(Bytes(t), pos); r.Escape? ==> r.end == ScannerText.EscapeEnd(t, pos)
  {
    hide CharCodeAt, Bytes;
    if pos + 1 < |t| {
      AsciiCode(t, pos + 1);
      AsciiCode(t, pos + 2);
    }
  }
}
