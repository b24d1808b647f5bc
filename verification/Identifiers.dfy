/**
 * Identifier characters from interval tables, and identifiers in UTF-8 text.
 */
module Identifiers {
  import opened Utf8
  import ScannerText
  import StringLiterals

  // ---------- Interval tables ----------

  /** The two ends of one closed interval after the other, in order. */
  predicate IsTable(table: seq<int>) {
    && |table| > 0 && |table| % 2 == 0
    && (forall i, j :: 0 <= i < j < |table| ==> table[i] <= table[j])
  }

  /** Some interval of the table holds the code. */
  predicate InTable(code: int, table: seq<int>) {
    exists k :: 0 <= k < |table| / 2 && Within(code, table, k)
  }

  predicate Within(code: int, table: seq<int>, k: int) {
    0 <= k < |table| / 2 && table[2 * k] <= code <= table[2 * k + 1]
  }

  /** `lookupInUnicodeMap`, of which there are two copies. */
  method LookupInUnicodeMap(code: int, table: seq<int>) returns (found: bool)
    requires IsTable(table)
    ensures found <==> InTable(code, table)
  {
    if code < table[0] {
      return false;
    }
    var lo, hi := 0, |table|;
    while lo + 1 < hi
      invariant 0 <= lo <= hi <= |table| && lo % 2 == 0 && hi % 2 == 0
      invariant forall k :: Within(code, table, k) ==> lo <= 2 * k < hi
    {
      var mid := lo + (hi - lo) / 2;
      mid := mid - mid % 2;
      if table[mid] <= code <= table[mid + 1] {
        assert Within(code, table, mid / 2);
        return true;
      }
      if code < table[mid] {
        hi := mid;
      } else {
        lo := mid + 2;
      }
    }
    return false;
  }

  // ---------- Characters ----------

  /** The tables of a language version. */
  datatype Tables = Tables(start: seq<int>, part: seq<int>)

  predicate IsLetter(code: int) {
    'A' as int <= code <= 'Z' as int || 'a' as int <= code <= 'z' as int || code == '$' as int || code == '_' as int
  }

  predicate IsStart(tables: Tables, code: int) {
    IsLetter(code) || (code > 0x7F && InTable(code, tables.start))
  }

  predicate IsPart(tables: Tables, code: int) {
    IsLetter(code) || '0' as int <= code <= '9' as int || (code > 0x7F && InTable(code, tables.part))
  }

  // ---------- Identifiers ----------

  /** Every character from `i` on is an identifier part. */
  predicate PartsFrom(tables: Tables, name: seq<Byte>, i: nat)
    requires i <= |name|
    decreases |name| - i
  {
    i == |name|
    || (var ch := CharCodeAt(name, i);
        IsPart(tables, ch.code) && PartsFrom(tables, name, i + ch.length))
  }

  predicate IsIdentifier(tables: Tables, name: seq<Byte>) {
    var ch := CharCodeAt(name, 0);
    name != [] && IsStart(tables, ch.code) && PartsFrom(tables, name, ch.length)
  }

  /** `isIdentifierText` */
  method IsIdentifierText(tables: Tables, name: seq<Byte>) returns (r: bool)
    ensures r == IsIdentifier(tables, name)
  {
    var ch := CharCodeAt(name, 0);
    if !IsStart(tables, ch.code) {
      return false;
    }
    var i := ch.length;
    while i < |name|
      invariant i <= |name| && IsIdentifier(tables, name) == PartsFrom(tables, name, i)
    {
      ch := CharCodeAt(name, i);
      if !IsPart(tables, ch.code) {
        return false;
      }
      i := i + ch.length;
    }
    return true;
  }

  /** Where the run of identifier parts from `pos` on ends. */
  function PartsEnd(tables: Tables, text: seq<Byte>, pos: nat): (r: nat)
    requires pos <= |text|
    ensures pos <= r <= |text|
    decreases |text| - pos
  {
    if pos == |text| then pos
    else
      var ch := CharCodeAt(text, pos);
      if IsPart(tables, ch.code) then PartsEnd(tables, text, pos + ch.length) else pos
  }

  /** `scanIdentifier`, where no backslash follows: the position behind the identifier, or none. */
  method ScanIdentifier(tables: Tables, text: seq<Byte>, from: nat) returns (pos: nat)
    requires from < |text|
    ensures var ch := CharCodeAt(text, from);
            pos == if IsStart(tables, ch.code) then PartsEnd(tables, text, from + ch.length) else from
  {
    pos := from;
    var ch := CharCodeAt(text, pos);
    if IsStart(tables, ch.code) {
      pos := pos + ch.length;
      ghost var first := pos;
      while pos < |text|
        invariant pos <= |text| && PartsEnd(tables, text, pos) == PartsEnd(tables, text, first)
      {
        ch := CharCodeAt(text, pos);
        if !IsPart(tables, ch.code) {
          break;
        }
        pos := pos + ch.length;
      }
    }
  }

  // ---------- The longest identifier ----------

  /** In a slice a character that is cut fails to decode; any other decodes as in the text. */
  lemma CodeInSlice(text: seq<Byte>, from: nat, to: nat, p: nat, n: nat)
    requires from <= p < to <= |text| && CharAt(text, p, n)
    ensures CharCodeAt(text, p).length == n && CharCodeAt(text, p).code >= 0
    ensures if p + n <= to then CharCodeAt(text[from..to], p - from) == CharCodeAt(text, p)
            else CharCodeAt(text[from..to], p - from).code == -1
  {
    DecodeCodePoint(text, p, n);
    var e := text[p..p + n];
    assert e[0] == text[p] == text[from..to][p - from];
    if p + n <= to {
      assert text[from..to][p - from..p - from + n] == e;
      DecodeCodePoint(text[from..to], p - from, n);
    }
  }

  /** One turn over a character, in the text and in a slice of it. */
  lemma PartsStep(tables: Tables, text: seq<Byte>, from: nat, to: nat, p: nat, n: nat)
    requires from <= p < to <= |text| && CharAt(text, p, n)
    ensures var part := IsPart(tables, CharCodeAt(text, p).code);
            && PartsEnd(tables, text, p) == (if part then PartsEnd(tables, text, p + n) else p)
            && (PartsFrom(tables, text[from..to], p - from)
                <==> part && p + n <= to && PartsFrom(tables, text[from..to], p + n - from))
  {
    CodeInSlice(text, from, to, p, n);
    hide CharCodeAt, CharAt;
  }

  lemma NothingLeft(tables: Tables, name: seq<Byte>)
    ensures PartsFrom(tables, name, |name|)
  {
  }

  lemma {:induction false} PartsInSlice(tables: Tables, text: seq<Byte>, from: nat, to: nat, p: nat)
    requires from <= p <= to <= |text| && WellFormedFrom(text, p)
    ensures PartsFrom(tables, text[from..to], p - from) ==> to <= PartsEnd(tables, text, p)
    ensures to == PartsEnd(tables, text, p) ==> PartsFrom(tables, text[from..to], p - from)
    decreases |text| - p
  {
    hide *;
    NothingLeft(tables, text[from..to]);
    if p < to {
      var n := FirstChar(text, p);
      PartsStep(tables, text, from, to, p, n);
      if p + n <= to {
        PartsInSlice(tables, text, from, to, p + n);
      }
    }
  }

  /** The scanner takes the longest stretch that `isIdentifierText` accepts. */
  lemma LongestIdentifier(tables: Tables, text: seq<Byte>, from: nat, to: nat)
    requires from < to <= |text| && WellFormedFrom(text, from)
    ensures var ch := CharCodeAt(text, from);
            var end := if IsStart(tables, ch.code) then PartsEnd(tables, text, from + ch.length) else from;
            && (IsIdentifier(tables, text[from..to]) ==> to <= end)
            && (to == end ==> IsIdentifier(tables, text[from..to]))
  {
    var n := FirstChar(text, from);
    CodeInSlice(text, from, to, from, n);
    hide PartsFrom, PartsEnd, CharCodeAt, CharAt, WellFormedFrom;
    if from + n <= to {
      PartsInSlice(tables, text, from, to, from + n);
    }
  }

  // ---------- ASCII ----------

  lemma AsciiChar(tables: Tables, t: string, pos: nat)
    requires StringLiterals.IsAscii(t) && pos < |t|
    ensures var ch := CharCodeAt(StringLiterals.Bytes(t), pos);
            && ch.code == t[pos] as int && ch.length == 1
            && (IsStart(tables, ch.code) <==> ScannerText.IsIdentifierStart(t[pos]))
            && (IsPart(tables, ch.code) <==> ScannerText.IsIdentifierPart(t[pos]))
  {
  }

  /** On ASCII the identifiers of the scanner model begin and end where these do, whatever the tables are. */
  lemma {:induction false} AsciiIdentifierEnds(tables: Tables, t: string, pos: nat)
    requires StringLiterals.IsAscii(t) && pos <= |t|
    ensures PartsEnd(tables, StringLiterals.Bytes(t), pos) == ScannerText.IdentifierEnd(t, pos)
    decreases |t| - pos
  {
    hide CharCodeAt, IsPart, StringLiterals.Bytes, ScannerText.IsIdentifierPart;
    if pos < |t| {
      AsciiChar(tables, t, pos);
      AsciiIdentifierEnds(tables, t, pos + 1);
    }
  }
}
