/**
 * The values of integer literals: digits gathered between separators, read with a limit, and
 * written back in decimal.
 */
module Numerals {
  import opened ScannerText

  const INT_MAX := 0x7FFF_FFFF

  // ---------- Digits ----------

  predicate IsRun(base: nat, s: string) {
    forall i :: 0 <= i < |s| ==> s[i] == '_' || IsDigitOf(base, s[i])
  }

  predicate AreDigits(base: nat, s: string) {
    forall i :: 0 <= i < |s| ==> IsDigitOf(base, s[i])
  }

  function WithoutSeparators(s: string): string {
    if s == "" then ""
    else WithoutSeparators(s[..|s| - 1]) + if s[|s| - 1] == '_' then "" else [s[|s| - 1]]
  }

  /** The number that digits of a base denote. */
  function Value(base: nat, s: string): (r: nat)
    requires base <= 10 && AreDigits(base, s)
  {
    if s == "" then 0 else Value(base, s[..|s| - 1]) * base + (s[|s| - 1] as int - '0' as int)
  }

  lemma RunStep(text: string, from: nat, to: nat)
    requires from <= to < |text|
    ensures WithoutSeparators(text[from..to + 1])
            == WithoutSeparators(text[from..to]) + if text[to] == '_' then "" else [text[to]]
  {
    assert text[from..to + 1][..to - from] == text[from..to];
  }

  lemma {:induction false} RunHasDigits(base: nat, s: string)
    requires IsRun(base, s)
    ensures AreDigits(base, WithoutSeparators(s))
    decreases |s|
  {
    if s != "" {
      RunHasDigits(base, s[..|s| - 1]);
    }
  }

  lemma NoStretch(result: string, text: string, start: nat)
    requires start <= |text|
    ensures result + text[start..start] == result
  {
  }

  lemma StretchGrows(result: string, text: string, start: nat, pos: nat)
    requires start <= pos < |text|
    ensures result + text[start..pos + 1] == (result + text[start..pos]) + [text[pos]]
  {
  }

  /** `scanNumberFragment`: stretches between separators are copied when they end. */
  method ScanNumberFragment(text: string, from: nat) returns (value: string, pos: nat)
    requires from <= |text|
    ensures pos == DigitsEnd(10, text, from) && value == WithoutSeparators(text[from..pos])
  {
    assert WithoutSeparators(text[from..from]) == "";
    hide WithoutSeparators;
    pos := from;
    var start := pos;
    var allowSeparator := false;
    var result := "";
    NoStretch(result, text, start);
    while true
      invariant from <= start <= pos <= |text| && DigitsEnd(10, text, pos) == DigitsEnd(10, text, from)
      invariant result + text[start..pos] == WithoutSeparators(text[from..pos])
      invariant !allowSeparator ==> start == pos
      decreases |text| - pos
    {
      var ch := At(text, pos);
      if ch == '_' {
        RunStep(text, from, pos);
        NoStretch(result, text, start);
        if allowSeparator {
          allowSeparator := false;
          result := result + text[start..pos];
        }
        pos := pos + 1;
        start := pos;
        NoStretch(result, text, start);
        continue;
      }
      if IsDigit(ch) {
        RunStep(text, from, pos);
        StretchGrows(result, text, start, pos);
        allowSeparator := true;
        pos := pos + 1;
        continue;
      }
      break;
    }
    value := result + text[start..pos];
  }

  /** `scanBinaryOrOctalDigits` */
  method ScanBinaryOrOctalDigits(base: nat, text: string, from: nat) returns (value: string, pos: nat)
    requires from <= |text| && 0 < base <= 10
    ensures pos == DigitsEnd(base, text, from) && value == WithoutSeparators(text[from..pos])
  {
    value, pos := "", from;
    while true
      invariant from <= pos <= |text| && DigitsEnd(base, text, pos) == DigitsEnd(base, text, from)
      invariant value == WithoutSeparators(text[from..pos])
      decreases |text| - pos
    {
      var ch := At(text, pos);
      if ch == '_' {
        RunStep(text, from, pos);
        pos := pos + 1;
        continue;
      }
      if !IsDigit(ch) || ch as int - '0' as int >= base {
        break;
      }
      RunStep(text, from, pos);
      value := value + [ch];
      pos := pos + 1;
    }
  }

  // ---------- Values ----------

  /** A value, or the exception that `stoi` throws. */
  datatype Parsed = Parsed(value: int) | OutOfRange | InvalidArgument

  function Stoi(base: nat, s: string): Parsed
    requires base <= 10 && AreDigits(base, s)
  {
    if s == "" then InvalidArgument else if Value(base, s) > INT_MAX then OutOfRange else Parsed(Value(base, s))
  }

  function Decimal(n: nat): (r: string)
    ensures r != "" && AreDigits(10, r)
  {
    (if n < 10 then "" else Decimal(n / 10)) + [(n % 10 + '0' as int) as char]
  }

  /** The `tokenValue` of an integer literal, or the exception. */
  datatype Token = Token(value: string) | Thrown

  function FromParsed(p: Parsed): Token {
    match p
    case Parsed(value) => if value >= 0 then Token(Decimal(value)) else Thrown
    case _ => Thrown
  }

  /** `checkBigIntSuffix` without the suffix, for the digits and separators of a literal of a base. */
  function IntegerToken(base: nat, s: string): Token
    requires 2 <= base <= 10 && IsRun(base, s)
  {
    RunHasDigits(base, s);
    var digits := WithoutSeparators(s);
    FromParsed(Stoi(base, if digits == "" then "0" else digits))
  }

  function ValueOfRun(base: nat, s: string): nat
    requires base <= 10 && IsRun(base, s)
  {
    RunHasDigits(base, s);
    Value(base, WithoutSeparators(s))
  }

  /** `scanOctalDigits` and what `scan` makes of it: the digits behind a leading zero, read in base ten. */
  function LegacyOctalToken(s: string): Token
    requires AreDigits(8, s)
  {
    FromParsed(Stoi(10, s))
  }

  // ---------- Canonical numerals ----------

  predicate IsCanonical(s: string) {
    s != "" && AreDigits(10, s) && (s[0] == '0' ==> s == "0")
  }

  lemma {:induction false} DecimalHasValue(n: nat)
    ensures IsCanonical(Decimal(n)) && Value(10, Decimal(n)) == n
    ensures Decimal(n)[0] == '0' <==> n == 0
    decreases n
  {
    var r := Decimal(n);
    if n >= 10 {
      DecimalHasValue(n / 10);
      assert r[..|r| - 1] == Decimal(n / 10);
    } else {
      assert r[..|r| - 1] == "";
    }
  }

  lemma {:induction false} CanonicalIsDecimal(s: string)
    requires IsCanonical(s)
    ensures s == Decimal(Value(10, s)) && (s[0] != '0' ==> Value(10, s) > 0)
    decreases |s|
  {
    var init := s[..|s| - 1];
    assert s == init + [s[|s| - 1]];
    if init != "" {
      CanonicalIsDecimal(init);
    }
  }

  // ---------- Tokens ----------

  /** A literal gets the canonical decimal numeral of its value, or none exactly when the value is above the limit. */
  lemma IntegerTokenIff(base: nat, s: string)
    requires 2 <= base <= 10 && IsRun(base, s)
    ensures var r, v := IntegerToken(base, s), ValueOfRun(base, s);
            && (r.Token? <==> v <= INT_MAX)
            && (r.Token? ==> IsCanonical(r.value) && Value(10, r.value) == v)
  {
    RunHasDigits(base, s);
    assert Value(base, "0") == 0 by {
      assert "0"[..0] == "";
    }
    DecimalHasValue(ValueOfRun(base, s));
  }

  /** Literals of any two bases get the same `tokenValue` exactly when they denote the same number. */
  lemma SameTokenIff(base: nat, s: string, other: nat, u: string)
    requires 2 <= base <= 10 && IsRun(base, s) && 2 <= other <= 10 && IsRun(other, u)
    requires ValueOfRun(base, s) <= INT_MAX && ValueOfRun(other, u) <= INT_MAX
    ensures IntegerToken(base, s) == IntegerToken(other, u) <==> ValueOfRun(base, s) == ValueOfRun(other, u)
  {
    IntegerTokenIff(base, s);
    IntegerTokenIff(other, u);
    hide IntegerToken;
    CanonicalIsDecimal(IntegerToken(base, s).value);
    CanonicalIsDecimal(IntegerToken(other, u).value);
  }

  lemma {:induction false} DecimalReadingIsLarger(s: string)
    requires AreDigits(8, s)
    ensures AreDigits(10, s) && Value(10, s) >= Value(8, s)
    ensures Value(10, s) == Value(8, s) <==> Value(8, s) < 8
    decreases |s|
  {
    if s != "" {
      DecimalReadingIsLarger(s[..|s| - 1]);
    }
  }

  /** A legacy octal literal gets the numeral of its value only when that is a single digit. */
  lemma LegacyOctalIff(s: string)
    requires s != "" && AreDigits(8, s)
    ensures LegacyOctalToken(s) == Token(Decimal(Value(8, s))) <==> Value(8, s) < 8
  {
    var v, d := Value(8, s), Value(10, s);
    DecimalReadingIsLarger(s);
    DecimalHasValue(v);
    DecimalHasValue(d);
    assert LegacyOctalToken(s) == if d > INT_MAX then Thrown else Token(Decimal(d));
    hide *;
    if v < 8 {
      assert d == v;
    }
  }
}
