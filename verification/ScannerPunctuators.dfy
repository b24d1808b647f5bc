/**
 * The operators and brackets as a list, and the switch of `scan` as the longest match in it.
 */
module ScannerPunctuators {
  import opened ScannerText
  import opened ScannerSpec

  /**
   * The punctuation of the token table, with `,` and `===` where the table itself has `},` and a second `==`;
   * `#` and the backtick are not punctuation to `scan`.
   */
  predicate IsPunctuator(s: string) {
    s in {
    "{", "}", "(", ")", "[", "]", ".", "...", ";", ",", "<", ">", "<=", ">=", "==", "!=", "===", "!==", "=>", "+", "-",
    "**", "*", "/", "%", "++", "--", "<<", "</", ">>", ">>>", "&", "|", "^", "!", "~", "&&", "||", "?", "??", "?.",
    ":", "=", "+=", "-=", "*=", "**=", "/=", "%=", "<<=", ">>=", ">>>=", "&=", "|=", "^=", "||=", "&&=", "??=", "@"
    }
  }

  predicate Spelled(t: string, pos: nat, s: string) {
    pos + |s| <= |t| && t[pos..pos + |s|] == s
  }

  /**
   * The entries open to `scan`: behind `>` it stops, for the parser to ask for more; `</` is for JSX;
   * `?.` must not take the point of a number.
   */
  predicate Open(t: string, pos: nat, s: string) {
    IsPunctuator(s) && Spelled(t, pos, s)
    && (s[0] == '>' ==> s == ">") && s != "</" && (s == "?." ==> !(pos + 2 < |t| && IsDigit(t[pos + 2])))
  }

  lemma PunctuatorIsOpen(t: string, pos: nat)
    requires pos < |t| && Punctuator(t, pos) != ""
    ensures Open(t, pos, Punctuator(t, pos))
  {
    PunctuatorIsSpelled(t, pos);
  }

  lemma OpenIsNotLonger(t: string, pos: nat, s: string)
    requires pos < |t| && Open(t, pos, s)
    ensures |s| <= |Punctuator(t, pos)|
  {
    assert t[pos] == s[0];
    assert |s| > 1 ==> t[pos + 1] == s[1];
    assert |s| > 2 ==> t[pos + 2] == s[2];
  }

  /** The switch picks the longest open entry, and none only when there is none. */
  lemma PunctuatorIsLongestIff(t: string, pos: nat, s: string)
    requires pos < |t| && s != ""
    ensures Punctuator(t, pos) == s <==>
            Open(t, pos, s) && forall u :: Open(t, pos, u) ==> |u| <= |s|
  {
    hide Punctuator, IsPunctuator;
    var p := Punctuator(t, pos);
    if p == s {
      PunctuatorIsOpen(t, pos);
      forall u | Open(t, pos, u) ensures |u| <= |s| {
        OpenIsNotLonger(t, pos, u);
      }
    } else if Open(t, pos, s) {
      OpenIsNotLonger(t, pos, s);
      PunctuatorIsOpen(t, pos);
    }
  }

  // ---------- Behind `>` ----------

  /** `reScanGreaterToken` at a `>`: the token that the parser may ask for instead. */
  function Greater(t: string, pos: nat): (s: string)
    requires pos < |t| && t[pos] == '>'
  {
    if At(t, pos + 1) == '>' then
      if At(t, pos + 2) == '>' then (if At(t, pos + 3) == '=' then ">>>=" else ">>>")
      else if At(t, pos + 2) == '=' then ">>="
      else ">>"
    else if At(t, pos + 1) == '=' then ">="
    else ">"
  }

  predicate OpenGreater(t: string, pos: nat, s: string) {
    IsPunctuator(s) && s[0] == '>' && Spelled(t, pos, s)
  }

  lemma OpenGreaterIsNotLonger(t: string, pos: nat, s: string)
    requires pos < |t| && OpenGreater(t, pos, s)
    ensures t[pos] == '>' && OpenGreater(t, pos, Greater(t, pos)) && |s| <= |Greater(t, pos)|
  {
    assert t[pos] == s[0];
    assert |s| > 1 ==> t[pos + 1] == s[1];
    assert |s| > 2 ==> t[pos + 2] == s[2];
    assert |s| > 3 ==> t[pos + 3] == s[3];
  }

  lemma GreaterIsLongestIff(t: string, pos: nat, s: string)
    requires pos < |t| && t[pos] == '>'
    ensures Greater(t, pos) == s <==> OpenGreater(t, pos, s) && forall u :: OpenGreater(t, pos, u) ==> |u| <= |s|
  {
    assert OpenGreater(t, pos, ">");
    OpenGreaterIsNotLonger(t, pos, ">");
    forall u | OpenGreater(t, pos, u) ensures |u| <= |Greater(t, pos)| {
      OpenGreaterIsNotLonger(t, pos, u);
    }
  }
}
