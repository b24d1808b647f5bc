/**
 * `charCodeAt` and `fromCharCode` on bytes, against the UTF-8 of RFC 3629.
 */
module Utf8 {

  type Byte = b: int | 0 <= b < 256 witness 0

  /** A code point, -1 for none, and the length to advance by. */
  datatype CharCode = CharCode(code: int, length: int)

  /** Reading at the end gives the terminating NUL. */
  function ByteAt(text: seq<Byte>, i: nat): Byte
    requires i <= |text|
  {
    if i < |text| then text[i] else 0
  }

  /** The length the first byte announces, cut to 1 when the text ends before it. */
  function AnnouncedLength(text: seq<Byte>, position: nat): (r: nat)
    requires position <= |text|
    ensures 1 <= r <= 4 && (r > 1 ==> position + r <= |text|)
  {
    var first := ByteAt(text, position);
    var length := if 240 <= first <= 247 then 4 else if 224 <= first <= 239 then 3 else if 192 <= first <= 223 then 2 else 1;
    if position + length > |text| then 1 else length
  }

  /** `charCodeAt`. On failure the length is the position itself. */
  function CharCodeAt(text: seq<Byte>, position: nat): (r: CharCode)
    requires position <= |text|
    ensures r.code == -1 || (1 <= r.length && (position < |text| ==> position + r.length <= |text|))
  {
    var length := AnnouncedLength(text, position);
    var u0: int := ByteAt(text, position);
    if u0 <= 127 then CharCode(u0, length)
    else if length < 2 then CharCode(-1, position)
    else
      var u1: int := text[position + 1];
      if 192 <= u0 <= 223 then CharCode((u0 - 192) * 64 + (u1 - 128), length)
      else if u0 == 0xED && u1 >= 128 && u1 / 32 % 2 == 1 then CharCode(-1, position)
      else if length < 3 then CharCode(-1, position)
      else
        var u2: int := text[position + 2];
        if 224 <= u0 <= 239 then CharCode((u0 - 224) * 4096 + (u1 - 128) * 64 + (u2 - 128), length)
        else if length < 4 then CharCode(-1, position)
        else
          var u3: int := text[position + 3];
          CharCode((u0 - 240) * 262144 + (u1 - 128) * 4096 + (u2 - 128) * 64 + (u3 - 128), length)
  }

  /** `fromCharCode`: the buffer is read up to its first NUL. */
  function FromCharCode(cp: int): (r: seq<Byte>)
    ensures |r| <= 4
  {
    if cp <= 0x7F then (if cp % 256 == 0 then [] else [cp % 256])
    else if cp <= 0x7FF then [cp / 64 + 192, cp % 64 + 128]
    else if 0xD800 <= cp <= 0xDFFF then []
    else if cp <= 0xFFFF then [cp / 4096 + 224, cp / 64 % 64 + 128, cp % 64 + 128]
    else if cp <= 0x10FFFF then
      [cp / 262144 + 240, cp / 4096 % 64 + 128, cp / 64 % 64 + 128, cp % 64 + 128]
    else []
  }

  predicate IsScalar(cp: int) { 0 <= cp <= 0x10FFFF && !(0xD800 <= cp <= 0xDFFF) }

  // ---------- Well-formed characters, section 4 of RFC 3629 ----------

  predicate Tail(b: Byte) { 0x80 <= b <= 0xBF }

  predicate IsUtf8Char(s: seq<Byte>) {
    || (|s| == 1 && s[0] <= 0x7F)
    || (|s| == 2 && 0xC2 <= s[0] <= 0xDF && Tail(s[1]))
    || (|s| == 3 && Tail(s[1]) && Tail(s[2])
        && (s[0] == 0xE0 ==> 0xA0 <= s[1]) && (s[0] == 0xED ==> s[1] <= 0x9F) && 0xE0 <= s[0] <= 0xEF)
    || (|s| == 4 && Tail(s[1]) && Tail(s[2]) && Tail(s[3])
        && (s[0] == 0xF0 ==> 0x90 <= s[1]) && (s[0] == 0xF4 ==> s[1] <= 0x8F) && 0xF0 <= s[0] <= 0xF4)
  }

  /** `text[p..p + n]` is a well-formed character. */
  predicate CharAt(text: seq<Byte>, p: nat, n: nat) {
    n > 0 && p + n <= |text| && IsUtf8Char(text[p..p + n])
  }

  lemma EncodedIsUtf8(cp: int)
    requires IsScalar(cp) && cp != 0
    ensures IsUtf8Char(FromCharCode(cp)) && FromCharCode(cp)[0] != 0
  {
    if cp > 0xFFFF {
      EncodedFourBytes(cp);
    } else if cp > 0x7FF {
      EncodedThreeBytes(cp);
    }
  }

  lemma EncodedThreeBytes(cp: int)
    requires IsScalar(cp) && 0x7FF < cp <= 0xFFFF
    ensures IsUtf8Char([cp / 4096 + 224, cp / 64 % 64 + 128, cp % 64 + 128])
  {
    assert cp / 64 / 64 == cp / 4096;
  }

  lemma EncodedFourBytes(cp: int)
    requires 0xFFFF < cp <= 0x10FFFF
    ensures IsUtf8Char([cp / 262144 + 240, cp / 4096 % 64 + 128, cp / 64 % 64 + 128, cp % 64 + 128])
  {
    assert cp / 4096 / 64 == cp / 262144;
  }

  // ---------- Base-64 digits ----------

  lemma Join(cp: nat)
    ensures cp == cp / 64 * 64 + cp % 64
    ensures cp == cp / 4096 * 4096 + cp / 64 % 64 * 64 + cp % 64
    ensures cp == cp / 262144 * 262144 + cp / 4096 % 64 * 4096 + cp / 64 % 64 * 64 + cp % 64
  {
    assert cp / 64 / 64 == cp / 4096;
    assert cp / 4096 / 64 == cp / 262144;
  }

  lemma Split(a: nat, b: nat, c: nat)
    requires b < 64 && c < 64
    ensures var cp := a * 4096 + b * 64 + c; cp / 4096 == a && cp / 64 % 64 == b && cp % 64 == c
  {
    var cp := a * 4096 + b * 64 + c;
    assert cp / 64 == a * 64 + b;
  }

  lemma SplitFour(a: nat, b: nat, c: nat, d: nat)
    requires b < 64 && c < 64 && d < 64
    ensures var cp := a * 262144 + b * 4096 + c * 64 + d;
            cp / 262144 == a && cp / 4096 % 64 == b && cp / 64 % 64 == c && cp % 64 == d
  {
    Split(a * 64 + b, c, d);
  }

  // ---------- Decoding and encoding ----------

  /** Decoding what encoding wrote, wherever it stands. */
  lemma DecodeEncoded(text: seq<Byte>, p: nat, cp: int)
    requires IsScalar(cp) && cp != 0
    requires p + |FromCharCode(cp)| <= |text| && text[p..p + |FromCharCode(cp)|] == FromCharCode(cp)
    ensures CharCodeAt(text, p) == CharCode(cp, |FromCharCode(cp)|)
  {
    var e := FromCharCode(cp);
    assert text[p] == e[0];
    assert |e| > 1 ==> text[p + 1] == e[1];
    assert |e| > 2 ==> text[p + 2] == e[2];
    assert |e| > 3 ==> text[p + 3] == e[3];
    Join(cp);
  }

  /** The code point of a well-formed character, as section 3 of RFC 3629 assigns it. */
  function CodePoint(e: seq<Byte>): (r: nat)
    requires IsUtf8Char(e)
  {
    var lead: int := e[0];
    if |e| == 1 then lead
    else if |e| == 2 then (lead - 0xC0) * 64 + Low(e[1])
    else if |e| == 3 then (lead - 0xE0) * 4096 + Low(e[1]) * 64 + Low(e[2])
    else (lead - 0xF0) * 262144 + Low(e[1]) * 4096 + Low(e[2]) * 64 + Low(e[3])
  }

  /** The six bits that a tail byte carries. */
  function Low(b: Byte): int { b - 0x80 }

  lemma EncodeCodePoint(e: seq<Byte>)
    requires IsUtf8Char(e) && e[0] != 0
    ensures IsScalar(CodePoint(e)) && CodePoint(e) != 0 && FromCharCode(CodePoint(e)) == e
  {
    if |e| == 2 {
      Split(0, e[0] - 192, e[1] - 128);
    } else if |e| == 3 {
      Split(e[0] - 224, e[1] - 128, e[2] - 128);
    } else if |e| == 4 {
      EncodeFourBytes(e);
    }
  }

  lemma EncodeFourBytes(e: seq<Byte>)
    requires IsUtf8Char(e) && |e| == 4
    ensures IsScalar(CodePoint(e)) && CodePoint(e) != 0 && FromCharCode(CodePoint(e)) == e
  {
    SplitFour(e[0] - 240, e[1] - 128, e[2] - 128, e[3] - 128);
  }

  lemma DecodeCodePoint(text: seq<Byte>, p: nat, n: nat)
    requires p + n <= |text| && IsUtf8Char(text[p..p + n])
    ensures CharCodeAt(text, p) == CharCode(CodePoint(text[p..p + n]), n)
  {
    var e := text[p..p + n];
    assert text[p] == e[0];
    assert n > 1 ==> text[p + 1] == e[1];
    assert n > 2 ==> text[p + 2] == e[2];
    assert n > 3 ==> text[p + 3] == e[3];
  }

  /** The decoder and the encoder undo each other exactly at well-formed characters other than NUL. */
  lemma ReencodesIff(text: seq<Byte>, p: nat)
    requires p <= |text|
    ensures var c := CharCodeAt(text, p);
            (c.code > 0 && p + c.length <= |text| && FromCharCode(c.code) == text[p..p + c.length])
            <==> exists n: nat :: CharAt(text, p, n) && text[p] != 0
  {
    hide IsUtf8Char;
    var c := CharCodeAt(text, p);
    if c.code > 0 && p + c.length <= |text| && FromCharCode(c.code) == text[p..p + c.length] {
      assert IsScalar(c.code);
      EncodedIsUtf8(c.code);
      assert text[p] == text[p..p + c.length][0];
      assert CharAt(text, p, c.length);
    }
    if n: nat :| CharAt(text, p, n) && text[p] != 0 {
      DecodeCodePoint(text, p, n);
      EncodeCodePoint(text[p..p + n]);
    }
  }

  // ---------- Whole texts ----------

  function EncodeAll(cps: seq<int>): seq<Byte> {
    if cps == [] then [] else FromCharCode(cps[0]) + EncodeAll(cps[1..])
  }

  datatype Decoded = Failed | Codes(cps: seq<int>)

  /** Decoding character by character, advancing by `length`. */
  function DecodeFrom(text: seq<Byte>, p: nat): Decoded
    requires p <= |text|
    decreases |text| - p
  {
    if p == |text| then Codes([])
    else
      var c := CharCodeAt(text, p);
      if c.code < 0 then Failed
      else
        match DecodeFrom(text, p + c.length)
        case Failed => Failed
        case Codes(cps) => Codes([c.code] + cps)
  }

  /** A text of well-formed characters from `p` on. */
  ghost predicate WellFormedFrom(text: seq<Byte>, p: nat)
    requires p <= |text|
    decreases |text| - p
  {
    p == |text| || exists n: nat :: CharAt(text, p, n) && WellFormedFrom(text, p + n)
  }

  lemma FirstChar(text: seq<Byte>, p: nat) returns (n: nat)
    requires p < |text| && WellFormedFrom(text, p)
    ensures CharAt(text, p, n) && p + n <= |text| && n > 0 && WellFormedFrom(text, p + n)
  {
    n :| CharAt(text, p, n) && WellFormedFrom(text, p + n);
  }

  lemma {:induction false} DecodeEncodeAllFrom(before: seq<Byte>, cps: seq<int>)
    requires forall i :: 0 <= i < |cps| ==> IsScalar(cps[i]) && cps[i] != 0
    ensures DecodeFrom(before + EncodeAll(cps), |before|) == Codes(cps)
    decreases |cps|
  {
    hide FromCharCode, CharCodeAt, IsUtf8Char;
    var text := before + EncodeAll(cps);
    if cps == [] {
      assert text == before;
    } else {
      var e := FromCharCode(cps[0]);
      EncodedIsUtf8(cps[0]);
      assert text[|before|..|before| + |e|] == e;
      DecodeEncoded(text, |before|, cps[0]);
      DecodeEncodeAllFrom(before + e, cps[1..]);
      assert text == (before + e) + EncodeAll(cps[1..]);
      assert [cps[0]] + cps[1..] == cps;
    }
  }

  /** Decoding the encoding of scalar values other than NUL gives them back. */
  lemma DecodeEncodeAll(cps: seq<int>)
    requires forall i :: 0 <= i < |cps| ==> IsScalar(cps[i]) && cps[i] != 0
    ensures DecodeFrom(EncodeAll(cps), 0) == Codes(cps)
  {
    DecodeEncodeAllFrom([], cps);
    assert [] + EncodeAll(cps) == EncodeAll(cps);
  }

  /** Encoding what a well-formed text without NUL decodes to is the identity. */
  lemma {:induction false} EncodeDecodeAll(text: seq<Byte>, p: nat)
    requires p <= |text| && WellFormedFrom(text, p) && 0 !in text
    ensures DecodeFrom(text, p).Codes? && EncodeAll(DecodeFrom(text, p).cps) == text[p..]
    decreases |text| - p
  {
    hide FromCharCode, CharCodeAt, IsUtf8Char, CodePoint;
    if p < |text| {
      var n: nat :| CharAt(text, p, n) && WellFormedFrom(text, p + n);
      DecodeCodePoint(text, p, n);
      EncodeCodePoint(text[p..p + n]);
      EncodeDecodeAll(text, p + n);
      var cps := DecodeFrom(text, p + n).cps;
      var code := CodePoint(text[p..p + n]);
      assert ([code] + cps)[1..] == cps;
      assert text[p..p + n] + text[p + n..] == text[p..];
    }
  }
}
