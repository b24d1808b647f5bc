/**
 * The two modes of the scanner produce the same tokens, every stream covers its text exactly,
 * and the trivia skipper that lives outside the scanner stops where the scanner does.
 */
module ScannerStreams {
  import opened ScannerText
  import opened ScannerSpec

  // ---------- Coverage ----------

  predicate InText(t: string, xs: seq<Scanned>) {
    forall i :: 0 <= i < |xs| ==> xs[i].startPos <= xs[i].pos <= |t|
  }

  function Slices(t: string, xs: seq<Scanned>): string
    requires InText(t, xs)
  {
    if xs == [] then "" else t[xs[0].startPos..xs[0].pos] + Slices(t, xs[1..])
  }

  lemma SlicesCons(t: string, x: Scanned, xs: seq<Scanned>)
    requires x.startPos <= x.pos <= |t| && InText(t, xs)
    ensures InText(t, [x] + xs)
    ensures Slices(t, [x] + xs) == t[x.startPos..x.pos] + Slices(t, xs)
  {
    assert ([x] + xs)[1..] == xs;
  }

  lemma SlicesMeet(t: string, from: nat, to: nat)
    requires from <= to <= |t|
    ensures t[from..to] + t[to..] == t[from..]
  {
  }

  /** The slices from `startPos` to `pos` of successive tokens are the text from `pos` on. */
  lemma {:induction false} StreamCoversText(skip: bool, t: string, pos: nat)
    requires pos <= |t|
    ensures InText(t, Stream(skip, t, pos)) && Slices(t, Stream(skip, t, pos)) == t[pos..]
    decreases |t| - pos
  {
    hide Scan, Slices, InText;
    var x := Scan(skip, t, pos);
    SlicesMeet(t, pos, x.pos);
    if x.kind.EndOfFile? {
      EmptySlices(t);
      SlicesCons(t, x, []);
      assert Stream(skip, t, pos) == [x] + [];
    } else {
      StreamCoversText(skip, t, x.pos);
      SlicesCons(t, x, Stream(skip, t, x.pos));
    }
  }

  lemma EmptySlices(t: string)
    ensures InText(t, []) && Slices(t, []) + t[|t|..] == ""
  {
  }

  // ---------- The two modes agree ----------

  /** Drops trivia tokens, passing their start, flags and directives on to the token they precede. */
  function Merge(xs: seq<Scanned>, start: nat, flags: set<Flag>, directives: seq<Directive>): seq<Scanned> {
    if xs == [] then []
    else if IsTrivia(xs[0].kind) then
      Merge(xs[1..], start, flags + (xs[0].flags - {Unterminated}), directives + xs[0].directives)
    else
      [xs[0].(startPos := start, flags := flags + xs[0].flags, directives := directives + xs[0].directives)]
      + Merge(xs[1..], xs[0].pos, {}, [])
  }

  lemma {:induction false} SkipBlanks(t: string, pos: nat)
    requires pos < |t| && IsBlank(t[pos])
    ensures Skip(t, pos) == Skip(t, BlankEnd(t, pos))
    decreases |t| - pos
  {
    var rest := Skip(t, pos + 1);
    assert Skip(t, pos) == Lead(rest.end, {} + rest.flags, [] + rest.directives);
    assert Skip(t, pos) == rest;
    if pos + 1 < |t| && IsBlank(t[pos + 1]) {
      SkipBlanks(t, pos + 1);
    }
  }

  /** Skipping from a trivia token is passing that token and skipping on from its end. */
  lemma SkipIsTriviaThenSkip(t: string, pos: nat)
    requires StartsTrivia(t, pos)
    ensures var x := Trivia(t, pos);
            var rest := Skip(t, x.end);
            Skip(t, pos) == Lead(rest.end, (x.flags - {Unterminated}) + rest.flags,
                                 Directives(t, pos) + rest.directives)
  {
    var x := Trivia(t, pos);
    if IsLineBreak(t[pos]) {
      if t[pos] == CR && pos + 1 < |t| && t[pos + 1] == LF {
        var rest := Skip(t, pos + 2);
        assert Skip(t, pos + 1) == Lead(rest.end, {PrecedingLineBreak} + rest.flags, [] + rest.directives);
        assert [] + ([] + rest.directives) == [] + rest.directives;
        assert {PrecedingLineBreak} + ({PrecedingLineBreak} + rest.flags) == {PrecedingLineBreak} + rest.flags;
      }
      assert x.flags - {Unterminated} == {PrecedingLineBreak};
    } else if IsBlank(t[pos]) {
      SkipBlanks(t, pos);
      var rest := Skip(t, x.end);
      assert (x.flags - {Unterminated}) + rest.flags == rest.flags;
      assert [] + rest.directives == rest.directives;
    } else if StartsComment(t, pos, '/') {
      assert x.flags - {Unterminated} == {};
    } else {
      assert x.flags - {Unterminated} == CommentFlags(t, pos);
    }
  }

  /** Merging after some trivia has been passed: the pending parts stay in front. */
  lemma {:induction false} MergeFrom(t: string, pos: nat, start: nat, flags: set<Flag>, directives: seq<Directive>)
    requires pos <= |t|
    ensures var lead := Skip(t, pos);
            var x := Scan(true, t, pos);
            Merge(Stream(false, t, pos), start, flags, directives)
            == [x.(startPos := start, flags := flags + x.flags, directives := directives + x.directives)]
               + (if x.kind.EndOfFile? then [] else Merge(Stream(false, t, x.pos), x.pos, {}, []))
    decreases |t| - pos
  {
    var xs := Stream(false, t, pos);
    var y := xs[0];
    if StartsTrivia(t, pos) {
      assert xs[1..] == Stream(false, t, y.pos);
      SkipIsTriviaThenSkip(t, pos);
      MergeFrom(t, y.pos, start, flags + (y.flags - {Unterminated}), directives + y.directives);
      PassTrivia(t, pos, start, flags, directives);
    } else {
      assert Skip(t, pos) == Lead(pos, {}, []);
      assert Scan(true, t, pos) == y;
      if y.kind.EndOfFile? {
        assert xs[1..] == [];
      } else {
        assert xs[1..] == Stream(false, t, y.pos);
      }
    }
  }

  /** The token behind a piece of trivia, with the pending parts regrouped. */
  lemma PassTrivia(t: string, pos: nat, start: nat, flags: set<Flag>, directives: seq<Directive>)
    requires StartsTrivia(t, pos)
    ensures var y := Scan(false, t, pos);
            var x := Scan(true, t, pos);
            var z := Scan(true, t, y.pos);
            && x.(startPos := start, flags := flags + x.flags, directives := directives + x.directives)
               == z.(startPos := start, flags := (flags + (y.flags - {Unterminated})) + z.flags,
                     directives := (directives + y.directives) + z.directives)
            && x.kind == z.kind && x.pos == z.pos
  {
    hide Token, Trivia, Directives;
    SkipIsTriviaThenSkip(t, pos);
    var y := Scan(false, t, pos);
    var lead, rest := Skip(t, pos), Skip(t, y.pos);
    var own := if lead.end == |t| then {} else Token(t, lead.end).flags;
    assert flags + (((y.flags - {Unterminated}) + rest.flags) + own)
           == (flags + (y.flags - {Unterminated})) + (rest.flags + own);
    assert directives + (y.directives + rest.directives) == (directives + y.directives) + rest.directives;
  }

  /**
   * The tokens scanned with trivia skipped are the tokens scanned without, minus trivia, with the
   * flags and directives of that trivia on the token behind it. Only an unclosed comment's
   * `Unterminated` flag is not passed on.
   */
  lemma {:induction false} SkippingStreamIsMergedStream(t: string, pos: nat)
    requires pos <= |t|
    ensures Stream(true, t, pos) == Merge(Stream(false, t, pos), pos, {}, [])
    decreases |t| - pos
  {
    var x := Scan(true, t, pos);
    MergeFrom(t, pos, pos, {}, []);
    assert {} + x.flags == x.flags && [] + x.directives == x.directives;
    assert x.(startPos := pos, flags := {} + x.flags, directives := [] + x.directives) == x;
    if !x.kind.EndOfFile? {
      SkippingStreamIsMergedStream(t, x.pos);
    }
  }

  // ---------- Line breaks ----------

  lemma {:induction false} BreakInLead(t: string, pos: nat)
    requires pos <= |t|
    ensures PrecedingLineBreak in Skip(t, pos).flags <==> HasLineBreak(t, pos, Skip(t, pos).end)
    decreases |t| - pos
  {
    if StartsTrivia(t, pos) {
      var next := SkipOne(t, pos);
      BreakInLead(t, next);
      BreakInOne(t, pos);
      HasLineBreakSplits(t, pos, next, Skip(t, pos).end);
    }
  }

  lemma HasLineBreakSplits(t: string, a: nat, b: nat, c: nat)
    requires a <= b <= c <= |t|
    ensures HasLineBreak(t, a, c) <==> HasLineBreak(t, a, b) || HasLineBreak(t, b, c)
  {
  }

  lemma BreakInOne(t: string, pos: nat)
    requires StartsTrivia(t, pos)
    ensures PrecedingLineBreak in SkipFlags(t, pos) <==> HasLineBreak(t, pos, SkipOne(t, pos))
  {
    if StartsComment(t, pos, '*') {
      var closer := CloserOf(t, pos + 2);
      HasLineBreakSplits(t, pos, pos + 2, CommentEnd(t, pos));
      HasLineBreakSplits(t, pos + 2, closer, CommentEnd(t, pos));
      assert !HasLineBreak(t, pos, pos + 2);
      assert !HasLineBreak(t, closer, CommentEnd(t, pos));
    }
  }

  /** The tokens of no kind set the line-break flag themselves. */
  lemma TokensBreakNoLine(t: string, pos: nat)
    requires pos < |t|
    ensures PrecedingLineBreak !in Token(t, pos).flags
  {
    hide Punctuator, IdentifierEnd, DigitsEnd, OctalEnd, StringEnd, TemplateEnd;
  }

  /** In skipping mode `PrecedingLineBreak` is set exactly when a line ends before the token. */
  lemma PrecedingLineBreakIff(t: string, pos: nat)
    requires pos <= |t|
    ensures var x := Scan(true, t, pos);
            PrecedingLineBreak in x.flags <==> HasLineBreak(t, x.startPos, x.tokenPos)
  {
    BreakInLead(t, pos);
    if Skip(t, pos).end < |t| {
      TokensBreakNoLine(t, Skip(t, pos).end);
    }
  }

  // ---------- The trivia skipper outside the scanner ----------

  /** Where skipping ends is where it ends one turn later. */
  lemma SkipsOnce(t: string, pos: nat)
    requires pos <= |t|
    ensures Skip(t, pos).end == if StartsTrivia(t, pos) then Skip(t, SkipOne(t, pos)).end else pos
  {
  }

  lemma ScanSkips(t: string, from: nat)
    requires from <= |t|
    ensures Scan(true, t, from).tokenPos == Skip(t, from).end
  {
    hide Skip, Token;
  }

  /**
   * The free function `skipTrivia`, with its optional arguments left out: one loop with a switch
   * that takes CR and LF together and reads comments with loops of its own.
   */
  method SkipTrivia(t: string, from: nat) returns (pos: nat)
    requires from <= |t|
    ensures pos == Scan(true, t, from).tokenPos
  {
    hide LineEnd, CloserOf, CommentEnd, Skip, Scan;
    ScanSkips(t, from);
    pos := from;
    while true
      invariant from <= pos <= |t|
      invariant Skip(t, pos).end == Skip(t, from).end
      decreases |t| - pos
    {
      var c := At(t, pos);
      SkipsOnce(t, pos);
      if pos < |t| && IsLineBreak(c) {
        if c == CR && At(t, pos + 1) == LF {
          SkipsOnce(t, pos + 1);
          pos := pos + 1;
        }
        pos := pos + 1;
      } else if pos < |t| && IsBlank(c) {
        pos := pos + 1;
      } else if c == '/' && At(t, pos + 1) == '/' {
        assert StartsComment(t, pos, '/');
        pos := LineLoop(t, pos + 2);
      } else if c == '/' && At(t, pos + 1) == '*' {
        assert StartsComment(t, pos, '*');
        pos := CommentLoop(t, pos);
      } else {
        return;
      }
    }
  }

  method LineLoop(t: string, from: nat) returns (pos: nat)
    requires from <= |t|
    ensures pos == LineEnd(t, from)
  {
    pos := from;
    while pos < |t|
      invariant from <= pos <= |t| && LineEnd(t, pos) == LineEnd(t, from)
    {
      if IsLineBreak(At(t, pos)) {
        break;
      }
      pos := pos + 1;
    }
  }

  method CommentLoop(t: string, start: nat) returns (pos: nat)
    requires StartsComment(t, start, '*')
    ensures pos == CommentEnd(t, start)
  {
    pos := start + 2;
    while pos < |t|
      invariant start + 2 <= pos <= |t| && CloserOf(t, pos) == CloserOf(t, start + 2)
    {
      if At(t, pos) == '*' && At(t, pos + 1) == '/' {
        pos := pos + 2;
        return;
      }
      pos := pos + 1;
    }
  }
}
