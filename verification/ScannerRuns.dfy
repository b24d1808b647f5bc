/**
 * Runs of a scanner's callers: plain calls of `scan`, and look-aheads and tries nested to any depth.
 */
module ScannerRuns {
  import opened ScannerText
  import opened ScannerSpec

  /** Where the current `tokenValue` was read: the value itself is a function of text and place. */
  datatype Value = NoValue | ReadAt(tokenPos: nat)

  /** The six fields that speculation saves. */
  datatype Saved = Saved(pos: nat, startPos: nat, tokenPos: nat, token: Kind, tokenValue: Value, tokenFlags: set<Flag>)

  /** The kinds whose case of `scan` assigns `tokenValue`; the others leave the previous value. */
  predicate HasValue(k: Kind) {
    k.StringLiteral? || k.NoSubstitutionTemplateLiteral? || k.TemplateHead? || k.NumericLiteral?
    || k.BigIntLiteral? || k.PrivateIdentifier? || k.Word?
  }

  /** The saved fields after one call of `scan`. */
  function Next(skip: bool, t: string, s: Saved): (r: Saved)
    requires s.pos <= |t|
    ensures s.pos <= r.pos <= |t|
  {
    var x := Scan(skip, t, s.pos);
    Saved(x.pos, x.startPos, x.tokenPos, x.kind, if HasValue(x.kind) then ReadAt(x.tokenPos) else s.tokenValue, x.flags)
  }

  /** The end of the file, trivia, operators and unknown characters keep the value of an earlier token. */
  lemma ValueIsKeptIff(skip: bool, t: string, s: Saved)
    requires s.pos <= |t|
    ensures var x := Next(skip, t, s);
            var kept := x.token.EndOfFile? || IsTrivia(x.token) || x.token.Punctuation? || x.token.Unknown?;
            x.tokenValue == if kept then s.tokenValue else ReadAt(x.tokenPos)
  {
    hide Scan;
  }

  /** The saved fields after `n` plain calls of `scan`. */
  function Scans(skip: bool, t: string, n: nat, s: Saved): (r: Saved)
    requires s.pos <= |t|
    ensures s.pos <= r.pos <= |t|
    decreases n
  {
    if n == 0 then s else Scans(skip, t, n - 1, Next(skip, t, s))
  }

  // ---------- Runs of callers ----------

  /**
   * What a caller does, call by call: any run of any callback is such a list, with the results the
   * callbacks returned written down. `isLookahead` tells `lookAhead` from `tryScan`.
   */
  datatype Run =
    | Done
    | ScanThen(rest: Run)
    | SpeculateThen(callback: Run, isLookahead: bool, result: bool, rest: Run)

  /** The calls of `scan` left once look-aheads and failed tries are deleted. */
  function Committed(r: Run): nat {
    match r
    case Done => 0
    case ScanThen(rest) => 1 + Committed(rest)
    case SpeculateThen(callback, isLookahead, result, rest) =>
      (if isLookahead || !result then 0 else Committed(callback)) + Committed(rest)
  }

  /** The saved fields after `lookAhead` or `tryScan`: what they were, unless a try succeeds. */
  function AfterCallback(skip: bool, t: string, callback: Run, isLookahead: bool, result: bool, s: Saved): (r: Saved)
    requires s.pos <= |t|
    ensures s.pos <= r.pos <= |t|
  {
    if isLookahead || !result then s else Scans(skip, t, Committed(callback), s)
  }

  /** The entries that `n` plain calls of `scan` record. */
  function Recorded(skip: bool, t: string, n: nat, s: Saved): seq<Directive>
    requires s.pos <= |t|
    decreases n
  {
    if n == 0 then [] else Scan(skip, t, s.pos).directives + Recorded(skip, t, n - 1, Next(skip, t, s))
  }

  /** The entries a run records: those of every call of `scan` in it, undone or not. */
  function RecordedBy(skip: bool, t: string, r: Run, s: Saved): seq<Directive>
    requires s.pos <= |t|
    decreases r
  {
    match r
    case Done => []
    case ScanThen(rest) => Scan(skip, t, s.pos).directives + RecordedBy(skip, t, rest, Next(skip, t, s))
    case SpeculateThen(callback, isLookahead, result, rest) =>
      RecordedBy(skip, t, callback, s)
      + RecordedBy(skip, t, rest, AfterCallback(skip, t, callback, isLookahead, result, s))
  }

  /** How many of the entries come from calls that are undone. */
  function RecordedInVain(skip: bool, t: string, r: Run, s: Saved): nat
    requires s.pos <= |t|
    decreases r
  {
    match r
    case Done => 0
    case ScanThen(rest) => RecordedInVain(skip, t, rest, Next(skip, t, s))
    case SpeculateThen(callback, isLookahead, result, rest) =>
      if isLookahead || !result then |RecordedBy(skip, t, callback, s)| + RecordedInVain(skip, t, rest, s)
      else
        RecordedInVain(skip, t, callback, s)
        + RecordedInVain(skip, t, rest, Scans(skip, t, Committed(callback), s))
  }

  lemma {:induction false} ScansAdd(skip: bool, t: string, m: nat, n: nat, s: Saved)
    requires s.pos <= |t|
    ensures Scans(skip, t, n, Scans(skip, t, m, s)) == Scans(skip, t, m + n, s)
    decreases m
  {
    hide Next;
    if m > 0 {
      ScansAdd(skip, t, m - 1, n, Next(skip, t, s));
    }
  }

  lemma NothingRuns(skip: bool, t: string, s: Saved)
    requires s.pos <= |t|
    ensures Scans(skip, t, Committed(Done), s) == s && RecordedBy(skip, t, Done, s) == []
  {
  }

  lemma ScansThenRun(skip: bool, t: string, rest: Run, s: Saved)
    requires s.pos <= |t|
    ensures Scans(skip, t, Committed(ScanThen(rest)), s) == Scans(skip, t, Committed(rest), Next(skip, t, s))
    ensures RecordedBy(skip, t, ScanThen(rest), s)
            == Scan(skip, t, s.pos).directives + RecordedBy(skip, t, rest, Next(skip, t, s))
  {
    hide Next, Scan, IsTrivia;
    var next := Next(skip, t, s);
    assert Scans(skip, t, 1 + Committed(rest), s) == Scans(skip, t, Committed(rest), next);
  }

  lemma SpeculationThenScans(skip: bool, t: string, callback: Run, isLookahead: bool, result: bool, rest: Run, s: Saved)
    requires s.pos <= |t|
    ensures Scans(skip, t, Committed(SpeculateThen(callback, isLookahead, result, rest)), s)
            == Scans(skip, t, Committed(rest), AfterCallback(skip, t, callback, isLookahead, result, s))
  {
    hide Next, Scan, Scans, IsTrivia;
    if !isLookahead && result {
      ScansAdd(skip, t, Committed(callback), Committed(rest), s);
    }
  }

  lemma SpeculationThenRun(skip: bool, t: string, callback: Run, isLookahead: bool, result: bool, rest: Run, s: Saved)
    requires s.pos <= |t|
    ensures var run, mid := SpeculateThen(callback, isLookahead, result, rest),
                            AfterCallback(skip, t, callback, isLookahead, result, s);
            && Scans(skip, t, Committed(run), s) == Scans(skip, t, Committed(rest), mid)
            && RecordedBy(skip, t, run, s) == RecordedBy(skip, t, callback, s) + RecordedBy(skip, t, rest, mid)
  {
    hide Next, Scan, Scans, IsTrivia, Committed, AfterCallback;
    SpeculationThenScans(skip, t, callback, isLookahead, result, rest, s);
  }

  lemma {:induction false} RecordedAdd(skip: bool, t: string, m: nat, n: nat, s: Saved)
    requires s.pos <= |t|
    ensures Recorded(skip, t, m, s) + Recorded(skip, t, n, Scans(skip, t, m, s)) == Recorded(skip, t, m + n, s)
    decreases m
  {
    hide Scan, Next;
    if m > 0 {
      RecordedAdd(skip, t, m - 1, n, Next(skip, t, s));
    }
  }

  /** A run records as many entries as its committed calls alone would, and those in vain on top. */
  lemma {:induction false} RunRecords(skip: bool, t: string, r: Run, s: Saved)
    requires s.pos <= |t|
    ensures |RecordedBy(skip, t, r, s)| == |Recorded(skip, t, Committed(r), s)| + RecordedInVain(skip, t, r, s)
    ensures RecordedInVain(skip, t, r, s) == 0 ==>
              RecordedBy(skip, t, r, s) == Recorded(skip, t, Committed(r), s)
    decreases r
  {
    hide Scan, Next;
    match r
    case Done =>
    case ScanThen(rest) =>
      RunRecords(skip, t, rest, Next(skip, t, s));
    case SpeculateThen(callback, isLookahead, result, rest) =>
      RunRecords(skip, t, callback, s);
      if isLookahead || !result {
        RunRecords(skip, t, rest, s);
      } else {
        RunRecords(skip, t, rest, Scans(skip, t, Committed(callback), s));
        RecordedAdd(skip, t, Committed(callback), Committed(rest), s);
      }
  }

  /**
   * `commentDirectives` is what it would be without the undone calls exactly when those calls met
   * no comment; it is not among the fields that are restored.
   */
  lemma DirectivesSurviveIff(skip: bool, t: string, r: Run, s: Saved)
    requires s.pos <= |t|
    ensures RecordedBy(skip, t, r, s) == Recorded(skip, t, Committed(r), s) <==> RecordedInVain(skip, t, r, s) == 0
  {
    RunRecords(skip, t, r, s);
  }

  /** After `n` plain calls the fields are those of the `n`-th token of the stream. */
  lemma {:induction false} ScansFollowStream(skip: bool, t: string, n: nat, s: Saved)
    requires s.pos <= |t| && 1 <= n <= |Stream(skip, t, s.pos)|
    ensures var x, r := Stream(skip, t, s.pos)[n - 1], Scans(skip, t, n, s);
            r.token == x.kind && r.startPos == x.startPos && r.tokenPos == x.tokenPos && r.pos == x.pos
            && r.tokenFlags == x.flags
    decreases n
  {
    hide Scan;
    var next := Next(skip, t, s);
    assert Scans(skip, t, n, s) == Scans(skip, t, n - 1, next);
    if n > 1 {
      ScansFollowStream(skip, t, n - 1, next);
    } else {
      assert Scans(skip, t, 0, next) == next;
    }
  }

  /** Once the end of the text is reached every further call stays there. */
  lemma {:induction false} ScansStayAtEnd(skip: bool, t: string, n: nat, s: Saved)
    requires s.pos == |t| && n > 0
    ensures Scans(skip, t, n, s) == s.(startPos := |t|, tokenPos := |t|, token := EndOfFile, tokenFlags := {})
    decreases n
  {
    if n > 1 {
      ScansStayAtEnd(skip, t, n - 1, Next(skip, t, s));
    }
  }
}
