/**
 * The operators as the token table spells them, and what the scanner delivers of them to the trial
 * for type arguments.
 */
module OperatorSpelling {
  import opened Operators
  import opened TypeArguments
  import ScannerText
  import ScannerSpec

  function AssignmentSpelling(token: AssignmentToken): (s: string)
    ensures s != ""
  {
    match token
    case EqualsToken => "="
    case PlusEqualsToken => "+="
    case MinusEqualsToken => "-="
    case AsteriskEqualsToken => "*="
    case AsteriskAsteriskEqualsToken => "**="
    case SlashEqualsToken => "/="
    case PercentEqualsToken => "%="
    case LessThanLessThanEqualsToken => "<<="
    case GreaterThanGreaterThanEqualsToken => ">>="
    case GreaterThanGreaterThanGreaterThanEqualsToken => ">>>="
    case AmpersandEqualsToken => "&="
    case BarEqualsToken => "|="
    case BarBarEqualsToken => "||="
    case AmpersandAmpersandEqualsToken => "&&="
    case QuestionQuestionEqualsToken => "??="
    case CaretEqualsToken => "^="
  }

  /** With `===` where the table has a second `==`. */
  function Spelling(op: BinaryOperator): (s: string)
    ensures s != ""
  {
    match op
    case CommaToken => ","
    case Assignment(token) => AssignmentSpelling(token)
    case QuestionQuestionToken => "??"
    case BarBarToken => "||"
    case AmpersandAmpersandToken => "&&"
    case BarToken => "|"
    case CaretToken => "^"
    case AmpersandToken => "&"
    case EqualsEqualsToken => "=="
    case ExclamationEqualsToken => "!="
    case EqualsEqualsEqualsToken => "==="
    case ExclamationEqualsEqualsToken => "!=="
    case LessThanToken => "<"
    case GreaterThanToken => ">"
    case LessThanEqualsToken => "<="
    case GreaterThanEqualsToken => ">="
    case InstanceOfKeyword => "instanceof"
    case InKeyword => "in"
    case LessThanLessThanToken => "<<"
    case GreaterThanGreaterThanToken => ">>"
    case GreaterThanGreaterThanGreaterThanToken => ">>>"
    case PlusToken => "+"
    case MinusToken => "-"
    case AsteriskToken => "*"
    case SlashToken => "/"
    case PercentToken => "%"
    case AsteriskAsteriskToken => "**"
  }

  /** Which operators and brackets the trial tells apart; of the others it asks whether one may begin an expression. */
  function RawPunctuation(s: string): seq<Raw> {
    if |s| == 1 then
      match s[0]
      case '(' => [OpenParen]
      case ')' => [CloseParen]
      case ',' => [Comma]
      case '.' => [Dot]
      case '<' => [Less]
      case '>' => [Greater]
      case '=' => [Equals]
      case '*' => [Star]
      case '-' => [Minus]
      case '|' => [Bar]
      case '&' => [Ampersand]
      case c => [Other(c in "/^+%")]
    else if |s| == 2 then
      match (s[0], s[1])
      case ('<', '<') => [LessJoined, Less]
      case ('*', '=') => [StarEquals]
      case ('?', '?') => [QuestionQuestion]
      case ('/', '=') | ('|', '|') | ('&', '&') | ('=', '=') | ('!', '=') | ('<', '=') | ('*', '*') => [Other(true)]
      case _ => [Other(false)]
    else [Other(|s| == 3 && s[1] == '=' && s[2] == '=')]
  }

  function RawOf(kind: ScannerSpec.Kind): seq<Raw> {
    match kind
    case Punctuation(s) => RawPunctuation(s)
    case Word("in") => [In]
    case Word("instanceof") => [InstanceOf]
    case Word("this") => [This]
    case Word(_) => [TypeArguments.Word]
    case StringLiteral => [StringText]
    case NumericLiteral => [NumericText]
    case BigIntLiteral => [BigIntText]
    case NoSubstitutionTemplateLiteral => [TemplateText]
    case _ => []
  }

  /** The tokens of a text without trivia. */
  function Delivered(t: string): seq<Raw> {
    if t == "" then []
    else
      var token := ScannerSpec.Token(t, 0);
      RawOf(token.kind) + Delivered(t[token.end..])
  }

  /** Nothing but an operator begins here. */
  predicate BeginsOperator(c: char) {
    c !in "\"'`#." && !ScannerText.IsDigit(c) && !ScannerText.IsIdentifierStart(c)
  }

  lemma PunctuatorIsDelivered(s: string, rest: string)
    requires s != "" && BeginsOperator(s[0]) && ScannerSpec.Punctuator(s + rest, 0) == s
    ensures Delivered(s + rest) == RawPunctuation(s) + Delivered(rest)
  {
    hide ScannerSpec.Punctuator, RawPunctuation;
    assert (s + rest)[|s|..] == rest;
    assert (s + rest)[0] == s[0];
    assert ScannerSpec.Token(s + rest, 0) == ScannerSpec.Lexeme(ScannerSpec.Punctuation(s), |s|, {});
  }

  lemma AloneIsDelivered(s: string)
    requires s != "" && BeginsOperator(s[0]) && ScannerSpec.Punctuator(s, 0) == s
    ensures Delivered(s) == RawPunctuation(s)
  {
    assert s + "" == s;
    PunctuatorIsDelivered(s, "");
  }

  lemma WordIsDelivered(s: string)
    requires s != "" && ScannerText.IsIdentifierStart(s[0]) && forall i :: 0 <= i < |s| ==> ScannerText.IsIdentifierPart(s[i])
    ensures Delivered(s) == RawOf(ScannerSpec.Word(s))
  {
    hide ScannerSpec.Zero, ScannerSpec.Number, ScannerSpec.Hash, ScannerSpec.Quoted, ScannerSpec.Backtick;
    hide ScannerSpec.Punctuator, RawOf;
    assert ScannerText.IdentifierEnd(s, 0) == |s| && s[0..|s|] == s && s[|s|..] == "";
    assert ScannerSpec.Token(s, 0) == ScannerSpec.Lexeme(ScannerSpec.Word(s), |s|, {});
  }

  lemma GreaterIsDelivered(rest: string)
    ensures Delivered(">" + rest) == [Greater] + Delivered(rest)
  {
    PunctuatorIsDelivered(">", rest);
  }

  lemma EqualsIsDelivered()
    ensures Delivered("=") == [Equals]
  {
    AloneIsDelivered("=");
    hide Delivered;
  }

  lemma GreaterEqualsIsDelivered()
    ensures Delivered(">=") == [Greater, Equals]
    ensures Delivered(">>=") == [Greater, Greater, Equals]
    ensures Delivered(">>>=") == [Greater, Greater, Greater, Equals]
  {
    EqualsIsDelivered();
    hide *;
    assert ">=" == ">" + "=" && ">>=" == ">" + ">=" && ">>>=" == ">" + ">>=";
    GreaterIsDelivered("=");
    GreaterIsDelivered(">=");
    GreaterIsDelivered(">>=");
  }

  lemma GreatersAreDelivered()
    ensures Delivered(">") == [Greater]
    ensures Delivered(">>") == [Greater, Greater]
    ensures Delivered(">>>") == [Greater, Greater, Greater]
  {
    GreaterIsDelivered("");
    assert ">" + "" == ">";
    hide *;
    assert ">>" == ">" + ">" && ">>>" == ">" + ">>";
    GreaterIsDelivered(">");
    GreaterIsDelivered(">>");
  }

  lemma ShortAssignmentIsDelivered(token: AssignmentToken)
    requires |AssignmentSpelling(token)| <= 2
    ensures Delivered(AssignmentSpelling(token)) == RawAssignment(token)
  {
    AloneIsDelivered(AssignmentSpelling(token));
    hide Delivered;
  }

  lemma AssignmentIsDelivered(token: AssignmentToken)
    ensures Delivered(AssignmentSpelling(token)) == RawAssignment(token)
  {
    hide Delivered;
    if |AssignmentSpelling(token)| <= 2 {
      ShortAssignmentIsDelivered(token);
    } else if token in {GreaterThanGreaterThanEqualsToken, GreaterThanGreaterThanGreaterThanEqualsToken} {
      GreaterEqualsIsDelivered();
    } else {
      AloneIsDelivered(AssignmentSpelling(token));
    }
  }

  lemma ShortOperatorIsDelivered(op: BinaryOperator)
    requires |Spelling(op)| == 1
    ensures Delivered(Spelling(op)) == RawOperator(op)
  {
    AloneIsDelivered(Spelling(op));
    hide Delivered;
  }

  lemma LongOperatorIsDelivered(op: BinaryOperator)
    requires !op.Assignment? && 2 <= |Spelling(op)| <= 3 && Spelling(op)[0] != '>' && op != InKeyword
    ensures Delivered(Spelling(op)) == RawOperator(op)
  {
    AloneIsDelivered(Spelling(op));
    hide Delivered;
  }

  lemma KeywordIsDelivered(op: BinaryOperator)
    requires op == InKeyword || op == InstanceOfKeyword
    ensures Delivered(Spelling(op)) == RawOperator(op)
  {
    WordIsDelivered(Spelling(op));
    hide Delivered;
  }

  /** The scanner delivers of every operator what the trial is given for it. */
  lemma OperatorIsDelivered(op: BinaryOperator)
    ensures Delivered(Spelling(op)) == RawOperator(op)
  {
    hide Delivered;
    var s := Spelling(op);
    if op.Assignment? {
      AssignmentIsDelivered(op.token);
    } else if s[0] == '>' {
      GreaterEqualsIsDelivered();
      GreatersAreDelivered();
    } else if |s| == 1 {
      ShortOperatorIsDelivered(op);
    } else if op == InKeyword || op == InstanceOfKeyword {
      KeywordIsDelivered(op);
    } else {
      LongOperatorIsDelivered(op);
    }
  }
}
