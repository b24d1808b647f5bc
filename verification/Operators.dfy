/**
 * Binary operators of the expression grammar, with the precedence level and the
 * associativity that `getOperatorPrecedence`, `getBinaryOperatorPrecedence` and
 * `getOperatorAssociativity` give them.
 */
module Operators {

  datatype AssignmentToken =
    | EqualsToken
    | PlusEqualsToken
    | MinusEqualsToken
    | AsteriskEqualsToken
    | AsteriskAsteriskEqualsToken
    | SlashEqualsToken
    | PercentEqualsToken
    | LessThanLessThanEqualsToken
    | GreaterThanGreaterThanEqualsToken
    | GreaterThanGreaterThanGreaterThanEqualsToken
    | AmpersandEqualsToken
    | BarEqualsToken
    | BarBarEqualsToken
    | AmpersandAmpersandEqualsToken
    | QuestionQuestionEqualsToken
    | CaretEqualsToken

  datatype BinaryOperator =
    | CommaToken
    | Assignment(token: AssignmentToken)
    | QuestionQuestionToken
    | BarBarToken
    | AmpersandAmpersandToken
    | BarToken
    | CaretToken
    | AmpersandToken
    | EqualsEqualsToken
    | ExclamationEqualsToken
    | EqualsEqualsEqualsToken
    | ExclamationEqualsEqualsToken
    | LessThanToken
    | GreaterThanToken
    | LessThanEqualsToken
    | GreaterThanEqualsToken
    | InstanceOfKeyword
    | InKeyword
    | LessThanLessThanToken
    | GreaterThanGreaterThanToken
    | GreaterThanGreaterThanGreaterThanToken
    | PlusToken
    | MinusToken
    | AsteriskToken
    | SlashToken
    | PercentToken
    | AsteriskAsteriskToken

  // The numeric values of the `OperatorPrecedence` enum (Spread, Yield, Unary and Update unused).
  const COMMA := 0
  const ASSIGNMENT := 3
  const COALESCE := 4
  const LOGICAL_OR := 5
  const LOGICAL_AND := 6
  const BITWISE_OR := 7
  const BITWISE_XOR := 8
  const BITWISE_AND := 9
  const EQUALITY := 10
  const RELATIONAL := 11
  const SHIFT := 12
  const ADDITIVE := 13
  const MULTIPLICATIVE := 14
  const EXPONENTIATION := 15
  const LEFT_HAND_SIDE := 18
  const MEMBER := 19
  const PRIMARY := 20
  const LOWEST := COMMA
  const INVALID := -1

  /** The level the binary-expression loop of the parser uses; -1 stops the loop. */
  function BinaryOperatorPrecedence(op: BinaryOperator): int {
    match op
    case CommaToken => INVALID
    case Assignment(_) => INVALID
    case QuestionQuestionToken => COALESCE
    case BarBarToken => LOGICAL_OR
    case AmpersandAmpersandToken => LOGICAL_AND
    case BarToken => BITWISE_OR
    case CaretToken => BITWISE_XOR
    case AmpersandToken => BITWISE_AND
    case EqualsEqualsToken | ExclamationEqualsToken
       | EqualsEqualsEqualsToken | ExclamationEqualsEqualsToken => EQUALITY
    case LessThanToken | GreaterThanToken | LessThanEqualsToken
       | GreaterThanEqualsToken | InstanceOfKeyword | InKeyword => RELATIONAL
    case LessThanLessThanToken | GreaterThanGreaterThanToken
       | GreaterThanGreaterThanGreaterThanToken => SHIFT
    case PlusToken | MinusToken => ADDITIVE
    case AsteriskToken | SlashToken | PercentToken => MULTIPLICATIVE
    case AsteriskAsteriskToken => EXPONENTIATION
  }

  /** The level the parenthesizer uses for a BinaryExpression node. */
  function OperatorPrecedence(op: BinaryOperator): int {
    match op
    case CommaToken => COMMA
    case Assignment(_) => ASSIGNMENT
    case _ => BinaryOperatorPrecedence(op)
  }

  datatype Associativity = Left | Right

  function OperatorAssociativity(op: BinaryOperator): Associativity {
    match op
    case AsteriskAsteriskToken => Right
    case Assignment(_) => Right
    case _ => Left
  }

  /** `*`, `|`, `&` and `^`: the operators the parenthesizer takes to be associative. */
  predicate HasAssociativeProperty(op: BinaryOperator) {
    op == AsteriskToken || op == BarToken || op == AmpersandToken || op == CaretToken
  }

  datatype Comparison = LessThan | EqualTo | GreaterThan

  /**
   * `compareValues`: an `optional<double>` compared with `false` tests for zero, so 0 is
   * handled before the numeric order is consulted.
   */
  function CompareValues(a: int, b: int): Comparison {
    if a == b then EqualTo
    else if a == 0 then LessThan
    else if b == 0 then GreaterThan
    else if a < b then LessThan
    else GreaterThan
  }

  /** The zero test is invisible exactly when no negative value meets a zero. */
  lemma CompareValuesIsNumericOrderIff(a: int, b: int)
    ensures (CompareValues(a, b) == (if a < b then LessThan else if a == b then EqualTo else GreaterThan))
            <==> !(a == 0 && b < 0) && !(a < 0 && b == 0)
  {
  }

  /** Every operator sits at a level of its own kind, and a level has one associativity. */
  lemma LevelsAreUniform(a: BinaryOperator, b: BinaryOperator)
    requires OperatorPrecedence(a) == OperatorPrecedence(b)
    ensures OperatorAssociativity(a) == OperatorAssociativity(b)
    ensures BinaryOperatorPrecedence(a) == BinaryOperatorPrecedence(b)
    ensures a.Assignment? == b.Assignment? && a.CommaToken? == b.CommaToken?
    ensures a.AsteriskAsteriskToken? == b.AsteriskAsteriskToken?
  {
  }

  /** The productions for binary operators in the notes beside the precedence enum, loosest first. */
  predicate Produces(production: nat, op: BinaryOperator) {
    match production
    case 0 => op == CommaToken
    case 1 => op.Assignment?
    case 2 => op == QuestionQuestionToken
    case 3 => op == BarBarToken
    case 4 => op == AmpersandAmpersandToken
    case 5 => op == BarToken
    case 6 => op == CaretToken
    case 7 => op == AmpersandToken
    case 8 =>
      op in {EqualsEqualsToken, ExclamationEqualsToken, EqualsEqualsEqualsToken, ExclamationEqualsEqualsToken}
    case 9 =>
      op in {LessThanToken, GreaterThanToken, LessThanEqualsToken, GreaterThanEqualsToken, InstanceOfKeyword, InKeyword}
    case 10 => op in {LessThanLessThanToken, GreaterThanGreaterThanToken, GreaterThanGreaterThanGreaterThanToken}
    case 11 => op in {PlusToken, MinusToken}
    case 12 => op in {AsteriskToken, SlashToken, PercentToken}
    case 13 => op == AsteriskAsteriskToken
    case _ => false
  }

  lemma LevelOfProduction(i: nat, op: BinaryOperator)
    requires Produces(i, op)
    ensures OperatorPrecedence(op) == if i == 0 then COMMA else i + 2
  {
  }

  /** The levels rise with the productions, one level each. */
  lemma LevelsFollowGrammar(i: nat, a: BinaryOperator, j: nat, b: BinaryOperator)
    requires Produces(i, a) && Produces(j, b)
    ensures OperatorPrecedence(a) < OperatorPrecedence(b) <==> i < j
    ensures OperatorPrecedence(a) == OperatorPrecedence(b) <==> i == j
  {
    hide Produces, OperatorPrecedence;
    LevelOfProduction(i, a);
    LevelOfProduction(j, b);
  }
}
