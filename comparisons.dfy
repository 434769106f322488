/** The operators of criteria and `?` queries, the boolean expressions the
    expression factory builds from them, and the one-operand predicates the
    predicate factory builds. */
module Comparisons {
  import opened Results
  import opened Strings
  import Tokens
  import opened Lexer
  import Decimals
  import DecimalText

  const EqOperator: string := "="
  const NeqOperator: string := "!="
  const LtetOperator: string := "<="
  const LtOperator: string := "<"
  const GtetOperator: string := ">="
  const GtOperator: string := ">"
  const AndOperator: string := "&&"
  const OrOperator: string := "||"

  /** Operators.comparisonOperators(): the six comparison operators. */
  const ComparisonOperators: set<string> :=
    {EqOperator, NeqOperator, LtetOperator, LtOperator, GtetOperator, GtOperator}

  /** There are six comparison operators and neither logical operator is one. */
  lemma ComparisonOperatorsAreSix()
    ensures |ComparisonOperators| == 6
    ensures AndOperator !in ComparisonOperators && OrOperator !in ComparisonOperators
  {
    var s := {EqOperator};
    assert |s| == 1;
    assert NeqOperator !in s;
    var s2 := s + {NeqOperator};
    assert |s2| == 2;
    assert LtetOperator !in s2;
    var s3 := s2 + {LtetOperator};
    assert |s3| == 3;
    assert LtOperator !in s3;
    var s4 := s3 + {LtOperator};
    assert |s4| == 4;
    assert GtetOperator !in s4;
    var s5 := s4 + {GtetOperator};
    assert |s5| == 5;
    assert GtOperator !in s5;
    assert ComparisonOperators == s5 + {GtOperator};
  }

  predicate IsLogical(t: Tokens.Token) {
    t.kind == Tokens.And || t.kind == Tokens.Or
  }

  /** The text of the first logical-operator token, or "" when there is none. */
  function FirstLogical(tokens: seq<Tokens.Token>): (op: string)
    ensures (forall i :: 0 <= i < |tokens| ==> !IsLogical(tokens[i])) ==> op == ""
    ensures (exists i :: 0 <= i < |tokens| && IsLogical(tokens[i])) ==>
      exists i :: (0 <= i < |tokens| && IsLogical(tokens[i]) && tokens[i].text == op
        && forall j :: 0 <= j < i ==> !IsLogical(tokens[j]))
  {
    if tokens == [] then ""
    else if IsLogical(tokens[0]) then tokens[0].text
    else
      var op := FirstLogical(tokens[1..]);
      assert forall i :: 1 <= i < |tokens| ==> tokens[i] == tokens[1..][i - 1];
      op
  }

  /** Operators.findLogicalOperator: the criterion is lexed with the criteria
      table (a blank or unlexable criterion fails there) and the first `&&` or
      `||` token is reported. */
  function FindLogicalOperator(criterion: string): (r: Result<string>)
    ensures IsBlank(criterion) ==> r == Err(UnexpectedSymbol)
    ensures r.Ok? ==> r.value == FirstLogical(Lex(CriteriaTable, criterion).tokens)
  {
    var tokens :- Tokenized(CriteriaTable, criterion);
    Ok(FirstLogical(tokens))
  }

  /** Every pattern of that kind is the literal `text`. */
  predicate LiteralKind(patterns: seq<Tokens.TokenPattern>, kind: int, text: string) {
    forall i :: 0 <= i < |patterns| && patterns[i].kind == kind ==> patterns[i].regex == Tokens.Literal(text)
  }

  /** A token whose kind only a literal pattern has carries that literal's text. */
  lemma {:induction false} LexLiteralTexts(patterns: seq<Tokens.TokenPattern>, s: string, kind: int, text: string)
    requires LiteralKind(patterns, kind, text) && Trim(text) == text
    ensures forall t :: t in Lex(patterns, s).tokens && t.kind == kind ==> t.text == text
    decreases |s|
  {
    if IsBlank(s) || FirstMatch(patterns, s).None? {
      LexStopsWithoutMatch(patterns, s);
    } else {
      var i := FirstMatch(patterns, s).value;
      LexStep(patterns, s, i);
      var n := Tokens.MatchLength(patterns[i].regex, s);
      var rest := Lex(patterns, Trim(s[n..])).tokens;
      LexLiteralTexts(patterns, Trim(s[n..]), kind, text);
      var tok := Tokens.Token(patterns[i].kind, Trim(s[..n]));
      if patterns[i].kind == kind {
        LiteralToken(patterns[i].regex, s, text);
      }
      InHeadOrTail(tok, rest);
    }
  }

  lemma InHeadOrTail(tok: Tokens.Token, rest: seq<Tokens.Token>)
    ensures forall t :: t in [tok] + rest ==> t == tok || t in rest
  {
  }

  lemma LiteralToken(re: Tokens.Regex, s: string, text: string)
    requires re == Tokens.Literal(text) && Trim(text) == text && Tokens.MatchLength(re, s) > 0
    ensures Trim(s[..Tokens.MatchLength(re, s)]) == text
  {
    Tokens.LiteralMatch(text, s);
  }

  lemma CriteriaLogicalLiterals()
    ensures LiteralKind(CriteriaTable, Tokens.And, AndOperator) && Trim(AndOperator) == AndOperator
    ensures LiteralKind(CriteriaTable, Tokens.Or, OrOperator) && Trim(OrOperator) == OrOperator
  {
  }

  /** The logical operator found is `&&`, `||` or "", the first of the two in
      text order when a criterion mixes them. */
  lemma LogicalOperatorIsAndOrOr(criterion: string)
    requires FindLogicalOperator(criterion).Ok?
    ensures FindLogicalOperator(criterion).value in {"", AndOperator, OrOperator}
  {
    var tokens := Lex(CriteriaTable, criterion).tokens;
    CriteriaLogicalLiterals();
    LexLiteralTexts(CriteriaTable, criterion, Tokens.And, AndOperator);
    LexLiteralTexts(CriteriaTable, criterion, Tokens.Or, OrOperator);
    var op := FirstLogical(tokens);
    if exists i :: 0 <= i < |tokens| && IsLogical(tokens[i]) {
      var i :| 0 <= i < |tokens| && IsLogical(tokens[i]) && tokens[i].text == op;
      assert tokens[i] in tokens;
    }
  }

  /** The six relations the comparison operators stand for. */
  datatype Relation = Equal | NotEqual | GreaterThanEqualTo | GreaterThan | LessThanEqualTo | LessThan {
    predicate IsOrdering() { !(Equal? || NotEqual?) }
  }

  function OperatorText(rel: Relation): string {
    match rel
    case Equal => EqOperator
    case NotEqual => NeqOperator
    case GreaterThanEqualTo => GtetOperator
    case GreaterThan => GtOperator
    case LessThanEqualTo => LtetOperator
    case LessThan => LtOperator
  }

  /** The relation an operator text names, by exact text equality. */
  function RelationOf(op: string): (r: Option<Relation>)
    ensures r.Some? <==> op in ComparisonOperators
    ensures r.Some? ==> OperatorText(r.value) == op
  {
    if op == EqOperator then Some(Equal)
    else if op == NeqOperator then Some(NotEqual)
    else if op == GtetOperator then Some(GreaterThanEqualTo)
    else if op == GtOperator then Some(GreaterThan)
    else if op == LtetOperator then Some(LessThanEqualTo)
    else if op == LtOperator then Some(LessThan)
    else None
  }

  /** Every relation is named by exactly one operator text. */
  lemma RelationOfOperatorText(rel: Relation)
    ensures RelationOf(OperatorText(rel)) == Some(rel)
  {
  }

  /** BigDecimal.compareTo of two digit strings, read as decimals. */
  function CompareNumbers(left: string, right: string): (c: int)
    requires IsNumeric(left) && IsNumeric(right)
    ensures c < 0 <==> DigitsValue(left) < DigitsValue(right)
    ensures c == 0 <==> DigitsValue(left) == DigitsValue(right)
    ensures c > 0 <==> DigitsValue(left) > DigitsValue(right)
  {
    var a := DecimalText.Parse(left).value;
    var b := DecimalText.Parse(right).value;
    Decimals.CompareIsByValue(a, b, 0);
    assert Decimals.Rescale(a, 0) == DigitsValue(left);
    assert Decimals.Rescale(b, 0) == DigitsValue(right);
    Decimals.Compare(a, b)
  }

  /** Whether two operand texts stand in the relation. `=` and `!=` compare
      the numbers when both texts are digit strings and the texts otherwise;
      the orderings need digit strings on both sides and reject anything
      else (a sign, a decimal point) with IllegalArgument. */
  function Holds(rel: Relation, left: string, right: string): (r: Result<bool>)
    ensures r.Err? <==> rel.IsOrdering() && !(IsNumeric(left) && IsNumeric(right))
    ensures r.Err? ==> r.error == IllegalArgument
  {
    var numeric := IsNumeric(left) && IsNumeric(right);
    match rel
    case Equal => Ok(if numeric then CompareNumbers(left, right) == 0 else left == right)
    case NotEqual => Ok(!(if numeric then CompareNumbers(left, right) == 0 else left == right))
    case _ =>
      if !numeric then Err(IllegalArgument)
      else
        var c := CompareNumbers(left, right);
        Ok(match rel
          case GreaterThanEqualTo => c >= 0
          case GreaterThan => c > 0
          case LessThanEqualTo => c <= 0
          case LessThan => c < 0)
  }

  /** On digit strings the relations are the ones of their values. */
  lemma HoldsOnNumbers(rel: Relation, left: string, right: string)
    requires IsNumeric(left) && IsNumeric(right)
    ensures var x, y := DigitsValue(left), DigitsValue(right);
      Holds(rel, left, right) == Ok(match rel
        case Equal => x == y
        case NotEqual => x != y
        case GreaterThanEqualTo => x >= y
        case GreaterThan => x > y
        case LessThanEqualTo => x <= y
        case LessThan => x < y)
  {
  }

  /** Off digit strings `=` is text equality and `!=` its negation. */
  lemma HoldsOnTexts(left: string, right: string)
    requires !(IsNumeric(left) && IsNumeric(right))
    ensures Holds(Equal, left, right) == Ok(left == right)
    ensures Holds(NotEqual, left, right) == Ok(left != right)
  {
  }

  /** `!=` is the negation of `=`, `>` of `<=` and `>=` of `<`, and swapping
      the operands turns `<` into `>` and `<=` into `>=`. */
  lemma RelationDuality(left: string, right: string)
    ensures Holds(NotEqual, left, right) == Ok(!Holds(Equal, left, right).value)
    ensures Holds(LessThan, left, right).Ok? ==>
      Holds(GreaterThanEqualTo, left, right) == Ok(!Holds(LessThan, left, right).value)
    ensures Holds(LessThanEqualTo, left, right).Ok? ==>
      Holds(GreaterThan, left, right) == Ok(!Holds(LessThanEqualTo, left, right).value)
    ensures Holds(LessThan, left, right) == Holds(GreaterThan, right, left)
    ensures Holds(LessThanEqualTo, left, right) == Holds(GreaterThanEqualTo, right, left)
  {
  }

  /** Leading zeros do not matter: "001" = "1" and "001" < "1" is false. */
  lemma LeadingZerosCompareEqual()
    ensures Holds(Equal, "001", "1") == Ok(true)
    ensures Holds(LessThan, "001", "1") == Ok(false)
    ensures Holds(LessThan, "1", "001") == Ok(false)
  {
    assert DigitsValue("001") == 1 by {
      assert "001"[..2] == "00" && "00"[..1] == "0";
    }
    HoldsOnNumbers(Equal, "001", "1");
    HoldsOnNumbers(LessThan, "001", "1");
    HoldsOnNumbers(LessThan, "1", "001");
  }

  /** A sign or a decimal point makes an ordering fail. */
  lemma SignedAndDecimalTextsRejected()
    ensures Holds(LessThan, "-1", "2") == Err(IllegalArgument)
    ensures Holds(GreaterThan, "2.5", "2") == Err(IllegalArgument)
  {
    assert !IsDigit("-1"[0]);
    assert !IsDigit("2.5"[1]);
  }

  /** What the expression factory builds. */
  datatype Expression =
    | Comparison(rel: Relation, left: string, right: string)
    | Conjunction(first: Expression, second: Expression)
    | Disjunction(first: Expression, second: Expression)
    | Constant(value: bool)

  /** An operand handed to the factory: a string or an already built expression. */
  datatype Operand = Text(text: string) | Sub(expression: Expression)

  /** ExpressionFactory.booleanExpression: a comparison operator over two
      strings, `&&`/`||` over two expressions; an operand of the other kind is
      a failed cast, and any other operator is IllegalArgument. */
  function BooleanExpression(left: Operand, op: string, right: Operand): (r: Result<Expression>)
    ensures op in ComparisonOperators && left.Text? && right.Text? ==>
      r == Ok(Comparison(RelationOf(op).value, left.text, right.text))
    ensures op == AndOperator && left.Sub? && right.Sub? ==>
      r == Ok(Conjunction(left.expression, right.expression))
    ensures op == OrOperator && left.Sub? && right.Sub? ==>
      r == Ok(Disjunction(left.expression, right.expression))
    ensures op !in ComparisonOperators && op != AndOperator && op != OrOperator ==> r == Err(IllegalArgument)
    ensures r.Err? ==> r.error in {IllegalArgument, ClassCast}
  {
    match RelationOf(op)
    case Some(rel) =>
      if left.Text? && right.Text? then Ok(Comparison(rel, left.text, right.text)) else Err(ClassCast)
    case None =>
      if op == AndOperator || op == OrOperator then
        if left.Sub? && right.Sub? then
          Ok(if op == AndOperator then Conjunction(left.expression, right.expression)
             else Disjunction(left.expression, right.expression))
        else Err(ClassCast)
      else Err(IllegalArgument)
  }

  /** BooleanExpression.interpret. `||` evaluates its second operand only
      when the first is false, and `&&` only when the first is true. */
  function Interpret(e: Expression): (r: Result<bool>)
    ensures r.Err? ==> r.error == IllegalArgument
    ensures e.Constant? ==> r == Ok(e.value)
    ensures e.Comparison? && !e.rel.IsOrdering() ==> r.Ok?
  {
    match e
    case Comparison(rel, l, r) => Holds(rel, l, r)
    case Conjunction(a, b) =>
      var x :- Interpret(a);
      if !x then Ok(false) else Interpret(b)
    case Disjunction(a, b) =>
      var x :- Interpret(a);
      if x then Ok(true) else Interpret(b)
    case Constant(v) => Ok(v)
  }

  /** An or-expression is true iff one of its operands is; a true first
      operand decides without the second (which may even fail), and a false
      one hands the decision to the second. */
  lemma OrExpressionSemantics(a: Expression, b: Expression)
    ensures Interpret(a).Ok? && Interpret(b).Ok? ==>
      Interpret(Disjunction(a, b)) == Ok(Interpret(a).value || Interpret(b).value)
    ensures Interpret(a) == Ok(true) ==> Interpret(Disjunction(a, b)) == Ok(true)
    ensures Interpret(a) == Ok(false) ==> Interpret(Disjunction(a, b)) == Interpret(b)
    ensures Interpret(a).Err? ==> Interpret(Disjunction(a, b)) == Interpret(a)
  {
  }

  /** The and-expression is the mirror image. */
  lemma AndExpressionSemantics(a: Expression, b: Expression)
    ensures Interpret(a).Ok? && Interpret(b).Ok? ==>
      Interpret(Conjunction(a, b)) == Ok(Interpret(a).value && Interpret(b).value)
    ensures Interpret(a) == Ok(false) ==> Interpret(Conjunction(a, b)) == Ok(false)
    ensures Interpret(a) == Ok(true) ==> Interpret(Conjunction(a, b)) == Interpret(b)
  {
  }

  /** Built over two comparisons, the factory's expression interprets to
      the relation between the texts. */
  lemma BuiltComparisonHolds(op: string, left: string, right: string)
    requires op in ComparisonOperators
    ensures BooleanExpression(Text(left), op, Text(right)).Ok?
    ensures Interpret(BooleanExpression(Text(left), op, Text(right)).value) == Holds(RelationOf(op).value, left, right)
  {
  }

  /** A Java reference that may be null, rendered by String.valueOf. */
  function ValueOf(v: Option<string>): (r: string)
    ensures v.Some? ==> r == v.value
    ensures v.None? ==> r == "null" && !IsNumeric(r)
  {
    if v.None? then
      assert !IsDigit("null"[0]);
      "null"
    else v.value
  }

  /** A predicate holding its left operand. */
  datatype Predicate = Predicate(rel: Relation, left: Option<string>)

  /** PredicateFactory.create: the operator picks the predicate kind, which
      keeps the given left operand; an unknown operator is IllegalArgument.
      (The operators contain no letters, so ignoring case changes nothing.) */
  function CreatePredicate(op: string, left: Option<string>): (r: Result<Predicate>)
    ensures op in ComparisonOperators <==> r.Ok?
    ensures r.Ok? ==> r.value.left == left && OperatorText(r.value.rel) == op
    ensures r.Err? ==> r.error == IllegalArgument
  {
    match RelationOf(op)
    case Some(rel) => Ok(Predicate(rel, left))
    case None => Err(IllegalArgument)
  }

  /** Equality of two possibly-null operands: two nulls are equal, one null
      is not, two values compare as `=` does. */
  function EqualValues(left: Option<string>, right: Option<string>): (r: bool)
    ensures left == right ==> r
    ensures left.None? != right.None? ==> !r
    ensures left.Some? && right.Some? && IsNumeric(left.value) && IsNumeric(right.value) ==>
      r == (DigitsValue(left.value) == DigitsValue(right.value))
    ensures left.Some? && right.Some? && !(IsNumeric(left.value) && IsNumeric(right.value)) ==>
      r == (left.value == right.value)
  {
    if left.None? || right.None? then left.None? && right.None?
    else Holds(Equal, left.value, right.value).value
  }

  /** Predicate.accept: the right operand meets the predicate. The orderings
      compare the String.valueOf forms, so a null side reads "null" and fails. */
  function Accept(p: Predicate, right: Option<string>): (r: Result<bool>)
    ensures r.Err? <==> p.rel.IsOrdering() && !(IsNumeric(ValueOf(p.left)) && IsNumeric(ValueOf(right)))
  {
    match p.rel
    case Equal => Ok(EqualValues(p.left, right))
    case NotEqual => Ok(!EqualValues(p.left, right))
    case _ => Holds(p.rel, ValueOf(p.left), ValueOf(right))
  }

  /** LessThanPredicate.accept: true iff both sides are digit strings and the
      left value is smaller; a null or non-digit side is IllegalArgument. */
  lemma LessThanAccept(left: Option<string>, right: Option<string>)
    ensures var r := Accept(Predicate(LessThan, left), right);
      && (r.Ok? <==> left.Some? && right.Some? && IsNumeric(left.value) && IsNumeric(right.value))
      && (r.Ok? ==> r.value == (DigitsValue(left.value) < DigitsValue(right.value)))
      && (r.Err? ==> r.error == IllegalArgument)
  {
    assert !IsNumeric("null") by { assert !IsDigit("null"[0]); }
    if left.Some? && right.Some? && IsNumeric(left.value) && IsNumeric(right.value) {
      HoldsOnNumbers(LessThan, left.value, right.value);
    }
  }

  /** LessThan is irreflexive: a value is never below itself, nor below a
      text of the same number written with leading zeros. */
  lemma LessThanIrreflexive(left: string, right: string)
    requires IsNumeric(left) && IsNumeric(right) && DigitsValue(left) == DigitsValue(right)
    ensures Accept(Predicate(LessThan, Some(left)), Some(right)) == Ok(false)
  {
    HoldsOnNumbers(LessThan, left, right);
  }

  /** The equality predicate: equal texts match, two nulls match, exactly
      one null does not, and "001" matches "1". */
  lemma EqualPredicateExamples(x: string)
    ensures Accept(Predicate(Equal, Some(x)), Some(x)) == Ok(true)
    ensures Accept(Predicate(Equal, None), None) == Ok(true)
    ensures Accept(Predicate(Equal, None), Some(x)) == Ok(false)
    ensures Accept(Predicate(Equal, Some(x)), None) == Ok(false)
    ensures Accept(Predicate(Equal, Some("001")), Some("1")) == Ok(true)
  {
    LeadingZerosCompareEqual();
    if IsNumeric(x) {
      HoldsOnNumbers(Equal, x, x);
    }
  }
}
