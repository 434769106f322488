// ExpressionFlow: a `?` query compares a fetched value with a number, as
// in `?people.size() >= 5`. The operator is the last comparison token; the
// text before it is fetched, the text after it is the number.

module Expressions {
  import opened Results
  import opened Strings
  import opened Tokens
  import opened Lexer
  import opened JsonValues
  import opened Comparisons
  import opened Settings
  import opened FunctionFlows
  import opened Fetch
  import opened Queries
  import opened Paths

  /** String.substring(begin, end): the characters from `begin` up to
      `end`, or StringIndexOutOfBounds outside the string. */
  function Substring(s: string, begin: int, end: int): (r: Result<string>)
    ensures r.Ok? <==> 0 <= begin <= end <= |s|
    ensures r.Ok? ==> |r.value| == end - begin && forall i :: 0 <= i < |r.value| ==> r.value[i] == s[begin + i]
    ensures r.Err? ==> r.error == StringIndexOutOfBounds
  {
    if 0 <= begin <= end <= |s| then Ok(s[begin..end]) else Err(StringIndexOutOfBounds)
  }

  /** The text of the last token that is a comparison operator, if any. */
  function LastComparison(tokens: seq<Token>): (r: Option<string>)
    ensures r.None? <==> forall k :: 0 <= k < |tokens| ==> tokens[k].text !in ComparisonOperators
    ensures r.Some? ==> r.value in ComparisonOperators && 1 <= |r.value| <= 2
    ensures r.Some? ==> exists k :: (0 <= k < |tokens| && tokens[k].text == r.value
      && forall j :: k < j < |tokens| ==> tokens[j].text !in ComparisonOperators)
  {
    if tokens == [] then None
    else
      var last := |tokens| - 1;
      if tokens[last].text in ComparisonOperators then Some(tokens[last].text)
      else
        var before := LastComparison(tokens[..last]);
        PrefixComparisons(tokens, before);
        before
  }

  /** What the last comparison of all tokens but the last says carries
      over to all of them when the last token is no comparison. */
  lemma PrefixComparisons(tokens: seq<Token>, before: Option<string>)
    requires tokens != [] && tokens[|tokens| - 1].text !in ComparisonOperators
    requires var p := tokens[..|tokens| - 1];
      && (before.None? <==> forall k :: 0 <= k < |p| ==> p[k].text !in ComparisonOperators)
      && (before.Some? ==> exists k :: (0 <= k < |p| && p[k].text == before.value
        && forall j :: k < j < |p| ==> p[j].text !in ComparisonOperators))
    ensures before.None? <==> forall k :: 0 <= k < |tokens| ==> tokens[k].text !in ComparisonOperators
    ensures before.Some? ==> exists k :: (0 <= k < |tokens| && tokens[k].text == before.value
      && forall j :: k < j < |tokens| ==> tokens[j].text !in ComparisonOperators)
  {
    var p := tokens[..|tokens| - 1];
    assert forall k :: 0 <= k < |p| ==> p[k] == tokens[k];
    if before.Some? {
      var k :| 0 <= k < |p| && p[k].text == before.value
        && forall j :: k < j < |p| ==> p[j].text !in ComparisonOperators;
      assert tokens[k].text == before.value;
    }
  }

  /** The last comparison operator among the tokens, or IllegalQuery. */
  function OperatorIn(tokens: seq<Token>): (r: Result<string>)
    ensures r.Ok? ==> r.value in ComparisonOperators && 1 <= |r.value| <= 2
    ensures r.Err? <==> forall k :: 0 <= k < |tokens| ==> tokens[k].text !in ComparisonOperators
    ensures r.Err? ==> r.error == IllegalQuery
  {
    match LastComparison(tokens)
    case None => Err(IllegalQuery)
    case Some(op) => Ok(op)
  }

  /** ExpressionFlow.resolveComparisonOperator: the query after its first
      character is lexed with the query table, and the last comparison
      operator among its tokens is taken; with none the query is illegal. */
  function Operator(trimmedQuery: string): (r: Result<string>)
    ensures r.Ok? ==> r.value in ComparisonOperators && 1 <= |r.value| <= 2
    ensures trimmedQuery == [] ==> r == Err(StringIndexOutOfBounds)
  {
    if trimmedQuery == [] then Err(StringIndexOutOfBounds)
    else
      var tokens :- Tokenized(QueryTable, trimmedQuery[1..]);
      OperatorIn(tokens)
  }

  /** ExpressionFlow.getRightOperand: the trimmed text after the operator's
      last character, which must be a digit string. */
  function RightOperand(trimmedQuery: string, operatorEnd: int): (r: Result<string>)
    ensures r.Ok? <==> 0 <= operatorEnd + 1 <= |trimmedQuery| && IsNumeric(Trim(trimmedQuery[operatorEnd + 1..]))
    ensures r.Ok? ==> r.value == Trim(trimmedQuery[operatorEnd + 1..])
    ensures 0 <= operatorEnd + 1 <= |trimmedQuery| && r.Err? ==> r.error == IllegalArgument
  {
    var rest :- Substring(trimmedQuery, operatorEnd + 1, |trimmedQuery|);
    assert rest == trimmedQuery[operatorEnd + 1..];
    var value := Trim(rest);
    if !IsNumeric(value) then Err(IllegalArgument) else Ok(value)
  }

  /** JsonElement.getAsString as Gson has it: a primitive's text, the text
      of a one-item array's item; any other array is IllegalState, and an
      object or JsonNull UnsupportedOperation. */
  function ElementString(j: Json): (r: Result<string>)
    ensures j.Prim? ==> r == Ok(j.text)
    ensures j.Null? || j.Obj? ==> r == Err(UnsupportedOperation)
    ensures j.Arr? && |j.items| != 1 ==> r == Err(IllegalState)
    ensures j.Arr? && |j.items| == 1 ==> r == ElementString(j.items[0])
    ensures r.Ok? ==> exists depth: nat :: Wrapped(depth, Prim(r.value)) == j
  {
    match j
    case Prim(text) =>
      assert Wrapped(0, Prim(text)) == j;
      Ok(text)
    case Arr(items) =>
      if |items| == 1 then
        var r := ElementString(items[0]);
        if r.Ok? then
          var depth: nat :| Wrapped(depth, Prim(r.value)) == items[0];
          assert Wrapped(depth + 1, Prim(r.value)) == j;
          r
        else r
      else Err(IllegalState)
    case _ => Err(UnsupportedOperation)
  }

  /** A value inside `depth` one-item arrays. */
  function Wrapped(depth: nat, j: Json): Json {
    if depth == 0 then j else Arr([Wrapped(depth - 1, j)])
  }

  /** getAsString on a reference: a Java null is dereferenced. */
  function AsString(e: Option<Json>): (r: Result<string>)
    ensures e.None? ==> r == Err(NullPointer)
    ensures e.Some? ==> r == ElementString(e.value)
  {
    if e.None? then Err(NullPointer) else ElementString(e.value)
  }

  /** Reading a text back through any number of one-item arrays gives the
      text; this is how a fetched singleton array compares as a number. */
  lemma {:induction false} WrappedString(depth: nat, text: string)
    ensures ElementString(Wrapped(depth, Prim(text))) == Ok(text)
  {
    if depth > 0 {
      WrappedString(depth - 1, text);
    }
  }

  /** ExpressionFlow.getLeftOperand: the trimmed text between the first
      character and the operator is parsed as a query and fetched from the
      element (the lexer refuses a text without tokens, so the fetch always
      starts from one); the fetched value read as a string must be a digit
      string. */
  function LeftOperand(settings: Snapshot, sentinels: Sentinels, trimmedQuery: string, e: Option<Json>, operatorStart: int): (r: Result<string>)
    ensures r.Ok? ==> IsNumeric(r.value)
    ensures r.Ok? ==> 1 <= operatorStart <= |trimmedQuery|
  {
    var text :- Substring(trimmedQuery, 1, operatorStart);
    var tokens :- Tokenized(QueryTable, Trim(text));
    var fetched :- FetchAll(settings, sentinels, tokens, e);
    var value :- AsString(fetched);
    if !IsNumeric(value) then Err(IllegalArgument) else Ok(value)
  }

  /** What a fetched value gives as a left operand, once the query before
      the operator has lexed: a value read as anything but a digit string is
      an IllegalArgument error. */
  lemma LeftOperandOf(settings: Snapshot, sentinels: Sentinels, trimmedQuery: string, e: Option<Json>, operatorStart: int, tokens: seq<Token>)
    requires 1 <= operatorStart <= |trimmedQuery|
    requires Tokenized(QueryTable, Trim(trimmedQuery[1..operatorStart])) == Ok(tokens)
    ensures var fetched := FetchAll(settings, sentinels, tokens, e);
      var r := LeftOperand(settings, sentinels, trimmedQuery, e, operatorStart);
      && (fetched.Err? ==> r == Err(fetched.error))
      && (fetched.Ok? && AsString(fetched.value).Err? ==> r == Err(AsString(fetched.value).error))
      && (fetched.Ok? && AsString(fetched.value).Ok? ==>
            r == if IsNumeric(AsString(fetched.value).value) then Ok(AsString(fetched.value).value) else Err(IllegalArgument))
  {
    assert Substring(trimmedQuery, 1, operatorStart) == Ok(trimmedQuery[1..operatorStart]);
  }

  /** The boolean primitive `new JsonPrimitive(b)` holds. */
  function BoolPrimitive(b: bool): Json {
    Prim(if b then "true" else "false")
  }

  /** PredicateFactory.create with the left operand, accepting the right
      one. */
  function Outcome(op: string, left: string, right: string): (r: Result<Json>)
    ensures r.Ok? ==> r.value == BoolPrimitive(true) || r.value == BoolPrimitive(false)
    ensures op !in ComparisonOperators ==> r == Err(IllegalArgument)
  {
    var test :- CreatePredicate(op, Some(left));
    var holds :- Accept(test, Some(right));
    Ok(BoolPrimitive(holds))
  }

  /** On two digit strings the outcome is the comparison of their values. */
  lemma OutcomeOnNumbers(op: string, left: string, right: string)
    requires op in ComparisonOperators && IsNumeric(left) && IsNumeric(right)
    ensures var x, y := DigitsValue(left), DigitsValue(right);
      Outcome(op, left, right) == Ok(BoolPrimitive(
        if op == EqOperator then x == y
        else if op == NeqOperator then x != y
        else if op == GtetOperator then x >= y
        else if op == GtOperator then x > y
        else if op == LtetOperator then x <= y
        else x < y))
  {
    var rel := RelationOf(op).value;
    HoldsOnNumbers(rel, left, right);
  }

  /** ExpressionFlow.flow: the operator, then the operands around its
      last occurrence, compared into a boolean primitive. */
  function Evaluate(settings: Snapshot, sentinels: Sentinels, trimmedQuery: string, e: Option<Json>): (r: Result<Json>)
    ensures r.Ok? ==> r.value == BoolPrimitive(true) || r.value == BoolPrimitive(false)
    ensures Operator(trimmedQuery).Err? ==> r == Err(Operator(trimmedQuery).error)
  {
    var op :- Operator(trimmedQuery);
    Compared(settings, sentinels, trimmedQuery, e, op)
  }

  /** The rest of ExpressionFlow.flow once the operator is known: the right
      operand (the text after the operator's last occurrence) is read first,
      then the left operand (the fetched text before it). */
  function Compared(settings: Snapshot, sentinels: Sentinels, trimmedQuery: string, e: Option<Json>, op: string): (r: Result<Json>)
    ensures r.Ok? ==> r.value == BoolPrimitive(true) || r.value == BoolPrimitive(false)
  {
    var start := LastIndexOf(trimmedQuery, op);
    var right :- RightOperand(trimmedQuery, start + |op| - 1);
    var left :- LeftOperand(settings, sentinels, trimmedQuery, e, start);
    Outcome(op, left, right)
  }

  /** How the operator comes out of a query whose text after the first
      character lexes: the last comparison token, or IllegalQuery. */
  lemma OperatorOfTokens(trimmedQuery: string, tokens: seq<Token>)
    requires trimmedQuery != [] && Tokenized(QueryTable, trimmedQuery[1..]) == Ok(tokens)
    ensures Operator(trimmedQuery) == OperatorIn(tokens)
  {
  }

  /** Once the operator is found and both operands are digit strings, the
      query's answer is the comparison of their values. */
  lemma EvaluateCompares(settings: Snapshot, sentinels: Sentinels, trimmedQuery: string, e: Option<Json>, op: string, left: string, right: string)
    requires Operator(trimmedQuery) == Ok(op)
    requires RightOperand(trimmedQuery, LastIndexOf(trimmedQuery, op) + |op| - 1) == Ok(right)
    requires LeftOperand(settings, sentinels, trimmedQuery, e, LastIndexOf(trimmedQuery, op)) == Ok(left)
    ensures var x, y := DigitsValue(left), DigitsValue(right);
      Evaluate(settings, sentinels, trimmedQuery, e) == Ok(BoolPrimitive(
        if op == EqOperator then x == y
        else if op == NeqOperator then x != y
        else if op == GtetOperator then x >= y
        else if op == GtOperator then x > y
        else if op == LtetOperator then x <= y
        else x < y))
  {
    EvaluateIsOutcome(settings, sentinels, trimmedQuery, e, op, left, right);
    OutcomeOnNumbers(op, left, right);
  }

  lemma EvaluateIsOutcome(settings: Snapshot, sentinels: Sentinels, trimmedQuery: string, e: Option<Json>, op: string, left: string, right: string)
    requires Operator(trimmedQuery) == Ok(op)
    requires RightOperand(trimmedQuery, LastIndexOf(trimmedQuery, op) + |op| - 1) == Ok(right)
    requires LeftOperand(settings, sentinels, trimmedQuery, e, LastIndexOf(trimmedQuery, op)) == Ok(left)
    ensures Evaluate(settings, sentinels, trimmedQuery, e) == Outcome(op, left, right)
  {
    assert Evaluate(settings, sentinels, trimmedQuery, e) == Compared(settings, sentinels, trimmedQuery, e, op);
  }

  /** A query whose tokens hold no comparison operator is illegal. */
  lemma NoComparisonIsIllegal(settings: Snapshot, sentinels: Sentinels, trimmedQuery: string, e: Option<Json>, tokens: seq<Token>)
    requires trimmedQuery != [] && Tokenized(QueryTable, trimmedQuery[1..]) == Ok(tokens)
    requires forall k :: 0 <= k < |tokens| ==> tokens[k].text !in ComparisonOperators
    ensures Evaluate(settings, sentinels, trimmedQuery, e) == Err(IllegalQuery)
  {
    OperatorOfTokens(trimmedQuery, tokens);
  }

  /** A fetched value that does not read as a digit string cannot be a
      left operand. */
  lemma NonNumericLeftOperand(settings: Snapshot, sentinels: Sentinels, trimmedQuery: string, e: Option<Json>, operatorStart: int, tokens: seq<Token>, text: string)
    requires !IsNumeric(text)
    requires 1 <= operatorStart <= |trimmedQuery|
    requires Tokenized(QueryTable, Trim(trimmedQuery[1..operatorStart])) == Ok(tokens)
    requires FetchAll(settings, sentinels, tokens, e) == Ok(Some(Prim(text)))
    ensures LeftOperand(settings, sentinels, trimmedQuery, e, operatorStart) == Err(IllegalArgument)
  {
    assert AsString(Some(Prim(text))) == Ok(text);
    LeftOperandOf(settings, sentinels, trimmedQuery, e, operatorStart, tokens);
  }

  /** The tokens of "people.size()". */
  function PeopleSizeTokens(people: string, size: string): seq<Token> {
    [Token(Variable, people), Token(DotSymbol, "."), Token(Variable, size),
     Token(OpenBracket, "("), Token(CloseBracket, ")")]
  }

  /** `a.f()` is spelled without spaces. */
  lemma CallSpelled(a: string, f: string)
    ensures Spelled(PeopleSizeTokens(a, f), Gapless5) == a + ("." + (f + ("(" + ")")))
  {
    var e: string := [];
    var t4, g4 := [Token(CloseBracket, ")")], [e];
    var t3, g3 := [Token(OpenBracket, "(")] + t4, [e] + g4;
    var t2, g2 := [Token(Variable, f)] + t3, [e] + g3;
    var t1, g1 := [Token(DotSymbol, ".")] + t2, [e] + g2;
    assert PeopleSizeTokens(a, f) == [Token(Variable, a)] + t1;
    assert Gapless5 == [e] + g1;
    SpelledPrependTight(Token(CloseBracket, ")"), [], []);
    assert ")" + [] == ")";
    SpelledPrependTight(Token(OpenBracket, "("), t4, g4);
    SpelledPrependTight(Token(Variable, f), t3, g3);
    SpelledPrependTight(Token(DotSymbol, "."), t2, g2);
    SpelledPrependTight(Token(Variable, a), t1, g1);
  }

  /** The query table reads every token of `a.f()` back from its place. */
  lemma CallReadable(a: string, f: string)
    requires IsName(a) && IsName(f)
    ensures ReadableSpelling(QueryTable, PeopleSizeTokens(a, f), Gapless5, [6, 2, 6, 8, 9])
  {
    var ts, gaps := PeopleSizeTokens(a, f), Gapless5;
    var ks: seq<nat> := [6, 2, 6, 8, 9];
    forall i | 0 <= i < 5
      ensures AllSpaces(gaps[i]) && ReadBack(QueryTable, ks[i], ts[i], After(ts, gaps, i))
    {
      if i == 0 || i == 2 {
        QueryNameReadBack(ts[i].text, After(ts, gaps, i));
      } else {
        QuerySymbolReadBack(ks[i], After(ts, gaps, i));
      }
    }
  }

  /** A call `a.f()` of two names lexes to its five tokens. */
  lemma CallLexes(a: string, f: string)
    requires IsName(a) && IsName(f)
    ensures Tokenized(QueryTable, a + ("." + (f + ("(" + ")")))) == Ok(PeopleSizeTokens(a, f))
  {
    TablesAreWellFormed();
    CallReadable(a, f);
    TokenizedSpelled(QueryTable, PeopleSizeTokens(a, f), Gapless5, [6, 2, 6, 8, 9]);
    CallSpelled(a, f);
  }

  /** The tokens of `a.f() >= n`. */
  function CallAtLeastTokens(a: string, f: string, n: string): seq<Token> {
    PeopleSizeTokens(a, f) + [Token(Gtet, GtetOperator), Token(Number, n)]
  }

  /** The gaps of `a.f() >= n`: one space on each side of the operator. */
  const CallAtLeastGaps: seq<string> := [[], [], [], [], " ", " ", []]

  /** `a.f() >= n` is spelled with a space on each side of the operator. */
  lemma CallAtLeastSpelled(a: string, f: string, n: string)
    ensures Spelled(CallAtLeastTokens(a, f, n), CallAtLeastGaps)
      == a + ("." + (f + ("(" + (")" + (" " + (GtetOperator + (" " + n)))))))
  {
    var e: string := [];
    var t6, g6 := [Token(Number, n)], [e];
    var t5, g5 := [Token(Gtet, GtetOperator)] + t6, [" "] + g6;
    var t4, g4 := [Token(CloseBracket, ")")] + t5, [" "] + g5;
    var t3, g3 := [Token(OpenBracket, "(")] + t4, [e] + g4;
    var t2, g2 := [Token(Variable, f)] + t3, [e] + g3;
    var t1, g1 := [Token(DotSymbol, ".")] + t2, [e] + g2;
    assert CallAtLeastTokens(a, f, n) == [Token(Variable, a)] + t1;
    assert CallAtLeastGaps == [e] + g1;
    SpelledPrependTight(Token(Number, n), [], []);
    assert n + [] == n;
    SpelledPrepend(Token(Gtet, GtetOperator), " ", t6, g6);
    SpelledPrepend(Token(CloseBracket, ")"), " ", t5, g5);
    SpelledPrependTight(Token(OpenBracket, "("), t4, g4);
    SpelledPrependTight(Token(Variable, f), t3, g3);
    SpelledPrependTight(Token(DotSymbol, "."), t2, g2);
    SpelledPrependTight(Token(Variable, a), t1, g1);
  }

  /** The query table reads every token of `a.f() >= n` back from its place. */
  lemma CallAtLeastReadable(a: string, f: string, n: string)
    requires IsName(a) && IsName(f) && IsNumeric(n)
    ensures ReadableSpelling(QueryTable, CallAtLeastTokens(a, f, n), CallAtLeastGaps, [6, 2, 6, 8, 9, 17, 7])
  {
    var ts, gaps := CallAtLeastTokens(a, f, n), CallAtLeastGaps;
    var ks: seq<nat> := [6, 2, 6, 8, 9, 17, 7];
    forall i | 0 <= i < 7
      ensures AllSpaces(gaps[i]) && ReadBack(QueryTable, ks[i], ts[i], After(ts, gaps, i))
    {
      if i == 0 || i == 2 {
        QueryNameReadBack(ts[i].text, After(ts, gaps, i));
      } else if i == 6 {
        QueryNumberReadBack(n, After(ts, gaps, i));
      } else {
        QuerySymbolReadBack(ks[i], After(ts, gaps, i));
      }
    }
  }

  /** `a.f() >= n` lexes to its seven tokens. */
  lemma CallAtLeastLexes(a: string, f: string, n: string)
    requires IsName(a) && IsName(f) && IsNumeric(n)
    ensures Tokenized(QueryTable, a + ("." + (f + ("(" + (")" + (" " + (GtetOperator + (" " + n))))))))
      == Ok(CallAtLeastTokens(a, f, n))
  {
    TablesAreWellFormed();
    CallAtLeastReadable(a, f, n);
    TokenizedSpelled(QueryTable, CallAtLeastTokens(a, f, n), CallAtLeastGaps, [6, 2, 6, 8, 9, 17, 7]);
    CallAtLeastSpelled(a, f, n);
  }

  /** `people.size()` on two people fetches the primitive 2. */
  lemma PeopleSize(settings: Snapshot, sentinels: Sentinels, people: string, size: string, p: Json, q: Json)
    requires people == "people" && size == "size"
    ensures FetchAll(settings, sentinels, PeopleSizeTokens(people, size), Some(Obj([Member(people, Arr([p, q]))])))
      == Ok(Some(Prim("2")))
  {
    var ts := PeopleSizeTokens(people, size);
    SizeCallSegment(ts, people, size);
    PlainStep(settings, sentinels, people, Arr([p, q]));
    FetchStep(settings, sentinels, ts, Some(Obj([Member(people, Arr([p, q]))])), Some(Arr([p, q])));
    assert ts[2..][3..] == ts[5..];
    SizeStep(settings, sentinels, ts[2..], size, p, q);
  }

  /** The walk from the two people through `size()` to the end. */
  lemma SizeStep(settings: Snapshot, sentinels: Sentinels, ts: seq<Token>, size: string, p: Json, q: Json)
    requires size == "size"
    requires Segment(ts) == size + "()" && Consumed(ts) == 3
    requires Segment(ts[3..]) == []
    ensures FetchAll(settings, sentinels, ts, Some(Arr([p, q]))) == Ok(Some(Prim("2")))
  {
    var call := size + "()";
    SizeAdvance(settings, sentinels, call, p, q);
    FetchStep(settings, sentinels, ts, Some(Arr([p, q])), Some(Prim("2")));
    FetchEnd(settings, sentinels, ts[3..], Some(Prim("2")));
  }

  /** The `size()` segment over two people resolves to 2. */
  lemma SizeAdvance(settings: Snapshot, sentinels: Sentinels, call: string, p: Json, q: Json)
    requires call == "size()"
    ensures !IsBlank(call)
    ensures Advance(settings, sentinels, Some(Arr([p, q])), call) == Ok(Some(Prim("2")))
  {
    SizeExample(p, q, call, settings.numbers, sentinels);
    assert IsFunction(call) && !IsBlank(call) by { assert !IsWhitespace(call[0]); }
  }

  lemma SizeCallSegment(ts: seq<Token>, people: string, size: string)
    requires people == "people" && size == "size" && ts == PeopleSizeTokens(people, size)
    ensures Segment(ts) == people && Consumed(ts) == 2
    ensures Segment(ts[2..]) == size + "()" && Consumed(ts[2..]) == 3
    ensures Segment(ts[5..]) == [] && Consumed(ts[5..]) == 0
  {
    assert ts == [ts[0]] + ts[1..];
    SegmentOfDotFree([ts[0]], ts[1..]);
    assert ts[2..] == ts[2..] + [];
    SegmentOfDotFree(ts[2..], []);
    assert ts[2..] == [ts[2]] + [ts[3]] + [ts[4]];
    JoinedConcat([ts[2]] + [ts[3]], [ts[4]]);
    JoinedConcat([ts[2]], [ts[3]]);
    assert ts[5..] == [] + [];
    SegmentOfDotFree([], []);
  }

  /** `?people.size() >= 5` on two people is false, once the query has
      lexed into its operator, its number and the tokens of
      "people.size()". */
  lemma AtLeastFiveOnLexedQuery(settings: Snapshot, sentinels: Sentinels, query: string, people: string, size: string, p: Json, q: Json, five: string)
    requires people == "people" && size == "size" && five == "5"
    requires Operator(query) == Ok(GtetOperator)
    requires RightOperand(query, LastIndexOf(query, GtetOperator) + 1) == Ok(five)
    requires 1 <= LastIndexOf(query, GtetOperator)
    requires Tokenized(QueryTable, Trim(query[1..LastIndexOf(query, GtetOperator)])) == Ok(PeopleSizeTokens(people, size))
    ensures Evaluate(settings, sentinels, query, Some(Obj([Member(people, Arr([p, q]))]))) == Ok(Prim("false"))
  {
    var root := Some(Obj([Member(people, Arr([p, q]))]));
    var start := LastIndexOf(query, GtetOperator);
    var two := "2";
    PeopleSizeOperand(settings, sentinels, query, start, people, size, p, q, two);
    SingleDigit(two, 2);
    SingleDigit(five, 5);
    BelowIsNotAtLeast(settings, sentinels, query, root, two, five);
  }

  /** The last comparison among the tokens of `a.f() >= n` is `>=`. */
  lemma CallAtLeastOperator(a: string, f: string, n: string)
    requires IsName(a) && IsName(f) && IsNumeric(n)
    ensures OperatorIn(CallAtLeastTokens(a, f, n)) == Ok(GtetOperator)
  {
    var ts := CallAtLeastTokens(a, f, n);
    assert ts[6].text !in ComparisonOperators by {
      assert ts[6].text[0] != '=' && ts[6].text[0] != '!' && ts[6].text[0] != '<' && ts[6].text[0] != '>';
    }
    assert ts[..6][5].text == GtetOperator;
  }

  /** The operator of `?people.size() >= 5` is `>=`. */
  lemma SizeQueryOperator(query: string)
    requires query == "?people.size() >= 5"
    ensures Operator(query) == Ok(GtetOperator)
  {
    var people, size, five := "people", "size", "5";
    assert query[1..] == people + ("." + (size + ("(" + (")" + (" " + (GtetOperator + (" " + five)))))));
    assert IsName(people) && IsName(size) && IsNumeric(five);
    CallAtLeastLexes(people, size, five);
    OperatorOfTokens(query, CallAtLeastTokens(people, size, five));
    CallAtLeastOperator(people, size, five);
  }

  /** In `?people.size() >= 5` the operator starts at 15. */
  lemma SizeQueryOperatorAt(query: string)
    requires query == "?people.size() >= 5"
    ensures LastIndexOf(query, GtetOperator) == 15
  {
    assert OccursAt(query, GtetOperator, 15);
    forall i | 15 < i ensures !OccursAt(query, GtetOperator, i) {
      if i <= 17 {
        assert query[i] != '>';
      }
    }
  }

  /** A digit string after one space is the right operand. */
  lemma SpacedRightOperand(query: string, operatorEnd: int, n: string)
    requires 0 <= operatorEnd + 1 <= |query| && query[operatorEnd + 1..] == [' '] + n && IsNumeric(n)
    ensures RightOperand(query, operatorEnd) == Ok(n)
  {
    TrimAfterSpace(' ', n);
    assert Trim(n) == n by {
      TrimOfTight(n);
    }
  }

  /** In `?people.size() >= 5` the right operand is "5". */
  lemma SizeQueryRightOperand(query: string, five: string)
    requires query == "?people.size() >= 5" && five == "5"
    ensures RightOperand(query, 16) == Ok(five)
  {
    assert query[17..] == [' '] + five;
    SpacedRightOperand(query, 16, five);
  }

  /** In `?people.size() >= 5` the text between the `?` and the operator
      trims to "people.size()". */
  lemma SizeQueryLeftText(query: string)
    requires query == "?people.size() >= 5"
    ensures Trim(query[1..15]) == "people" + ("." + ("size" + ("(" + ")")))
  {
    var call := "people" + ("." + ("size" + ("(" + ")")));
    assert query[1..15] == call + " ";
    assert TrimStart(call + " ") == call + " ";
    assert TrimEnd(call + " ") == call by {
      assert (call + " ")[..|call|] == call;
    }
  }

  /** JigsonFetchTest's expression: `?people.size() >= 5` over two people
      is false. */
  lemma PeopleSizeAtLeastFive(settings: Snapshot, sentinels: Sentinels, query: string, p: Json, q: Json)
    requires query == "?people.size() >= 5"
    ensures Evaluate(settings, sentinels, query, Some(Obj([Member("people", Arr([p, q]))]))) == Ok(Prim("false"))
  {
    var people, size, five := "people", "size", "5";
    assert IsName(people) && IsName(size) && IsNumeric(five);
    SizeQueryOperator(query);
    SizeQueryOperatorAt(query);
    SizeQueryRightOperand(query, five);
    SizeQueryLeftText(query);
    CallLexes(people, size);
    AtLeastFiveOnLexedQuery(settings, sentinels, query, people, size, p, q, five);
  }

  /** `>=` between a smaller left and a larger right operand is false. */
  lemma BelowIsNotAtLeast(settings: Snapshot, sentinels: Sentinels, query: string, e: Option<Json>, left: string, right: string)
    requires Operator(query) == Ok(GtetOperator)
    requires RightOperand(query, LastIndexOf(query, GtetOperator) + 1) == Ok(right)
    requires LeftOperand(settings, sentinels, query, e, LastIndexOf(query, GtetOperator)) == Ok(left)
    requires DigitsValue(left) < DigitsValue(right)
    ensures Evaluate(settings, sentinels, query, e) == Ok(Prim("false"))
  {
    EvaluateCompares(settings, sentinels, query, e, GtetOperator, left, right);
  }

  /** A fetched primitive whose text is a number is the left operand. */
  lemma LeftOperandIsFetched(settings: Snapshot, sentinels: Sentinels, trimmedQuery: string, e: Option<Json>, operatorStart: int, tokens: seq<Token>, text: string)
    requires 1 <= operatorStart <= |trimmedQuery|
    requires Tokenized(QueryTable, Trim(trimmedQuery[1..operatorStart])) == Ok(tokens)
    requires FetchAll(settings, sentinels, tokens, e) == Ok(Some(Prim(text)))
    requires IsNumeric(text)
    ensures LeftOperand(settings, sentinels, trimmedQuery, e, operatorStart) == Ok(text)
  {
    assert AsString(Some(Prim(text))) == Ok(text);
    LeftOperandOf(settings, sentinels, trimmedQuery, e, operatorStart, tokens);
  }

  /** The left operand of a query whose left side lexes to "people.size()"
      is "2" on two people. */
  lemma PeopleSizeOperand(settings: Snapshot, sentinels: Sentinels, query: string, start: int, people: string, size: string, p: Json, q: Json, two: string)
    requires people == "people" && size == "size" && two == "2"
    requires 1 <= start <= |query|
    requires Tokenized(QueryTable, Trim(query[1..start])) == Ok(PeopleSizeTokens(people, size))
    ensures LeftOperand(settings, sentinels, query, Some(Obj([Member(people, Arr([p, q]))])), start) == Ok(two)
  {
    PeopleSize(settings, sentinels, people, size, p, q);
    SingleDigit(two, 2);
    LeftOperandIsFetched(settings, sentinels, query, Some(Obj([Member(people, Arr([p, q]))])), start, PeopleSizeTokens(people, size), two);
  }
}
